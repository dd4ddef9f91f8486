/** Where the incremental path and the full rebuild part, on events that pass the v4 schema: four families of
    histories, with a concrete one of each. */
module ProjectionLimits {
  import opened Orders
  import opened Convergence
  import opened Projection
  import opened ProjectionHistory

  // ------------------------------------------------------------------ accepted events

  const PHASES := {
    "started", "waiting", "evaluating", "selected", "blocked", "applied", "failed", "stable", "unrecoverable"
  }

  /** What the v4 schema demands of the fields that matter here: an engine and a time, a run id and a
      known phase in every convergence context, a known phase on every run state and no phase field
      on decisions and epoch changes. */
  predicate Accepted(e: Event) {
    && e.engine != "" && e.wall.Some?
    && (e.context.Some? ==> e.context.value.runId != "" && e.context.value.phase in PHASES + {""})
    && (e.etype.ConvergenceRunState? ==> e.kindPhase in PHASES)
    && (e.etype.ConvergenceDecision? || e.etype.EpochStateChanged? ==> e.kindPhase == "")
  }

  ghost predicate AllAccepted(actions: seq<Action>) {
    forall k :: 0 <= k < |actions| && actions[k].Upload? ==> forall e :: e in actions[k].events ==> Accepted(e)
  }

  ghost predicate NamesNoRun(actions: seq<Action>) {
    forall k :: 0 <= k < |actions| && actions[k].Upload? ==> NoExplicit(actions[k].events)
  }

  /** Accepted events without a run id carry no convergence context, hence no override: for them the
      ordering guard alone keeps every history faithful. */
  lemma {:induction false} AcceptedHistory(actions: seq<Action>)
    requires WellFormed(actions) && AllAccepted(actions) && NamesNoRun(actions)
    ensures Faithful(Live(actions).rows, Live(actions).log)
  {
    forall k | 0 <= k < |actions| && actions[k].Upload? ensures NoOverrides(actions[k].events) {
      forall e | e in actions[k].events ensures NoOverride(e) {
        assert Accepted(e) && !IsExplicit(e);
      }
    }
    RunIdFreeHistory(actions);
  }

  /** An event of engine "a" in group 0. */
  function Sample(id: nat, wall: nat, etype: EventType, phase: string, context: Option<ConvergenceContext>): Event {
    Event(id, 0, "a", Some(wall), id, "", "", etype, context, phase, "", "", false, map[], map[], [], [])
  }

  function RunContext(phase: string, inferred: Option<bool>): Option<ConvergenceContext> {
    Some(ConvergenceContext("r", phase, inferred))
  }

  const OPENS := Sample(1, 1, ConvergenceRunState, "started", None)
  const NAMED := Sample(2, 2, ConvergenceRunState, "evaluating", RunContext("", None))
  const CONTINUES := Sample(3, 3, ConvergenceRunState, "waiting", None)
  const LATE := Sample(1, 5, OtherEvent("message_state_changed"), "", RunContext("selected", None))
  const EARLY := Sample(2, 3, OtherEvent("message_state_changed"), "", RunContext("waiting", None))
  const CLAIMED := Sample(1, 1, ConvergenceRunState, "started", RunContext("", Some(true)))
  const FOLLOWS := Sample(2, 2, ConvergenceRunState, "waiting", None)

  const LATER := Sample(2, 5, ConvergenceRunState, "waiting", None)
  const BETWEEN := Sample(3, 3, OtherEvent("message_state_changed"), "", RunContext("selected", None))

  lemma {:induction false} SamplesAccepted()
    ensures Accepted(LATER) && Accepted(BETWEEN)
    ensures Accepted(OPENS) && Accepted(NAMED) && Accepted(CONTINUES)
    ensures Accepted(LATE) && Accepted(EARLY) && Accepted(CLAIMED) && Accepted(FOLLOWS)
  {
    assert {"started", "waiting", "evaluating", "selected"} <= PHASES;
  }

  // ------------------------------------------------------------------- short histories

  lemma {:induction false} TouchLogOne(e: Event)
    requires Touches(e)
    ensures TouchLog([e], e.engine) == [e]
  {
    FilterOne(e, (x: Event) => x.engine == e.engine && Touches(x));
    assert [e][..0] == [];
    assert SortBy([e], EventLeq) == Insert(e, SortBy([e][..0], EventLeq), EventLeq);
  }

  lemma {:induction false} SortTwo(e: Event, f: Event)
    ensures SortBy([e, f], EventLeq) == if EventLeq(e, f) then [e, f] else [f, e]
  {
    assert [e] + [f] == [e, f];
    assert [e][..0] == [];
    SortSnoc([], e, EventLeq);
    assert [] + [e] == [e];
    SortSnoc([e], f, EventLeq);
    assert [e][1..] == [];
  }

  lemma {:induction false} TouchLogTwo(e: Event, f: Event)
    requires e.engine == f.engine && Touches(e) && Touches(f)
    ensures TouchLog([e, f], e.engine) == if EventLeq(e, f) then [e, f] else [f, e]
  {
    var mine := (x: Event) => x.engine == e.engine && Touches(x);
    FilterConcat([e], [f], mine);
    FilterOne(e, mine);
    FilterOne(f, mine);
    assert [e] + [f] == [e, f];
    SortTwo(e, f);
  }

  lemma {:induction false} FoldOne(r: Recorder, e: Event)
    requires r.Valid()
    ensures Fold(r, [e]) == Step(r, e)
  {
    assert [e][..0] == [];
  }

  lemma {:induction false} FoldTwo(r: Recorder, e: Event, f: Event)
    requires r.Valid()
    ensures Fold(r, [e, f]) == Step(Step(r, e), f)
  {
    FoldOne(r, e);
    assert [e, f][..1] == [e];
  }

  lemma {:induction false} FirstUpload(events: seq<Event>)
    ensures Live([Upload(events)]).log == events
    ensures Live([Upload(events)]).rows == AppendRows(NO_ROWS, events)
  {
    var a := [Upload(events)];
    assert a[..0] == [];
    assert [] + events == events;
  }

  lemma {:induction false} SecondUpload(first: seq<Event>, second: seq<Event>)
    ensures var before := Live([Upload(first)]);
      Live([Upload(first), Upload(second)]) ==
      Life(before.log + second, UploadRows(before.rows, before.log, second))
  {
    var a := [Upload(first), Upload(second)];
    assert a[..1] == [Upload(first)];
  }

  lemma {:induction false} NothingStored(upload: seq<Event>)
    ensures SafeUpload([], upload)
  {
    forall en ensures AppendsInOrder([], upload, en) && !MissesLiveState([], upload, en) {
      assert TouchLog([], en) == [];
    }
  }

  lemma {:induction false} FirstUploadFaithful(events: seq<Event>)
    ensures Faithful(Live([Upload(events)]).rows, events)
  {
    var a := [Upload(events)];
    FirstUpload(events);
    RebuildFaithful([]);
    assert SortBy([], EventLeq) == [];
    NothingStored(events);
    UploadFaithful(NO_ROWS, [], events);
    assert [] + events == events;
  }

  /** Two uploads, the second in order and unguarded: exactly the general condition decides. */
  lemma {:induction false} TwoUploadsPart(first: seq<Event>, second: seq<Event>, engine: string)
    requires IdsAppend(first, second) && !Backfills(first, second)
    requires (forall en :: AppendsInOrder(first, second, en)) && MissesLiveState(first, second, engine)
    ensures var a := [Upload(first), Upload(second)];
      !Faithful(Live(a).rows, Live(a).log)
  {
    FirstUpload(first);
    SecondUpload(first, second);
    FirstUploadFaithful(first);
    UploadFaithful(Live([Upload(first)]).rows, first, second);
  }

  // ---------------------------------------------------------- explicit and inferred runs mixed

  lemma {:induction false} OpenedBy(o: Event)
    requires Touches(o) && IsConvergenceType(o) && !IsExplicit(o) && !IsTerminal(o, PhaseOf(o))
    ensures Replay([o]).active == Some(0)
  {
    FoldOne(NO_RUNS, o);
  }

  lemma {:induction false} ClosedByExplicit(o: Event, x: Event)
    requires Touches(o) && IsConvergenceType(o) && !IsExplicit(o) && !IsTerminal(o, PhaseOf(o))
    requires Touches(x) && IsExplicit(x) && EventLeq(o, x) && NoOverride(o) && NoOverride(x)
    ensures LosesLive([o, x])
  {
    OpenedBy(o);
    ReplayOpenIs([o]);
    assert [o, x][..1] == [o];
    EventOrder();
    LosesLiveInOneWay([o, x]);
  }

  lemma {:induction false} MixedInOrder(o: Event, x: Event, c: Event)
    requires o.engine == x.engine == c.engine && o.id < x.id < c.id && !KeyLess(c, x) && !KeyLess(c, o)
    ensures IdsAppend([o, x], [c]) && !Backfills([o, x], [c])
    ensures forall en :: AppendsInOrder([o, x], [c], en)
  {
  }

  /** Whenever an explicit-run event follows an opened run and the next upload continues without a run id,
      the continuation lands in the old run, while one replay of the whole log starts a second one. */
  lemma {:induction false} MixedRunsPart(o: Event, x: Event, c: Event)
    requires o.engine == x.engine == c.engine != "" && o.id < x.id < c.id
    requires EventLeq(o, x) && !KeyLess(c, x) && !KeyLess(c, o)
    requires IsConvergenceType(o) && !IsExplicit(o) && !IsTerminal(o, PhaseOf(o)) && NoOverride(o)
    requires IsExplicit(x) && NoOverride(x) && IsConvergenceType(c) && !IsExplicit(c)
    ensures var a := [Upload([o, x]), Upload([c])];
      !Faithful(Live(a).rows, Live(a).log)
  {
    MixedInOrder(o, x, c);
    TouchLogTwo(o, x);
    TouchLogOne(c);
    ClosedByExplicit(o, x);
    TwoUploadsPart([o, x], [c], o.engine);
  }

  lemma {:induction false} MixedRunsWitness()
    ensures var a := [Upload([OPENS, NAMED]), Upload([CONTINUES])];
      !Faithful(Live(a).rows, Live(a).log) && AllAccepted(a)
  {
    SamplesAccepted();
    assert "started" !in TERMINAL_PHASES;
    MixedRunsPart(OPENS, NAMED, CONTINUES);
  }

  // ------------------------------------------------- an explicit run that calls itself inferred

  lemma {:induction false} ClaimedLooksOpen(d: Event)
    requires Touches(d) && IsExplicit(d) && d.context.value.inferred == Some(true) && !IsTerminal(d, PhaseOf(d))
    ensures LosesLive([d])
  {
    var run := UpdateRun(NewRun(Explicit(d.context.value.runId), d.account), d);
    ClaimedReplay(d);
    ClaimedRow(d, run);
    OnlyInferred(run);
  }

  lemma {:induction false} ClaimedReplay(d: Event)
    requires Touches(d) && IsExplicit(d)
    ensures Replay([d]) == Recorder([UpdateRun(NewRun(Explicit(d.context.value.runId), d.account), d)], None)
  {
    FoldOne(NO_RUNS, d);
  }

  lemma {:induction false} ClaimedRow(d: Event, run: Run)
    requires IsExplicit(d) && d.context.value.inferred == Some(true) && !IsTerminal(d, PhaseOf(d))
    requires run == UpdateRun(NewRun(Explicit(d.context.value.runId), d.account), d)
    ensures run.inferred && LooksOpen(run)
  {
    assert run.evidence == [d] && LastEvidence([d]) == d;
    assert run.phase == PhaseOf(d);
  }

  lemma {:induction false} OnlyInferred(run: Run)
    requires run.inferred
    ensures LatestInferred([run]) == Some(0)
  {
    assert [run][..0] == [];
    assert LatestInferred([run][..0]).None?;
  }

  /** An explicit run whose context says `inferred: true` is adopted by reconstruction: a later event without a run
      id lands in it, while a rebuild opens a run of its own. */
  lemma {:induction false} OverrideAdoptsRun(d: Event, f: Event)
    requires d.engine == f.engine != "" && d.id < f.id && !KeyLess(f, d)
    requires IsExplicit(d) && d.context.value.inferred == Some(true) && !IsTerminal(d, PhaseOf(d))
    requires IsConvergenceType(f) && f.context.None?
    ensures var a := [Upload([d]), Upload([f])];
      !Faithful(Live(a).rows, Live(a).log)
  {
    TouchLogOne(d);
    TouchLogOne(f);
    ClaimedLooksOpen(d);
    TwoUploadsPart([d], [f], d.engine);
  }

  lemma {:induction false} OverrideWitness()
    ensures var a := [Upload([CLAIMED]), Upload([FOLLOWS])];
      !Faithful(Live(a).rows, Live(a).log) && AllAccepted(a)
  {
    SamplesAccepted();
    assert "started" !in TERMINAL_PHASES;
    OverrideAdoptsRun(CLAIMED, FOLLOWS);
  }

  // ------------------------------------------------------------- out of order past the guard

  /** Two single-event uploads, the second unguarded, at the level of the recorder. */
  lemma {:induction false} TwoSingles(e: Event, f: Event)
    requires e.engine == f.engine && Touches(e) && Touches(f) && !Backfills([e], [f])
    ensures var a := [Upload([e]), Upload([f])];
      && Live(a).log == [e, f]
      && RunsAt(Live(a).rows, e.engine) == Append(Append([], [e]).runs, [f]).runs
      && RunsAt(Rebuild([e, f]), e.engine) == Replay(if EventLeq(e, f) then [e, f] else [f, e]).runs
  {
    SinglesLive(e, f);
    OneAppended(NO_ROWS, e);
    OneAppended(AppendRows(NO_ROWS, [e]), f);
    TouchLogTwo(e, f);
    RebuildRuns([e, f], e.engine);
  }

  lemma {:induction false} SinglesLive(e: Event, f: Event)
    requires !Backfills([e], [f])
    ensures Live([Upload([e]), Upload([f])]) == Life([e, f], AppendRows(AppendRows(NO_ROWS, [e]), [f]))
  {
    FirstUpload([e]);
    SecondUpload([e], [f]);
    assert [e] + [f] == [e, f];
  }

  lemma {:induction false} OneAppended(rows: GroupRows, e: Event)
    requires Touches(e)
    ensures RunsAt(AppendRows(rows, [e]), e.engine) == Append(RunsAt(rows, e.engine), [e]).runs
  {
    AppendRuns(rows, [e], e.engine);
    TouchLogOne(e);
  }

  lemma {:induction false} ExplicitStepOne(r: Recorder, e: Event, key: RunKey)
    requires r.Valid() && Touches(e) && IsExplicit(e) && key == Explicit(e.context.value.runId)
    requires r.runs == [] || (|r.runs| == 1 && r.runs[0].key == key)
    requires PhaseOf(e) != ""
    ensures var r' := Step(r, e);
      r'.active.None? && |r'.runs| == 1 && r'.runs[0].key == key && r'.runs[0].phase == PhaseOf(e)
  {
  }

  /** Evidence of an explicit run that is not of a convergence type is invisible to the guard:
      when it arrives out of order, the last write to the run's phase follows arrival, not time. */
  lemma {:induction false} ExplicitBackfillUnguarded(late: Event, early: Event)
    requires late.engine == early.engine != "" && late.id < early.id && !EventLeq(late, early)
    requires IsExplicit(late) && IsExplicit(early) && late.context.value.runId == early.context.value.runId
    requires !MayNeedState(late) && !MayNeedState(early)
    requires PhaseOf(late) != PhaseOf(early) && PhaseOf(late) != "" && PhaseOf(early) != ""
    ensures var a := [Upload([late]), Upload([early])];
      var live, rebuilt := RunsAt(Live(a).rows, late.engine), RunsAt(Rebuild(Live(a).log), late.engine);
      && |live| == |rebuilt| == 1 && live[0].key == rebuilt[0].key
      && live[0].phase == PhaseOf(early) != PhaseOf(late) == rebuilt[0].phase
  {
    assert !Backfills([late], [early]);
    TwoSingles(late, early);
    var key := Explicit(late.context.value.runId);
    FoldOne(NO_RUNS, late);
    ExplicitStepOne(NO_RUNS, late, key);
    var arrived := Recorder(Append([], [late]).runs, None);
    assert Append([], [late]) == Step(NO_RUNS, late) by { assert Reconstruct([]).None?; }
    FoldOne(arrived, early);
    ExplicitStepOne(arrived, early, key);
    FoldTwo(NO_RUNS, early, late);
    ExplicitStepOne(NO_RUNS, early, key);
    ExplicitStepOne(Step(NO_RUNS, early), late, key);
  }

  lemma {:induction false} ExplicitBackfillWitness()
    ensures var a := [Upload([LATE]), Upload([EARLY])];
      !Faithful(Live(a).rows, Live(a).log) && AllAccepted(a)
  {
    SamplesAccepted();
    assert |"selected"| != |"waiting"|;
    ExplicitBackfillUnguarded(LATE, EARLY);
    var a := [Upload([LATE]), Upload([EARLY])];
    assert !RunsMatchAt(Live(a).rows, Live(a).log, "a");
  }

  // -------------------------------------------------- a named run between two inferred events

  lemma {:induction false} FoldThree(r: Recorder, e: Event, f: Event, g: Event)
    requires r.Valid()
    ensures Fold(r, [e, f, g]) == Step(Step(Step(r, e), f), g)
  {
    FoldTwo(r, e, f);
    assert [e, f, g][..2] == [e, f];
  }

  lemma {:induction false} TouchLogThree(o: Event, c: Event, x: Event)
    requires o.engine == c.engine == x.engine && Touches(o) && Touches(c) && Touches(x)
    requires EventLeq(o, c) && EventLeq(o, x) && !EventLeq(c, x)
    ensures TouchLog([o, c] + [x], o.engine) == [o, x, c]
  {
    FilterAll([o, c] + [x], (e: Event) => e.engine == o.engine && Touches(e));
    SortTwo(o, c);
    SortSnoc([o, c], x, EventLeq);
    InsertBetween(o, c, x);
  }

  lemma {:induction false} InsertBetween(o: Event, c: Event, x: Event)
    requires EventLeq(o, c) && EventLeq(o, x) && !EventLeq(c, x)
    ensures Insert(x, [o, c], EventLeq) == [o, x, c]
  {
    EventOrder();
    assert [o, c][1..] == [c] && [c][1..] == [];
  }

  /** The stored pair is one open or closed inferred run. */
  lemma {:induction false} PairIsOneRun(o: Event, c: Event)
    requires Touches(o) && IsConvergenceType(o) && !IsExplicit(o) && !IsTerminal(o, PhaseOf(o))
    requires Touches(c) && IsConvergenceType(c) && !IsExplicit(c)
    ensures |Replay([o, c]).runs| == 1 && Replay([o, c]).runs[0].key == Inferred(o.id)
  {
    OpenedBy(o);
    FoldOne(NO_RUNS, o);
    FoldTwo(NO_RUNS, o, c);
  }

  lemma {:induction false} NamedBetweenIsThree(o: Event, x: Event, c: Event)
    requires Touches(o) && IsConvergenceType(o) && !IsExplicit(o) && !IsTerminal(o, PhaseOf(o))
    requires Touches(x) && IsExplicit(x) && Touches(c) && IsConvergenceType(c) && !IsExplicit(c)
    ensures |Replay([o, x, c]).runs| == 3
  {
    OpenedBy(o);
    FoldOne(NO_RUNS, o);
    FoldThree(NO_RUNS, o, x, c);
    ExplicitStep(Step(NO_RUNS, o), x);
  }

  /** Explicit evidence adds at most its own row to what is there. */
  lemma {:induction false} NamedAppendIsTwo(runs: seq<Run>, x: Event)
    requires |runs| == 1 && runs[0].key.Inferred? && Touches(x) && IsExplicit(x)
    ensures |Append(runs, [x]).runs| == 2
  {
    var needs := exists e :: e in [x] && MayNeedState(e) && e.engine != "";
    FoldOne(Recorder(runs, if needs then Reconstruct(runs) else None), x);
    assert runs[1..] == [];
  }

  lemma {:induction false} NamedBetweenRows(o: Event, c: Event, x: Event)
    requires o.engine == c.engine == x.engine != "" && EventLeq(o, c) && !Backfills([o, c], [x])
    requires Touches(o) && Touches(c) && Touches(x)
    ensures var a := [Upload([o, c]), Upload([x])];
      && Live(a).log == [o, c] + [x]
      && RunsAt(Live(a).rows, o.engine) == Append(RunsAt(Live([Upload([o, c])]).rows, o.engine), [x]).runs
      && RunsAt(Live([Upload([o, c])]).rows, o.engine) == Replay([o, c]).runs
  {
    FirstUpload([o, c]);
    SecondUpload([o, c], [x]);
    OneAppended(Live([Upload([o, c])]).rows, x);
    FirstUploadFaithful([o, c]);
    assert RunsMatchAt(Live([Upload([o, c])]).rows, [o, c], o.engine);
    RebuildRuns([o, c], o.engine);
    TouchLogTwo(o, c);
  }

  /** Evidence of a named run, not of a convergence type, that arrives later but sorts between an inferred opener
      and its continuation: the guard is silent and the append keeps one inferred run, while a rebuild
      makes two. Two rows against three, whatever the values. */
  lemma {:induction false} NamedBetweenParts(o: Event, c: Event, x: Event)
    requires o.engine == c.engine == x.engine != "" && EventLeq(o, c) && EventLeq(o, x) && !EventLeq(c, x)
    requires IsConvergenceType(o) && !IsExplicit(o) && !IsTerminal(o, PhaseOf(o))
    requires IsConvergenceType(c) && !IsExplicit(c) && IsExplicit(x) && !MayNeedState(x)
    ensures var a := [Upload([o, c]), Upload([x])];
      && |RunsAt(Live(a).rows, o.engine)| == 2 && |RunsAt(Rebuild(Live(a).log), o.engine)| == 3
      && !Faithful(Live(a).rows, Live(a).log)
  {
    assert !Backfills([o, c], [x]);
    NamedBetweenRows(o, c, x);
    PairIsOneRun(o, c);
    NamedAppendIsTwo(Replay([o, c]).runs, x);
    TouchLogThree(o, c, x);
    NamedBetweenIsThree(o, x, c);
    RebuildRuns([o, c] + [x], o.engine);
    var a := [Upload([o, c]), Upload([x])];
    assert !RunsMatchAt(Live(a).rows, Live(a).log, o.engine);
  }

  lemma {:induction false} NamedBetweenWitness()
    ensures var a := [Upload([OPENS, LATER]), Upload([BETWEEN])];
      !Faithful(Live(a).rows, Live(a).log) && AllAccepted(a)
  {
    SamplesAccepted();
    assert "started" !in TERMINAL_PHASES;
    NamedBetweenParts(OPENS, LATER, BETWEEN);
  }
}
