/** One recorder's convergence runs: the per-(group, engine) state machine of
    forensics/projections.py, its replay over a chronological log, and the
    reconstruction of its live state from persisted rows alone. */
module Convergence {
  import opened Orders

  datatype EventType =
    | ConvergenceRunState
    | ConvergenceDecision
    | EpochStateChanged
    | GroupStateChanged
    | NetworkEvent(name: string)
    | OtherEvent(name: string)

  /** A non-empty `context.convergence` object. `runId == ""` means absent. */
  datatype ConvergenceContext = ConvergenceContext(runId: string, phase: string, inferred: Option<bool>)

  /** A stored, valid, grouped audit event, as the projector reads it. `fields` holds the run
      columns this event writes: the non-empty selected values and the list-valued kind fields. */
  datatype Event = Event(
    id: nat,
    group: nat,
    engine: string,
    wall: Option<nat>,
    line: nat,
    account: string,
    mode: string,
    etype: EventType,
    context: Option<ConvergenceContext>,
    kindPhase: string,
    newState: string,
    outcome: string,
    selectsBranch: bool,
    fields: map<string, string>,
    candidates: map<string, string>,
    rules: seq<string>,
    messages: seq<string>)

  datatype RunKey = Explicit(runId: string) | Inferred(opener: nat)

  datatype Run = Run(
    key: RunKey,
    account: string,
    phase: string,
    inferred: bool,
    started: Option<nat>,
    ended: Option<nat>,
    fields: map<string, string>,
    candidates: map<string, string>,
    rules: seq<string>,
    evidence: seq<Event>)

  /** The rows of one recorder in row-id order, and the index of the run held open in memory. */
  datatype Recorder = Recorder(runs: seq<Run>, active: Option<nat>) {
    predicate Valid() { active.Some? ==> active.value < |runs| }
  }

  const NO_RUNS := Recorder([], None)

  const TERMINAL_PHASES := {"applied", "blocked", "failed", "stable", "unrecoverable"}
  const TERMINAL_EPOCH_STATES := {"committed", "failed", "stable", "unrecoverable"}

  // ------------------------------------------------------------- chronology

  /** Wall times with NULL last. */
  predicate WallLeq(a: Option<nat>, b: Option<nat>) {
    b.None? || (a.Some? && a.value <= b.value)
  }

  /** `convergence_order_key(a) < convergence_order_key(b)` for two events of one recorder. */
  predicate KeyLess(a: Event, b: Event) {
    !WallLeq(b.wall, a.wall) || (a.wall == b.wall && a.line < b.line)
  }

  /** `ORDER BY wall_time_ms, engine_id, line_number, id` with NULL wall times last. */
  predicate EventLeq(a: Event, b: Event) {
    if a.wall != b.wall then WallLeq(a.wall, b.wall)
    else if a.engine != b.engine then StringLeq(a.engine, b.engine)
    else if a.line != b.line then a.line < b.line
    else a.id <= b.id
  }

  lemma {:induction false} EventOrder()
    ensures TotalPreorder(EventLeq)
  {
    StringOrder();
  }

  /** Timed events first and by time; then by engine in code-point order, line and row id. */
  ghost predicate OneBefore(a: Event, b: Event) {
    && (a.wall.None? ==> b.wall.None?)
    && (a.wall.Some? && b.wall.Some? ==> a.wall.value <= b.wall.value)
    && (a.wall == b.wall ==> ComesFirst(a.engine, b.engine))
    && (a.wall == b.wall && a.engine == b.engine ==> a.line <= b.line)
    && (a.wall == b.wall && a.engine == b.engine && a.line == b.line ==> a.id <= b.id)
  }

  ghost predicate InRowOrder(es: seq<Event>) { forall i, j :: 0 <= i < j < |es| ==> OneBefore(es[i], es[j]) }

  /** The order in which a rebuild or an upload reads its events: the same ones, by those columns. */
  lemma {:induction false} RowOrderMeans(es: seq<Event>)
    ensures multiset(SortBy(es, EventLeq)) == multiset(es) && InRowOrder(SortBy(es, EventLeq))
  {
    EventOrder();
    SortContents(es, EventLeq);
    SortIsSorted(es, EventLeq);
    var sorted := SortBy(es, EventLeq);
    forall i, j | 0 <= i < j < |sorted| ensures OneBefore(sorted[i], sorted[j]) {
      assert EventLeq(sorted[i], sorted[j]);
      StringLeqMeans(sorted[i].engine, sorted[j].engine);
    }
  }

  // ---------------------------------------------------------- event classes

  predicate IsExplicit(e: Event) { e.context.Some? && e.context.value.runId != "" }

  predicate IsConvergenceType(e: Event) { e.etype.ConvergenceRunState? || e.etype.ConvergenceDecision? }

  /** `event_may_need_inferred_convergence_state` */
  predicate MayNeedState(e: Event) {
    || IsConvergenceType(e)
    || e.etype.EpochStateChanged?
    || (e.context.Some? && e.context.value.runId == "")
  }

  /** Events that can change a recorder's runs or its live state. */
  predicate Touches(e: Event) {
    e.engine != "" && (IsConvergenceType(e) || e.etype.EpochStateChanged? || e.context.Some?)
  }

  predicate NoOverride(e: Event) { e.context.Some? ==> e.context.value.inferred.None? }

  /** `inferred_convergence_event_is_terminal` */
  predicate IsTerminal(e: Event, phase: string) {
    match e.etype
    case EpochStateChanged => e.newState in TERMINAL_EPOCH_STATES
    case ConvergenceRunState => phase in TERMINAL_PHASES
    case _ => false
  }

  // ------------------------------------------------------------- run upserts

  function InferredPhase(e: Event): string {
    match e.etype
    case ConvergenceDecision => if e.selectsBranch then "selected" else "decision"
    case EpochStateChanged => e.newState
    case _ => ""
  }

  function PhaseOf(e: Event): string {
    if e.kindPhase != "" then e.kindPhase
    else if e.context.Some? && e.context.value.phase != "" then e.context.value.phase
    else if InferredPhase(e) != "" then InferredPhase(e)
    else e.outcome
  }

  function Earlier(a: Option<nat>, b: Option<nat>): Option<nat> {
    if b.None? then a else if a.None? || b.value < a.value then b else a
  }

  function Later(a: Option<nat>, b: Option<nat>): Option<nat> {
    if b.None? then a else if a.None? || b.value > a.value then b else a
  }

  function NewRun(key: RunKey, account: string): Run {
    Run(key, account, "", key.Inferred?, None, None, map[], map[], [], [])
  }

  /** `update_run_from_event`, the evidence link and, for a decision, its candidate and rule rows. */
  function UpdateRun(run: Run, e: Event): Run {
    Run(run.key,
        if run.account == "" then e.account else run.account,
        if PhaseOf(e) != "" then PhaseOf(e) else run.phase,
        if e.context.Some? && e.context.value.inferred.Some? then e.context.value.inferred.value else run.inferred,
        Earlier(run.started, e.wall),
        Later(run.ended, e.wall),
        run.fields + e.fields,
        if e.etype.ConvergenceDecision? then run.candidates + e.candidates else run.candidates,
        if e.etype.ConvergenceDecision? then run.rules + e.rules else run.rules,
        run.evidence + [e])
  }

  /** Index of the row with this key, or `|runs|` when `get_or_create` has to create it. */
  function Find(runs: seq<Run>, key: RunKey): (i: nat)
    ensures i <= |runs|
    ensures i < |runs| ==> runs[i].key == key
    ensures i == |runs| ==> forall j :: 0 <= j < |runs| ==> runs[j].key != key
  {
    if runs == [] then 0
    else if runs[0].key == key then 0
    else 1 + Find(runs[1..], key)
  }

  function Upsert(runs: seq<Run>, i: nat, blank: Run, e: Event): (r: seq<Run>)
    requires i <= |runs|
  {
    if i < |runs| then runs[i := UpdateRun(runs[i], e)] else runs + [UpdateRun(blank, e)]
  }

  /** `should_project_convergence` followed by `project_convergence`, for the event's own recorder. */
  function Step(r: Recorder, e: Event): (r': Recorder)
    requires r.Valid()
    ensures r'.Valid()
  {
    if !Touches(e) then r
    else if IsExplicit(e) then
      var key := Explicit(e.context.value.runId);
      Recorder(Upsert(r.runs, Find(r.runs, key), NewRun(key, e.account), e), None)
    else if !IsConvergenceType(e) && e.context.None? && r.active.None? then
      r  // an epoch change with no run in flight
    else
      var i := if r.active.Some? then r.active.value else |r.runs|;
      var runs := Upsert(r.runs, i, NewRun(Inferred(e.id), e.account), e);
      Recorder(runs, if IsTerminal(e, runs[i].phase) then None else Some(i))
  }

  function Fold(r: Recorder, es: seq<Event>): (r': Recorder)
    requires r.Valid()
    ensures r'.Valid()
  {
    if es == [] then r else Step(Fold(r, es[..|es| - 1]), es[|es| - 1])
  }

  /** The full rebuild of one recorder: a fold from nothing over its chronological log. */
  function Replay(es: seq<Event>): (r: Recorder)
    ensures r.Valid()
  {
    Fold(NO_RUNS, es)
  }

  // -------------------------------------------- reconstruction from the rows

  /** `order_by(started_at_ms DESC NULLS FIRST, -id).first()` among rows flagged inferred. */
  function LatestInferred(runs: seq<Run>): (i: Option<nat>)
    ensures i.Some? ==> i.value < |runs| && runs[i.value].inferred
  {
    if runs == [] then None
    else
      var n := |runs| - 1;
      var i := LatestInferred(runs[..n]);
      if runs[n].inferred && (i.None? || WallLeq(runs[i.value].started, runs[n].started)) then Some(n) else i
  }

  /** The run's evidence row that sorts last. */
  function LastEvidence(evidence: seq<Event>): (e: Event)
    requires evidence != []
  {
    var n := |evidence| - 1;
    if n == 0 then evidence[0]
    else
      var m := LastEvidence(evidence[..n]);
      if EventLeq(m, evidence[n]) then evidence[n] else m
  }

  /** `run_is_active_inferred` */
  predicate LooksOpen(run: Run) {
    run.evidence == [] || !IsTerminal(LastEvidence(run.evidence), run.phase)
  }

  /** `active_inferred_runs_for_events`, for one recorder. */
  function Reconstruct(runs: seq<Run>): (a: Option<nat>)
    ensures a.Some? ==> a.value < |runs|
  {
    var i := LatestInferred(runs);
    if i.Some? && LooksOpen(runs[i.value]) then i else None
  }

  /** The append path for one recorder: rebuild the live state from the rows if this upload
      carries anything that may need it, then project only the upload. */
  function Append(runs: seq<Run>, upload: seq<Event>): Recorder {
    var needs := exists e :: e in upload && MayNeedState(e) && e.engine != "";
    Fold(Recorder(runs, if needs then Reconstruct(runs) else None), upload)
  }

  // ------------------------------------------------------- fold, elementary

  lemma {:induction false} FoldConcat(r: Recorder, a: seq<Event>, b: seq<Event>)
    requires r.Valid()
    ensures Fold(r, a + b) == Fold(Fold(r, a), b)
  {
    if b == [] {
      assert a + b == a;
    } else {
      var n := |b| - 1;
      assert (a + b)[..|a + b| - 1] == a + b[..n];
      FoldConcat(r, a, b[..n]);
    }
  }

  lemma {:induction false} FoldCons(r: Recorder, e: Event, es: seq<Event>)
    requires r.Valid()
    ensures Fold(r, [e] + es) == Fold(Step(r, e), es)
  {
    FoldConcat(r, [e], es);
    assert [e][..0] == [];
    assert Fold(r, [e]) == Step(Fold(r, [e][..0]), e);
  }

  /** Events that touch no run can be dropped from a log. */
  lemma {:induction false} FoldIgnoresInert(r: Recorder, es: seq<Event>)
    requires r.Valid()
    ensures Fold(r, es) == Fold(r, Filter(es, Touches))
  {
    if es != [] {
      var n := |es| - 1;
      FoldIgnoresInert(r, es[..n]);
      var f := Filter(es[..n], Touches);
      if Touches(es[n]) {
        assert (f + [es[n]])[..|f|] == f;
      } else {
        assert f + [] == f;
      }
    }
  }

  // ---------------------------------------------------- the run in flight, from the log alone

  /** An epoch change that is convergence evidence only while a run is in flight. */
  predicate IsBare(e: Event) { !IsConvergenceType(e) && e.context.None? }

  /** The phase a run shows after this much evidence. */
  function PhaseAfter(es: seq<Event>): string {
    if es == [] then ""
    else if PhaseOf(es[|es| - 1]) != "" then PhaseOf(es[|es| - 1])
    else PhaseAfter(es[..|es| - 1])
  }

  lemma {:induction false} PhaseAfterSnoc(es: seq<Event>, e: Event)
    ensures PhaseAfter(es + [e]) == if PhaseOf(e) != "" then PhaseOf(e) else PhaseAfter(es)
  {
    assert (es + [e])[..|es|] == es;
  }

  /** The evidence since the last opener, after one more event: an explicit-run event or a terminal one leaves
      nothing open, and a bare epoch change opens nothing. */
  function NextRun(current: seq<Event>, e: Event): seq<Event> {
    if !Touches(e) then current
    else if IsExplicit(e) then []
    else if IsBare(e) && current == [] then []
    else if IsTerminal(e, PhaseAfter(current + [e])) then []
    else current + [e]
  }

  /** The evidence of the run that is in flight at the end of the log, read off the log alone. */
  function CurrentRun(es: seq<Event>): seq<Event> {
    if es == [] then [] else NextRun(CurrentRun(es[..|es| - 1]), es[|es| - 1])
  }

  /** The open run of the state machine is the run in flight. */
  ghost predicate OpenIs(r: Recorder, current: seq<Event>) {
    && r.Valid() && (r.active.Some? <==> current != [])
    && (r.active.Some? ==>
          var run := r.runs[r.active.value];
          run.evidence == current && run.phase == PhaseAfter(current))
  }

  lemma {:induction false} StepOpenIs(r: Recorder, current: seq<Event>, e: Event)
    requires OpenIs(r, current)
    ensures OpenIs(Step(r, e), NextRun(current, e))
  {
    PhaseAfterSnoc(current, e);
    if Touches(e) && !IsExplicit(e) && (!IsBare(e) || current != []) {
      InferredStepHolds(r, current, e);
    }
  }

  lemma {:induction false} InferredStepHolds(r: Recorder, current: seq<Event>, e: Event)
    requires OpenIs(r, current) && Touches(e) && !IsExplicit(e) && (!IsBare(e) || current != [])
    requires PhaseAfter(current + [e]) == if PhaseOf(e) != "" then PhaseOf(e) else PhaseAfter(current)
    ensures var i := if r.active.Some? then r.active.value else |r.runs|;
      var r' := Step(r, e);
      && i < |r'.runs| && r'.runs[i].evidence == current + [e] && r'.runs[i].phase == PhaseAfter(current + [e])
      && r'.active == if IsTerminal(e, PhaseAfter(current + [e])) then None else Some(i)
  {
    assert [] + [e] == [e];
  }

  /** The machine is open exactly while the log has a run in flight, and holds exactly its evidence. */
  lemma {:induction false} ReplayOpenIs(es: seq<Event>)
    ensures OpenIs(Replay(es), CurrentRun(es))
  {
    if es != [] {
      ReplayOpenIs(es[..|es| - 1]);
      StepOpenIs(Replay(es[..|es| - 1]), CurrentRun(es[..|es| - 1]), es[|es| - 1]);
    }
  }

  // ------------------------------------------- what a chronological log gives

  ghost predicate Chronological(es: seq<Event>) { Sorted(es, EventLeq) }

  ghost predicate NoOverrides(es: seq<Event>) { forall e :: e in es ==> NoOverride(e) }

  ghost predicate NoExplicit(es: seq<Event>) { forall e :: e in es ==> !IsExplicit(e) }

  /** A log in which an explicit-run event closed a run that its own evidence still shows as open, with
      nothing inferred since. Read off the log alone. */
  predicate ClosedOnlyInMemory(es: seq<Event>) {
    if es == [] then false
    else
      var n := |es| - 1;
      var inFlight := CurrentRun(es[..n]) != [];
      if !Touches(es[n]) then ClosedOnlyInMemory(es[..n])
      else if IsExplicit(es[n]) then inFlight || ClosedOnlyInMemory(es[..n])
      else if IsBare(es[n]) && !inFlight then ClosedOnlyInMemory(es[..n])
      else false
  }

  /** Does the upload consult the live state before an explicit run resets it? */
  predicate ConsultsFirst(upload: seq<Event>) {
    upload != [] && if Touches(upload[0]) then !IsExplicit(upload[0]) else ConsultsFirst(upload[1..])
  }

  /** The run that was opened last. */
  function LastInferredIndex(runs: seq<Run>): (i: Option<nat>)
    ensures i.Some? ==> i.value < |runs| && runs[i.value].key.Inferred?
    ensures i.Some? ==> forall j :: i.value < j < |runs| ==> runs[j].key.Explicit?
    ensures i.None? ==> forall j :: 0 <= j < |runs| ==> runs[j].key.Explicit?
  {
    if runs == [] then None
    else
      var n := |runs| - 1;
      if runs[n].key.Inferred? then Some(n) else LastInferredIndex(runs[..n])
  }

  /** A run row that chronological projection produced: non-empty evidence in order, all at or
      before `now`, and a start that is the first evidence's wall time. */
  ghost predicate RunInOrder(run: Run, now: Event) {
    && run.evidence != []
    && Sorted(run.evidence, EventLeq)
    && (forall x :: x in run.evidence ==> EventLeq(x, now))
    && run.started == run.evidence[0].wall
    && run.inferred
  }

  /** What every reachable recorder state keeps; `now` is the last event projected. */
  ghost predicate InOrder(r: Recorder, now: Event) {
    && r.Valid()
    && (forall i :: 0 <= i < |r.runs| ==> r.runs[i].inferred == r.runs[i].key.Inferred?)
    && (forall i :: 0 <= i < |r.runs| && r.runs[i].key.Inferred? ==> RunInOrder(r.runs[i], now))
    && (forall i, j :: 0 <= i < j < |r.runs| && r.runs[i].key.Inferred? && r.runs[j].key.Inferred? ==>
          WallLeq(r.runs[i].started, r.runs[j].started))
    && (r.active.Some? ==>
          && r.active == LastInferredIndex(r.runs)
          && !IsTerminal(Last(r.runs[r.active.value].evidence), r.runs[r.active.value].phase))
  }

  ghost function Last(es: seq<Event>): Event
    requires es != []
  {
    es[|es| - 1]
  }

  lemma {:induction false} LastEvidenceInOrder(evidence: seq<Event>)
    requires evidence != [] && Sorted(evidence, EventLeq)
    ensures LastEvidence(evidence) == Last(evidence)
  {
    var n := |evidence| - 1;
    if n > 0 {
      LastEvidenceInOrder(evidence[..n]);
      assert EventLeq(evidence[n - 1], evidence[n]);
    }
  }

  lemma {:induction false} LatestIsLast(runs: seq<Run>)
    requires forall i :: 0 <= i < |runs| ==> runs[i].inferred == runs[i].key.Inferred?
    requires forall i, j :: 0 <= i < j < |runs| && runs[i].key.Inferred? && runs[j].key.Inferred? ==>
               WallLeq(runs[i].started, runs[j].started)
    ensures LatestInferred(runs) == LastInferredIndex(runs)
  {
    if runs != [] {
      LatestIsLast(runs[..|runs| - 1]);
    }
  }

  lemma {:induction false} RunStepInOrder(run: Run, now: Event, e: Event)
    requires RunInOrder(run, now) && EventLeq(now, e) && NoOverride(e)
    ensures RunInOrder(UpdateRun(run, e), e)
    ensures UpdateRun(run, e).started == run.started
  {
    EventOrder();
    assert run.evidence[0] in run.evidence;
    assert EventLeq(run.evidence[0], e);
  }

  lemma {:induction false} RunStaysInOrder(run: Run, now: Event, e: Event)
    requires RunInOrder(run, now) && EventLeq(now, e)
    ensures RunInOrder(run, e)
  {
    EventOrder();
  }

  lemma {:induction false} NewRunInOrder(e: Event)
    requires NoOverride(e)
    ensures RunInOrder(UpdateRun(NewRun(Inferred(e.id), e.account), e), e)
  {
    EventOrder();
    assert EventLeq(e, e);
  }

  lemma {:induction false} StartsBeforeNow(run: Run, now: Event, e: Event)
    requires RunInOrder(run, now) && EventLeq(now, e)
    ensures WallLeq(run.started, e.wall)
  {
    EventOrder();
    assert run.evidence[0] in run.evidence;
    assert EventLeq(run.evidence[0], e);
  }

  lemma {:induction false} LastInferredUnique(runs: seq<Run>, i: nat)
    requires i < |runs| && runs[i].key.Inferred?
    requires forall j :: i < j < |runs| ==> runs[j].key.Explicit?
    ensures LastInferredIndex(runs) == Some(i)
  {
  }

  /** Projecting an explicit-run event leaves every inferred row as it was. */
  lemma {:induction false} ExplicitStep(r: Recorder, e: Event)
    requires r.Valid() && Touches(e) && IsExplicit(e)
    ensures var r' := Step(r, e);
      && |r.runs| <= |r'.runs| && r'.active.None?
      && (forall i :: 0 <= i < |r.runs| && r.runs[i].key.Inferred? ==> r'.runs[i] == r.runs[i])
      && (forall i :: 0 <= i < |r.runs| ==> r'.runs[i].key == r.runs[i].key)
      && (forall i :: |r.runs| <= i < |r'.runs| ==> r'.runs[i].key.Explicit?)
      && (NoOverride(e) ==> forall i :: 0 <= i < |r'.runs| && r'.runs[i].key.Explicit? ==>
            r'.runs[i].inferred == if i < |r.runs| then r.runs[i].inferred else false)
  {
  }

  lemma {:induction false} StepInOrder(r: Recorder, now: Event, e: Event)
    requires InOrder(r, now) && EventLeq(now, e) && NoOverride(e)
    ensures InOrder(Step(r, e), e)
  {
    forall i | 0 <= i < |r.runs| && r.runs[i].key.Inferred? ensures RunInOrder(r.runs[i], e) {
      RunStaysInOrder(r.runs[i], now, e);
    }
    if Step(r, e) == r {
    } else if IsExplicit(e) {
      ExplicitStep(r, e);
    } else if r.active.Some? {
      RunStepInOrder(r.runs[r.active.value], now, e);
      ExtendInOrder(r, e);
    } else {
      forall i | 0 <= i < |r.runs| && r.runs[i].key.Inferred? ensures WallLeq(r.runs[i].started, e.wall) {
        StartsBeforeNow(r.runs[i], now, e);
      }
      OpenInOrder(r, e);
    }
  }

  /** The rows without the live state. */
  ghost predicate RowsInOrder(runs: seq<Run>, now: Event) {
    && (forall i :: 0 <= i < |runs| ==> runs[i].inferred == runs[i].key.Inferred?)
    && (forall i :: 0 <= i < |runs| && runs[i].key.Inferred? ==> RunInOrder(runs[i], now))
    && (forall i, j :: 0 <= i < j < |runs| && runs[i].key.Inferred? && runs[j].key.Inferred? ==>
          WallLeq(runs[i].started, runs[j].started))
  }

  /** The open run takes one more piece of evidence. */
  lemma {:induction false} ExtendInOrder(r: Recorder, e: Event)
    requires r.Valid() && RowsInOrder(r.runs, e) && r.active.Some? && r.active == LastInferredIndex(r.runs)
    requires RunInOrder(UpdateRun(r.runs[r.active.value], e), e) && NoOverride(e)
    requires UpdateRun(r.runs[r.active.value], e).started == r.runs[r.active.value].started
    requires Touches(e) && !IsExplicit(e)
    ensures InOrder(Step(r, e), e)
  {
    LastInferredUnique(Step(r, e).runs, r.active.value);
  }

  /** A new run opens after all others. */
  lemma {:induction false} OpenInOrder(r: Recorder, e: Event)
    requires r.Valid() && RowsInOrder(r.runs, e) && r.active.None? && NoOverride(e)
    requires forall i :: 0 <= i < |r.runs| && r.runs[i].key.Inferred? ==> WallLeq(r.runs[i].started, e.wall)
    requires Touches(e) && !IsExplicit(e) && Step(r, e) != r
    ensures InOrder(Step(r, e), e)
  {
    NewRunInOrder(e);
    LastInferredUnique(Step(r, e).runs, |r.runs|);
  }

  /** Every chronological log without `context.inferred` overrides keeps its rows in order. */
  lemma {:induction false} ReplayInOrder(es: seq<Event>)
    requires Chronological(es) && NoOverrides(es) && es != []
    ensures InOrder(Replay(es), Last(es))
  {
    var n := |es| - 1;
    ReplaySnoc(es);
    OrderedPrefix(es);
    if n == 0 {
      assert es[..0] == [];
      assert InOrder(NO_RUNS, es[0]);
      StepInOrder(NO_RUNS, es[0], es[0]);
    } else {
      ReplayInOrder(es[..n]);
      StepInOrder(Replay(es[..n]), Last(es[..n]), es[n]);
    }
  }

  lemma {:induction false} ReplaySnoc(es: seq<Event>)
    requires es != []
    ensures Replay(es) == Step(Replay(es[..|es| - 1]), es[|es| - 1])
  {
  }

  lemma {:induction false} OrderedPrefix(es: seq<Event>)
    requires Chronological(es) && NoOverrides(es) && es != []
    ensures var n := |es| - 1;
      && Chronological(es[..n]) && NoOverrides(es[..n]) && NoOverride(es[n])
      && EventLeq(es[n], es[n]) && (n > 0 ==> EventLeq(Last(es[..n]), es[n]))
  {
    var n := |es| - 1;
    assert es[n] in es && forall x :: x in es[..n] ==> x in es;
    EventOrder();
  }

  /** The newest inferred row still looks open. */
  predicate NewestLooksOpen(runs: seq<Run>) {
    var i := LastInferredIndex(runs);
    i.Some? && LooksOpen(runs[i.value])
  }

  lemma {:induction false} ReconstructInOrder(r: Recorder, now: Event)
    requires InOrder(r, now)
    ensures Reconstruct(r.runs) == if NewestLooksOpen(r.runs) then LastInferredIndex(r.runs) else None
    ensures r.active.Some? ==> Reconstruct(r.runs) == r.active
    ensures forall i :: 0 <= i < |r.runs| && r.runs[i].key.Inferred? ==>
              LastEvidence(r.runs[i].evidence) == Last(r.runs[i].evidence)
  {
    LatestIsLast(r.runs);
    forall i | 0 <= i < |r.runs| && r.runs[i].key.Inferred?
      ensures LastEvidence(r.runs[i].evidence) == Last(r.runs[i].evidence)
    {
      LastEvidenceInOrder(r.runs[i].evidence);
    }
  }

  /** After an inferred event has been projected, the rows show exactly whether its run is open. */
  lemma {:induction false} InferredStepShows(r: Recorder, e: Event)
    requires r.Valid() && Touches(e) && !IsExplicit(e) && InOrder(Step(r, e), e)
    requires IsConvergenceType(e) || e.context.Some? || r.active.Some?
    requires r.active.Some? ==> r.active == LastInferredIndex(r.runs)
    ensures NewestLooksOpen(Step(r, e).runs) == Step(r, e).active.Some?
  {
    var after := Step(r, e);
    var i := if r.active.Some? then r.active.value else |r.runs|;
    LastInferredUnique(after.runs, i);
    LastEvidenceInOrder(after.runs[i].evidence);
    assert Last(after.runs[i].evidence) == e;
  }

  /** The one way the live state and its reconstruction part: the log rule and the row rule agree. */
  lemma {:induction false} StaleIsClosedOnlyInMemory(es: seq<Event>)
    requires Chronological(es) && NoOverrides(es)
    ensures ClosedOnlyInMemory(es) <==> Replay(es).active.None? && NewestLooksOpen(Replay(es).runs)
  {
    if es != [] {
      var n := |es| - 1;
      var e := es[n];
      assert e in es && forall x :: x in es[..n] ==> x in es;
      var before := Replay(es[..n]);
      assert Replay(es) == Step(before, e);
      ReplayOpenIs(es[..n]);
      StaleIsClosedOnlyInMemory(es[..n]);
      if n == 0 { assert before == NO_RUNS; } else { ReplayInOrder(es[..n]); }
      if !Touches(e) {
      } else if IsExplicit(e) {
        StaleExplicit(before, e);
        if n > 0 { ReconstructInOrder(before, Last(es[..n])); }
      } else if IsConvergenceType(e) || e.context.Some? || before.active.Some? {
        ReplayInOrder(es);
        InferredStepShows(before, e);
      }
    }
  }

  lemma {:induction false} StaleExplicit(r: Recorder, e: Event)
    requires r.Valid() && Touches(e) && IsExplicit(e)
    ensures NewestLooksOpen(Step(r, e).runs) == NewestLooksOpen(r.runs)
    ensures LastInferredIndex(Step(r, e).runs) == LastInferredIndex(r.runs)
  {
    ExplicitStep(r, e);
    var i := LastInferredIndex(r.runs);
    if i.Some? {
      LastInferredUnique(Step(r, e).runs, i.value);
    }
  }

  // --------------------------------------------------- append against replay

  /** Live states that differ only in the open run are indistinguishable to an upload that
      does not consult it first. */
  lemma {:induction false} FoldForgetsActive(a: Recorder, b: Recorder, upload: seq<Event>)
    requires a.Valid() && b.Valid() && a.runs == b.runs && !ConsultsFirst(upload)
    ensures Fold(a, upload).runs == Fold(b, upload).runs
  {
    if upload != [] {
      assert upload == [upload[0]] + upload[1..];
      FoldCons(a, upload[0], upload[1..]);
      FoldCons(b, upload[0], upload[1..]);
      if !Touches(upload[0]) {
        FoldForgetsActive(a, b, upload[1..]);
      }
    }
  }

  /** An inferred run that is not the open one never changes again. */
  lemma {:induction false} ClosedRunIsFrozen(r: Recorder, es: seq<Event>, i: nat)
    requires r.Valid() && i < |r.runs| && r.runs[i].key.Inferred? && r.active != Some(i)
    ensures var r' := Fold(r, es);
      i < |r'.runs| && r'.runs[i] == r.runs[i] && r'.active != Some(i)
  {
    if es != [] {
      ClosedRunIsFrozen(r, es[..|es| - 1], i);
    }
  }

  lemma {:induction false} EvidenceOnlyGrows(r: Recorder, es: seq<Event>, i: nat)
    requires r.Valid() && i < |r.runs|
    ensures i < |Fold(r, es).runs| && r.runs[i].evidence <= Fold(r, es).runs[i].evidence
  {
    if es != [] {
      EvidenceOnlyGrows(r, es[..|es| - 1], i);
    }
  }

  /** Nothing but explicit-run evidence was added. */
  ghost predicate GrewExplicitly(before: seq<Event>, after: seq<Event>) {
    before <= after && forall k :: |before| <= k < |after| ==> IsExplicit(after[k])
  }

  /** A run that is not the open one takes only explicit-run evidence, whatever follows. */
  lemma {:induction false} NotOpenTakesOnlyExplicit(r: Recorder, es: seq<Event>, i: nat)
    requires r.Valid() && i < |r.runs| && r.active != Some(i)
    ensures var r' := Fold(r, es);
      i < |r'.runs| && r'.active != Some(i) && GrewExplicitly(r.runs[i].evidence, r'.runs[i].evidence)
  {
    if es != [] {
      NotOpenTakesOnlyExplicit(r, es[..|es| - 1], i);
    }
  }

  /** The first thing a consulting upload adds to the open run is not explicit-run evidence. */
  lemma {:induction false} ConsultingTakesInferred(runs: seq<Run>, i: nat, upload: seq<Event>)
    requires i < |runs| && ConsultsFirst(upload)
    ensures var r' := Fold(Recorder(runs, Some(i)), upload);
      i < |r'.runs| && |runs[i].evidence| < |r'.runs[i].evidence| &&
      !IsExplicit(r'.runs[i].evidence[|runs[i].evidence|])
  {
    var r := Recorder(runs, Some(i));
    assert upload == [upload[0]] + upload[1..];
    FoldCons(r, upload[0], upload[1..]);
    if Touches(upload[0]) {
      EvidenceOnlyGrows(Step(r, upload[0]), upload[1..], i);
    } else {
      ConsultingTakesInferred(runs, i, upload[1..]);
    }
  }

  /** A consulting upload tells apart any two live states over the same rows. */
  lemma {:induction false} ConsultingTellsApart(runs: seq<Run>, i: nat, other: Option<nat>, upload: seq<Event>)
    requires i < |runs| && Recorder(runs, other).Valid() && other != Some(i) && ConsultsFirst(upload)
    ensures Fold(Recorder(runs, Some(i)), upload).runs != Fold(Recorder(runs, other), upload).runs
  {
    ConsultingTakesInferred(runs, i, upload);
    NotOpenTakesOnlyExplicit(Recorder(runs, other), upload, i);
  }

  lemma {:induction false} ConsultingNeedsState(upload: seq<Event>)
    requires ConsultsFirst(upload)
    ensures exists e :: e in upload && MayNeedState(e) && e.engine != ""
  {
    if Touches(upload[0]) {
      assert upload[0] in upload;
    } else {
      ConsultingNeedsState(upload[1..]);
      var e :| e in upload[1..] && MayNeedState(e) && e.engine != "";
      assert e in upload;
    }
  }

  /** The live state after the log is not the one its rows reconstruct to. */
  predicate LosesLive(es: seq<Event>) { Reconstruct(Replay(es).runs) != Replay(es).active }

  /** THE APPEND THEOREM, for every stored log and every upload. Projecting only the upload onto the
      rows of the stored log gives the rows of one replay of both if and only if the rows
      reconstruct to the live state, or the upload does not consult it. */
  lemma {:induction false} AppendExact(stored: seq<Event>, upload: seq<Event>)
    ensures Append(Replay(stored).runs, upload).runs == Replay(stored + upload).runs <==>
            !(LosesLive(stored) && ConsultsFirst(upload))
  {
    var r := Replay(stored);
    FoldConcat(NO_RUNS, stored, upload);
    var rebuilt := Reconstruct(r.runs);
    if !ConsultsFirst(upload) {
      FoldForgetsActive(Recorder(r.runs, rebuilt), r, upload);
      FoldForgetsActive(Recorder(r.runs, None), r, upload);
    } else {
      ConsultingNeedsState(upload);
      assert r == Recorder(r.runs, r.active);
      if rebuilt == r.active {
      } else if rebuilt.Some? {
        ConsultingTellsApart(r.runs, rebuilt.value, r.active, upload);
      } else {
        ConsultingTellsApart(r.runs, r.active.value, rebuilt, upload);
      }
    }
  }

  /** Without overrides a chronological log loses its live state in exactly one way. */
  lemma {:induction false} LosesLiveInOneWay(es: seq<Event>)
    requires Chronological(es) && NoOverrides(es)
    ensures LosesLive(es) <==> ClosedOnlyInMemory(es)
  {
    StaleIsClosedOnlyInMemory(es);
    if es == [] {
      assert Replay(es) == NO_RUNS;
    } else {
      ReplayInOrder(es);
      ReconstructInOrder(Replay(es), Last(es));
    }
  }

  /** Logs without explicit run ids never part from their reconstruction. */
  lemma {:induction false} NoExplicitNeverStale(es: seq<Event>)
    requires NoExplicit(es)
    ensures !ClosedOnlyInMemory(es)
  {
    if es != [] {
      var n := |es| - 1;
      assert es[n] in es && forall x :: x in es[..n] ==> x in es;
      NoExplicitNeverStale(es[..n]);
    }
  }
}
