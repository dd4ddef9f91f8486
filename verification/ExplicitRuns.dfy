/** Recorders whose convergence evidence all names its run. The ordering guard does not see all of it, so an
    upload may arrive out of order. Rows are compared as the table holds them: one row for each run id,
    its columns, and its evidence as a set (forensics/projections.py). */
module ExplicitRuns {
  import opened Orders
  import opened Convergence
  import opened Projection
  import opened ProjectionHistory

  // --------------------------------------------------------------- rows by run id

  ghost predicate AllExplicit(es: seq<Event>) { forall e :: e in es ==> Touches(e) && IsExplicit(e) }

  predicate HasId(e: Event, id: string) { IsExplicit(e) && e.context.value.runId == id }

  function WithId(id: string): Event -> bool { (e: Event) => HasId(e, id) }

  ghost function Linked(es: seq<Event>): set<Event> { set e | e in es }

  /** A row as the database holds it: the columns, and the linked events in no order. */
  datatype Row = Row(columns: Run, evidence: set<Event>)

  ghost function RowOf(run: Run): Row { Row(run.(evidence := []), Linked(run.evidence)) }

  ghost function UpdateRow(row: Row, e: Event): Row {
    Row(UpdateRun(row.columns, e).(evidence := []), row.evidence + {e})
  }

  lemma {:induction false} UpdatesAgree(run: Run, e: Event)
    ensures RowOf(UpdateRun(run, e)) == UpdateRow(RowOf(run), e)
  {
    assert Linked(run.evidence + [e]) == Linked(run.evidence) + {e};
  }

  /** The row of this run id, if there is one. */
  ghost function ById(runs: seq<Run>, id: string): Option<Row> {
    var i := Find(runs, Explicit(id));
    if i < |runs| then Some(RowOf(runs[i])) else None
  }

  /** Every row is an explicit run, one for each id. */
  ghost predicate OneEach(runs: seq<Run>) {
    && (forall i :: 0 <= i < |runs| ==> runs[i].key.Explicit?)
    && (forall i, j :: 0 <= i < j < |runs| ==> runs[i].key != runs[j].key)
  }

  /** The same table: the same ids, and for each the same columns and the same evidence. */
  ghost predicate SameTable(a: seq<Run>, b: seq<Run>) {
    OneEach(a) && OneEach(b) && forall id :: ById(a, id) == ById(b, id)
  }

  // ---------------------------------------------------- one run depends on its own events

  /** What the events of this id make of its row. */
  ghost function OwnRow(start: Option<Row>, id: string, es: seq<Event>): Option<Row> {
    if es == [] then start
    else
      var e := es[|es| - 1];
      var before := OwnRow(start, id, es[..|es| - 1]);
      if !HasId(e, id) then before
      else Some(UpdateRow(if before.Some? then before.value else RowOf(NewRun(Explicit(id), e.account)), e))
  }

  lemma {:induction false} FindSnoc(runs: seq<Run>, run: Run, key: RunKey)
    ensures Find(runs + [run], key) ==
            if Find(runs, key) < |runs| then Find(runs, key) else if run.key == key then |runs| else |runs| + 1
  {
    if runs == [] {
      assert [run][1..] == [];
    } else {
      assert (runs + [run])[1..] == runs[1..] + [run];
      FindSnoc(runs[1..], run, key);
    }
  }

  lemma {:induction false} FindUpdate(runs: seq<Run>, i: nat, run: Run, key: RunKey)
    requires i < |runs| && run.key == runs[i].key
    ensures Find(runs[i := run], key) == Find(runs, key)
  {
    if i > 0 {
      assert runs[i := run][1..] == runs[1..][i - 1 := run];
      FindUpdate(runs[1..], i - 1, run, key);
    } else {
      assert runs[i := run][1..] == runs[1..];
    }
  }

  lemma {:induction false} OwnRowOne(start: Option<Row>, id: string, e: Event)
    ensures OwnRow(start, id, [e]) ==
            if !HasId(e, id) then start
            else Some(UpdateRow(if start.Some? then start.value else RowOf(NewRun(Explicit(id), e.account)), e))
  {
    assert [e][..0] == [];
  }

  /** An explicit event changes the row of its own id and no other. */
  lemma {:induction false} StepById(r: Recorder, e: Event, id: string)
    requires r.Valid() && Touches(e) && IsExplicit(e)
    ensures ById(Step(r, e).runs, id) == OwnRow(ById(r.runs, id), id, [e])
  {
    var key := Explicit(e.context.value.runId);
    var i := Find(r.runs, key);
    OwnRowOne(ById(r.runs, id), id, e);
    if i < |r.runs| {
      FindUpdate(r.runs, i, UpdateRun(r.runs[i], e), Explicit(id));
      UpdatesAgree(r.runs[i], e);
    } else {
      FindSnoc(r.runs, UpdateRun(NewRun(key, e.account), e), Explicit(id));
      UpdatesAgree(NewRun(key, e.account), e);
    }
  }

  lemma {:induction false} StepOneEach(r: Recorder, e: Event)
    requires r.Valid() && Touches(e) && IsExplicit(e) && OneEach(r.runs)
    ensures OneEach(Step(r, e).runs)
  {
  }

  lemma {:induction false} OwnRowConcat(start: Option<Row>, id: string, a: seq<Event>, b: seq<Event>)
    ensures OwnRow(start, id, a + b) == OwnRow(OwnRow(start, id, a), id, b)
  {
    if b == [] {
      assert a + b == a;
    } else {
      assert (a + b)[..|a + b| - 1] == a + b[..|b| - 1];
      OwnRowConcat(start, id, a, b[..|b| - 1]);
    }
  }

  lemma {:induction false} OwnRowLast(start: Option<Row>, id: string, es: seq<Event>)
    requires es != []
    ensures OwnRow(start, id, es) == OwnRow(OwnRow(start, id, es[..|es| - 1]), id, [es[|es| - 1]])
  {
    OwnRowConcat(start, id, es[..|es| - 1], [es[|es| - 1]]);
    assert es[..|es| - 1] + [es[|es| - 1]] == es;
  }

  lemma {:induction false} ExplicitPrefix(es: seq<Event>)
    requires AllExplicit(es) && es != []
    ensures AllExplicit(es[..|es| - 1]) && Touches(es[|es| - 1]) && IsExplicit(es[|es| - 1])
  {
    assert es[|es| - 1] in es && forall x :: x in es[..|es| - 1] ==> x in es;
  }

  lemma {:induction false} FoldById(r: Recorder, es: seq<Event>, id: string)
    requires r.Valid() && AllExplicit(es)
    ensures ById(Fold(r, es).runs, id) == OwnRow(ById(r.runs, id), id, es)
  {
    if es != [] {
      var n := |es| - 1;
      ExplicitPrefix(es);
      FoldById(r, es[..n], id);
      StepById(Fold(r, es[..n]), es[n], id);
      OwnRowLast(ById(r.runs, id), id, es);
    }
  }

  lemma {:induction false} FoldOneEach(r: Recorder, es: seq<Event>)
    requires r.Valid() && AllExplicit(es) && OneEach(r.runs)
    ensures OneEach(Fold(r, es).runs)
  {
    if es != [] {
      var n := |es| - 1;
      ExplicitPrefix(es);
      FoldOneEach(r, es[..n]);
      StepOneEach(Fold(r, es[..n]), es[n]);
    }
  }

  lemma {:induction false} OwnRowFilter(start: Option<Row>, id: string, es: seq<Event>)
    ensures OwnRow(start, id, es) == OwnRow(start, id, Filter(es, WithId(id)))
  {
    if es != [] {
      var n := |es| - 1;
      OwnRowFilter(start, id, es[..n]);
      var f := Filter(es[..n], WithId(id));
      if HasId(es[n], id) {
        assert (f + [es[n]])[..|f|] == f;
      } else {
        assert f + [] == f;
      }
    }
  }

  lemma {:induction false} ReplayById(es: seq<Event>, id: string)
    requires AllExplicit(es)
    ensures ById(Replay(es).runs, id) == OwnRow(None, id, Filter(es, WithId(id))) && OneEach(Replay(es).runs)
  {
    FoldById(NO_RUNS, es, id);
    OwnRowFilter(None, id, es);
    FoldOneEach(NO_RUNS, es);
  }

  lemma {:induction false} AppendById(runs: seq<Run>, upload: seq<Event>, id: string)
    requires AllExplicit(upload) && OneEach(runs)
    ensures ById(Append(runs, upload).runs, id) == OwnRow(ById(runs, id), id, Filter(upload, WithId(id)))
    ensures OneEach(Append(runs, upload).runs)
  {
    var needs := exists e :: e in upload && MayNeedState(e) && e.engine != "";
    var r := Recorder(runs, if needs then Reconstruct(runs) else None);
    FoldById(r, upload, id);
    OwnRowFilter(ById(runs, id), id, upload);
    FoldOneEach(r, upload);
  }

  // -------------------------------------------------------- what order can change in a row

  /** The columns in which the order of a run's evidence shows. */
  datatype Ordered = Ordered(
    account: string,
    phase: string,
    inferred: bool,
    fields: map<string, string>,
    candidates: map<string, string>,
    rules: seq<string>)

  /** What a run's log, in this order, decides. */
  ghost function Decided(id: string, es: seq<Event>): Option<Ordered> {
    var row := OwnRow(None, id, es);
    if row.None? then None
    else
      var c := row.value.columns;
      Some(Ordered(c.account, c.phase, c.inferred, c.fields, c.candidates, c.rules))
  }

  /** Key, span and evidence of the row, described without order. */
  ghost predicate OrderFree(row: Option<Row>, id: string, es: seq<Event>) {
    var seen := Linked(es);
    if row.None? then es == []
    else
      && es != [] && row.value.columns.key == Explicit(id) && row.value.columns.evidence == []
      && IsEarliest(row.value.columns.started, seen) && IsLatest(row.value.columns.ended, seen)
      && row.value.evidence == seen
  }

  lemma {:induction false} OwnRowOrderFree(id: string, es: seq<Event>)
    requires forall e :: e in es ==> HasId(e, id)
    ensures OrderFree(OwnRow(None, id, es), id, es)
  {
    if es != [] {
      var n := |es| - 1;
      assert es[n] in es && forall x :: x in es[..n] ==> x in es;
      OwnRowOrderFree(id, es[..n]);
      MembersLast(es);
      var before := OwnRow(None, id, es[..n]);
      var base := if before.Some? then before.value else RowOf(NewRun(Explicit(id), es[n].account));
      OrderFreeStep(base, Linked(es[..n]), es[n]);
    }
  }

  lemma {:induction false} MembersLast(es: seq<Event>)
    requires es != []
    ensures Linked(es) == Linked(es[..|es| - 1]) + {es[|es| - 1]}
  {
    assert es == es[..|es| - 1] + [es[|es| - 1]];
  }

  lemma {:induction false} OrderFreeStep(row: Row, seen: set<Event>, e: Event)
    requires IsEarliest(row.columns.started, seen) && IsLatest(row.columns.ended, seen) && row.evidence == seen
    ensures var row' := UpdateRow(row, e);
      && IsEarliest(row'.columns.started, seen + {e}) && IsLatest(row'.columns.ended, seen + {e})
      && row'.evidence == seen + {e} && row'.columns.key == row.columns.key && row'.columns.evidence == []
  {
    ExtremesStep(row.columns.started, row.columns.ended, seen, e);
  }

  /** Two orders of one run's log give the same row exactly when they decide the same columns. */
  lemma {:induction false} RowsAgreeExactly(id: string, a: seq<Event>, b: seq<Event>)
    requires (forall e :: e in a ==> HasId(e, id)) && forall e :: e in a <==> e in b
    ensures OwnRow(None, id, a) == OwnRow(None, id, b) <==> Decided(id, a) == Decided(id, b)
  {
    OwnRowOrderFree(id, a);
    OwnRowOrderFree(id, b);
    assert Linked(a) == Linked(b);
    var x, y := OwnRow(None, id, a), OwnRow(None, id, b);
    if x.Some? && y.Some? {
      SameSpan(x.value.columns, y.value.columns, Linked(a));
    }
  }

  lemma {:induction false} SameSpan(x: Run, y: Run, seen: set<Event>)
    requires IsEarliest(x.started, seen) && IsLatest(x.ended, seen)
    requires IsEarliest(y.started, seen) && IsLatest(y.ended, seen)
    ensures x.started == y.started && x.ended == y.ended
  {
    ExtremesUnique(x.started, x.ended, y.started, y.ended, seen);
  }

  // --------------------------------------------------------------------- one upload

  /** The evidence of one run in chronological order. */
  function IdLog(es: seq<Event>, engine: string, id: string): seq<Event> { Filter(TouchLog(es, engine), WithId(id)) }

  /** For this run, taking the upload after the stored log decides the same as taking all in order. */
  ghost predicate OrderSettles(stored: seq<Event>, upload: seq<Event>, engine: string, id: string) {
    var arrived := IdLog(stored, engine, id) + IdLog(upload, engine, id);
    Decided(id, arrived) == Decided(id, IdLog(stored + upload, engine, id))
  }

  /** The table that a rebuild would give this recorder. */
  ghost predicate TableMatchesAt(rows: GroupRows, events: seq<Event>, engine: string) {
    SameTable(RunsAt(rows, engine), RunsAt(Rebuild(events), engine))
  }

  lemma {:induction false} IdLogMembers(es: seq<Event>, engine: string, id: string)
    ensures forall e :: e in IdLog(es, engine, id) <==> e in es && e.engine == engine && Touches(e) && HasId(e, id)
  {
    TouchLogMembers(es, engine);
    FilterMembers(TouchLog(es, engine), WithId(id));
  }

  lemma {:induction false} ExplicitLog(es: seq<Event>, part: seq<Event>, engine: string)
    requires AllExplicit(TouchLog(es, engine)) && forall e :: e in part ==> e in es
    ensures AllExplicit(TouchLog(part, engine))
  {
    TouchLogMembers(es, engine);
    TouchLogMembers(part, engine);
  }

  /** One run id: the appended row is the rebuilt one exactly when order settles nothing differently. */
  lemma {:induction false} OneIdExact(runs: seq<Run>, stored: seq<Event>, upload: seq<Event>, engine: string,
                                      id: string)
    requires AllExplicit(TouchLog(stored + upload, engine)) && AllExplicit(TouchLog(stored, engine))
    requires AllExplicit(TouchLog(upload, engine)) && SameTable(runs, Replay(TouchLog(stored, engine)).runs)
    ensures var appended := Append(runs, TouchLog(upload, engine)).runs;
      var rebuilt := Replay(TouchLog(stored + upload, engine)).runs;
      ById(appended, id) == ById(rebuilt, id) <==> OrderSettles(stored, upload, engine, id)
  {
    ReplayById(TouchLog(stored, engine), id);
    ReplayById(TouchLog(stored + upload, engine), id);
    AppendById(runs, TouchLog(upload, engine), id);
    var s, u, all := IdLog(stored, engine, id), IdLog(upload, engine, id), IdLog(stored + upload, engine, id);
    OwnRowConcat(None, id, s, u);
    IdLogMembers(stored, engine, id);
    IdLogMembers(upload, engine, id);
    IdLogMembers(stored + upload, engine, id);
    RowsAgreeExactly(id, s + u, all);
  }

  lemma {:induction false} TablesOneEach(runs: seq<Run>, stored: seq<Event>, upload: seq<Event>, engine: string)
    requires AllExplicit(TouchLog(stored + upload, engine)) && AllExplicit(TouchLog(upload, engine)) && OneEach(runs)
    ensures OneEach(Append(runs, TouchLog(upload, engine)).runs)
    ensures OneEach(Replay(TouchLog(stored + upload, engine)).runs)
  {
    AppendById(runs, TouchLog(upload, engine), "");
    ReplayById(TouchLog(stored + upload, engine), "");
  }

  /** ONE UPLOAD of explicit-run evidence, in any order: the appended table is the rebuilt table if and only if, for
      every run, its own evidence taken as it arrived decides the same columns as taken in order. */
  lemma {:induction false} ExplicitAppendExact(rows: GroupRows, stored: seq<Event>, upload: seq<Event>, engine: string)
    requires TableMatchesAt(rows, stored, engine) && AllExplicit(TouchLog(stored + upload, engine))
    ensures TableMatchesAt(AppendRows(rows, upload), stored + upload, engine) <==>
            forall id :: OrderSettles(stored, upload, engine, id)
  {
    ExplicitLog(stored + upload, stored, engine);
    ExplicitLog(stored + upload, upload, engine);
    RebuildRuns(stored, engine);
    RebuildRuns(stored + upload, engine);
    AppendRuns(rows, upload, engine);
    var runs := RunsAt(rows, engine);
    TablesOneEach(runs, stored, upload, engine);
    var left, right := Append(runs, TouchLog(upload, engine)).runs, Replay(TouchLog(stored + upload, engine)).runs;
    forall id ensures ById(left, id) == ById(right, id) <==> OrderSettles(stored, upload, engine, id) {
      OneIdExact(runs, stored, upload, engine, id);
    }
  }

  // ----------------------------------------------------------- evidence that arrives in order

  predicate SameRun(s: Event, u: Event) {
    s.engine == u.engine && Touches(s) && Touches(u) && IsExplicit(s) && HasId(u, s.context.value.runId)
  }

  /** Nothing uploaded sorts before stored evidence of the same run. */
  ghost predicate RunsAppendInOrder(stored: seq<Event>, upload: seq<Event>, engine: string) {
    forall s, u :: s in stored && u in upload && s.engine == engine && SameRun(s, u) ==> !KeyLess(u, s)
  }

  lemma {:induction false} IdLogIsSort(es: seq<Event>, engine: string, id: string)
    ensures IdLog(es, engine, id) ==
            SortBy(Filter(es, (e: Event) => e.engine == engine && Touches(e) && HasId(e, id)), EventLeq)
  {
    EventOrder();
    var mine := (e: Event) => e.engine == engine && Touches(e);
    var both := (e: Event) => e.engine == engine && Touches(e) && HasId(e, id);
    FilterSort(Filter(es, mine), EventLeq, WithId(id));
    FilterFilter(es, mine, WithId(id), both);
  }

  /** Then each run's log is its stored log followed by the upload's, so order settles nothing. */
  lemma {:induction false} InOrderSettles(stored: seq<Event>, upload: seq<Event>, engine: string, id: string)
    requires IdsAppend(stored, upload) && RunsAppendInOrder(stored, upload, engine)
    ensures IdLog(stored + upload, engine, id) == IdLog(stored, engine, id) + IdLog(upload, engine, id)
    ensures OrderSettles(stored, upload, engine, id)
  {
    EventOrder();
    var both := (e: Event) => e.engine == engine && Touches(e) && HasId(e, id);
    IdLogIsSort(stored, engine, id);
    IdLogIsSort(upload, engine, id);
    IdLogIsSort(stored + upload, engine, id);
    FilterConcat(stored, upload, both);
    FilterMembers(stored, both);
    FilterMembers(upload, both);
    forall s, u | s in Filter(stored, both) && u in Filter(upload, both) ensures EventLeq(s, u) {
      LaterKeyLaterRow(s, u);
    }
    SortAppend(Filter(stored, both), Filter(upload, both), EventLeq);
  }

  // ------------------------------------------------------------------ whole histories

  /** Wherever the guard stays silent, order settles nothing for this recorder. */
  ghost predicate Settled(actions: seq<Action>, engine: string) {
    forall k :: 0 <= k < |actions| && actions[k].Upload? ==>
      || Backfills(Live(actions[..k]).log, actions[k].events)
      || forall id :: OrderSettles(Live(actions[..k]).log, actions[k].events, engine, id)
  }

  ghost predicate RunsInOrder(actions: seq<Action>, engine: string) {
    forall k :: 0 <= k < |actions| && actions[k].Upload? ==>
      || Backfills(Live(actions[..k]).log, actions[k].events)
      || RunsAppendInOrder(Live(actions[..k]).log, actions[k].events, engine)
  }

  lemma {:induction false} RebuiltTable(events: seq<Event>, engine: string)
    requires AllExplicit(TouchLog(events, engine))
    ensures TableMatchesAt(Rebuild(events), events, engine)
  {
    RebuildRuns(events, engine);
    ReplayById(TouchLog(events, engine), "");
  }

  /** EVERY HISTORY of a recorder whose evidence all names its run: whichever path each upload took, its table is
      that of one full rebuild, if order settled nothing wherever the guard did not step in. */
  lemma {:induction false} ExplicitHistory(actions: seq<Action>, engine: string)
    requires AllExplicit(TouchLog(Live(actions).log, engine)) && Settled(actions, engine)
    ensures TableMatchesAt(Live(actions).rows, Live(actions).log, engine)
  {
    if actions == [] {
      RebuiltTable([], engine);
      assert SortBy([], EventLeq) == [];
      assert Rebuild([]) == NO_ROWS;
    } else {
      var n := |actions| - 1;
      PrefixSlices(actions, n);
      var before := Live(actions[..n]);
      ExplicitLog(Live(actions).log, before.log, engine);
      ExplicitHistory(actions[..n], engine);
      RebuiltTable(Live(actions).log, engine);
      if actions[n].Upload? && !Backfills(before.log, actions[n].events) {
        ExplicitAppendExact(before.rows, before.log, actions[n].events, engine);
      }
    }
  }

  /** In particular when each run's evidence is uploaded in order. */
  lemma {:induction false} ExplicitInOrderHistory(actions: seq<Action>, engine: string)
    requires WellFormed(actions) && AllExplicit(TouchLog(Live(actions).log, engine)) && RunsInOrder(actions, engine)
    ensures TableMatchesAt(Live(actions).rows, Live(actions).log, engine)
  {
    forall k, id | 0 <= k < |actions| && actions[k].Upload? &&
                   !Backfills(Live(actions[..k]).log, actions[k].events)
      ensures OrderSettles(Live(actions[..k]).log, actions[k].events, engine, id)
    {
      InOrderSettles(Live(actions[..k]).log, actions[k].events, engine, id);
    }
    ExplicitHistory(actions, engine);
  }
}
