/** A group's projection rows and the two ways they are written: a full rebuild from the whole
    stored log, and the incremental path that projects only an upload's own events
    (forensics/projections.py). */
module Projection {
  import opened Orders
  import opened Convergence

  datatype Table = NetworkObservations | StateDeltas | EpochTransitions

  /** A row created once for one event: NetworkObservation, StateDelta or EpochStateTransition. */
  datatype EventRow = EventRow(table: Table, event: Event)

  datatype Observation = Observation(first: Option<nat>, last: Option<nat>, evidence: set<nat>)

  /** A DeliveryArtifact with the DeliveryObservation rows of each engine. */
  datatype Artifact = Artifact(
    first: Option<nat>,
    last: Option<nat>,
    modes: seq<string>,
    evidence: set<nat>,
    observations: map<string, Observation>)

  datatype GroupRows = GroupRows(
    runs: map<string, seq<Run>>,
    eventRows: seq<EventRow>,
    artifacts: map<string, Artifact>)

  const NO_ROWS := GroupRows(map[], [], map[])

  /** Persisted rows plus the open inferred run (an index into the engine's rows) of each engine. */
  datatype GroupState = GroupState(rows: GroupRows, active: map<string, nat>) {
    ghost predicate Valid() {
      forall en :: en in active ==> active[en] < |RunsAt(rows, en)|
    }
  }

  function RunsAt(rows: GroupRows, engine: string): seq<Run> {
    if engine in rows.runs then rows.runs[engine] else []
  }

  function RecorderAt(gs: GroupState, engine: string): Recorder {
    Recorder(RunsAt(gs.rows, engine), if engine in gs.active then Some(gs.active[engine]) else None)
  }

  // ------------------------------------------------------------ delivery rows

  function UpdateObservation(row: Option<Observation>, e: Event): Observation {
    var base := if row.Some? then row.value else Observation(e.wall, e.wall, {});
    Observation(Earlier(base.first, e.wall), Later(base.last, e.wall), base.evidence + {e.id})
  }

  /** `append_json_value`: append when new and non-empty, then sort. */
  function AppendMode(modes: seq<string>, mode: string): seq<string> {
    if mode == "" || mode in modes then modes else SortBy(modes + [mode], StringLeq)
  }

  /** `artifact_for_message` and `project_delivery_observation` for one message of one event. */
  function UpdateArtifact(row: Option<Artifact>, e: Event): Artifact {
    var base := if row.Some? then row.value
                else Artifact(e.wall, e.wall, if e.mode != "" then [e.mode] else [], {}, map[]);
    Artifact(
      Earlier(base.first, e.wall),
      Later(base.last, e.wall),
      AppendMode(base.modes, e.mode),
      base.evidence + {e.id},
      if e.engine == "" then base.observations
      else base.observations[e.engine :=
        UpdateObservation(if e.engine in base.observations then Some(base.observations[e.engine]) else None, e)])
  }

  function Get<K, V>(m: map<K, V>, k: K): Option<V> {
    if k in m then Some(m[k]) else None
  }

  function ProjectMessages(artifacts: map<string, Artifact>, e: Event, messages: seq<string>): map<string, Artifact> {
    if messages == [] then artifacts
    else
      var n := |messages| - 1;
      var before := ProjectMessages(artifacts, e, messages[..n]);
      before[messages[n] := UpdateArtifact(Get(before, messages[n]), e)]
  }

  // ---------------------------------------------------------- one event's rows

  function RowsFor(e: Event): seq<EventRow> {
    match e.etype
    case NetworkEvent(_) => [EventRow(NetworkObservations, e)]
    case GroupStateChanged => [EventRow(StateDeltas, e)]
    case EpochStateChanged => [EventRow(EpochTransitions, e)]
    case _ => []
  }

  /** `project_event`, onto the rows of the event's group. */
  function ProjectEvent(gs: GroupState, e: Event): (gs': GroupState)
    requires gs.Valid()
    ensures gs'.Valid()
  {
    var r := Step(RecorderAt(gs, e.engine), e);
    GroupState(
      GroupRows(gs.rows.runs[e.engine := r.runs],
                gs.rows.eventRows + RowsFor(e),
                ProjectMessages(gs.rows.artifacts, e, e.messages)),
      if r.active.Some? then gs.active[e.engine := r.active.value] else gs.active - {e.engine})
  }

  function ProjectAll(gs: GroupState, es: seq<Event>): (gs': GroupState)
    requires gs.Valid()
    ensures gs'.Valid()
  {
    if es == [] then gs else ProjectEvent(ProjectAll(gs, es[..|es| - 1]), es[|es| - 1])
  }

  // --------------------------------------------------------- the two write paths

  /** `rebuild_locked_group_projections`: clear, then project the whole log in order. */
  function Rebuild(events: seq<Event>): GroupRows {
    ProjectAll(GroupState(NO_ROWS, map[]), SortBy(events, EventLeq)).rows
  }

  /** `groups_with_out_of_order_convergence_backfill`, for one group. */
  ghost predicate Backfills(stored: seq<Event>, upload: seq<Event>) {
    exists s, u :: s in stored && u in upload && s.engine == u.engine &&
                   MayNeedState(s) && MayNeedState(u) && KeyLess(u, s)
  }

  predicate NeedsState(upload: seq<Event>, engine: string) {
    engine != "" && exists e :: e in upload && e.engine == engine && MayNeedState(e)
  }

  /** `active_inferred_runs_for_events`, for one group. */
  function Reopen(rows: GroupRows, upload: seq<Event>): map<string, nat> {
    map en | en in rows.runs && NeedsState(upload, en) && Reconstruct(rows.runs[en]).Some?
      :: Reconstruct(rows.runs[en]).value
  }

  function AppendRows(rows: GroupRows, upload: seq<Event>): GroupRows {
    var gs := GroupState(rows, Reopen(rows, upload));
    ReopenValid(rows, upload);
    ProjectAll(gs, SortBy(upload, EventLeq)).rows
  }

  lemma {:induction false} ReopenValid(rows: GroupRows, upload: seq<Event>)
    ensures GroupState(rows, Reopen(rows, upload)).Valid()
  {
  }

  /** `project_file_events`, for one group: `stored` is what the log held before this upload. */
  ghost function UploadRows(rows: GroupRows, stored: seq<Event>, upload: seq<Event>): GroupRows {
    if Backfills(stored, upload) then Rebuild(stored + upload) else AppendRows(rows, upload)
  }

  // ------------------------------------------------------ recorder independence

  function OfEngine(engine: string): Event -> bool { (e: Event) => e.engine == engine }

  lemma {:induction false} ProjectEventRecorder(gs: GroupState, e: Event, engine: string)
    requires gs.Valid()
    ensures RecorderAt(ProjectEvent(gs, e), engine) ==
            if e.engine == engine then Step(RecorderAt(gs, engine), e) else RecorderAt(gs, engine)
  {
  }

  lemma {:induction false} FoldSnoc(r: Recorder, es: seq<Event>, e: Event)
    requires r.Valid()
    ensures Fold(r, es + [e]) == Step(Fold(r, es), e)
  {
    assert (es + [e])[..|es|] == es;
  }

  lemma {:induction false} FilterSnoc(es: seq<Event>, n: nat, p: Event -> bool)
    requires n < |es|
    ensures Filter(es[..n + 1], p) == if p(es[n]) then Filter(es[..n], p) + [es[n]] else Filter(es[..n], p)
  {
    assert es[..n + 1][..n] == es[..n];
    assert Filter(es[..n], p) + [] == Filter(es[..n], p);
  }

  /** A recorder's rows depend only on its own events, however they interleave with others'. */
  lemma {:induction false} ProjectAllRecorder(gs: GroupState, es: seq<Event>, engine: string)
    requires gs.Valid()
    ensures RecorderAt(ProjectAll(gs, es), engine) == Fold(RecorderAt(gs, engine), Filter(es, OfEngine(engine)))
  {
    if es != [] {
      var n := |es| - 1;
      ProjectAllRecorder(gs, es[..n], engine);
      ProjectEventRecorder(ProjectAll(gs, es[..n]), es[n], engine);
      FilterSnoc(es, n, OfEngine(engine));
      assert es[..n + 1] == es;
      if es[n].engine == engine {
        FoldSnoc(RecorderAt(gs, engine), Filter(es[..n], OfEngine(engine)), es[n]);
      }
    }
  }

  /** The events of a recorder that can touch its runs, in order. */
  function TouchLog(es: seq<Event>, engine: string): seq<Event> {
    SortBy(Filter(es, (e: Event) => e.engine == engine && Touches(e)), EventLeq)
  }

  lemma {:induction false} FoldTouchLog(r: Recorder, es: seq<Event>, engine: string)
    requires r.Valid()
    ensures Fold(r, Filter(SortBy(es, EventLeq), OfEngine(engine))) == Fold(r, TouchLog(es, engine))
  {
    EventOrder();
    var mine := (e: Event) => e.engine == engine && Touches(e);
    FoldIgnoresInert(r, Filter(SortBy(es, EventLeq), OfEngine(engine)));
    FilterFilter(SortBy(es, EventLeq), OfEngine(engine), Touches, mine);
    FilterSort(es, EventLeq, mine);
  }

  lemma {:induction false} RebuildRuns(events: seq<Event>, engine: string)
    ensures RunsAt(Rebuild(events), engine) == Replay(TouchLog(events, engine)).runs
  {
    var gs := GroupState(NO_ROWS, map[]);
    ProjectAllRecorder(gs, SortBy(events, EventLeq), engine);
    FoldTouchLog(NO_RUNS, events, engine);
  }

  lemma {:induction false} TouchLogMembers(es: seq<Event>, engine: string)
    ensures forall e :: e in TouchLog(es, engine) <==> e in es && e.engine == engine && Touches(e)
  {
    var mine := (e: Event) => e.engine == engine && Touches(e);
    FilterMembers(es, mine);
    SortContents(Filter(es, mine), EventLeq);
  }

  lemma {:induction false} AppendRuns(rows: GroupRows, upload: seq<Event>, engine: string)
    ensures RunsAt(AppendRows(rows, upload), engine) ==
            Append(RunsAt(rows, engine), TouchLog(upload, engine)).runs
  {
    var gs := GroupState(rows, Reopen(rows, upload));
    ReopenValid(rows, upload);
    ProjectAllRecorder(gs, SortBy(upload, EventLeq), engine);
    FoldTouchLog(RecorderAt(gs, engine), upload, engine);
    SameNeeds(upload, engine);
    ReopenedRecorder(rows, upload, engine);
  }

  lemma {:induction false} SameNeeds(upload: seq<Event>, engine: string)
    ensures NeedsState(upload, engine) <==>
            exists e :: e in TouchLog(upload, engine) && MayNeedState(e) && e.engine != ""
  {
    TouchLogMembers(upload, engine);
    if NeedsState(upload, engine) {
      var e :| e in upload && e.engine == engine && MayNeedState(e);
      assert e in TouchLog(upload, engine);
    }
  }

  lemma {:induction false} ReopenedRecorder(rows: GroupRows, upload: seq<Event>, engine: string)
    ensures RecorderAt(GroupState(rows, Reopen(rows, upload)), engine) ==
            Recorder(RunsAt(rows, engine),
                     if NeedsState(upload, engine) then Reconstruct(RunsAt(rows, engine)) else None)
  {
  }

  // -------------------------------------------------------- when appending is exact

  /** Every stored event was given its row id before every uploaded one. */
  ghost predicate IdsAppend(stored: seq<Event>, upload: seq<Event>) {
    forall s, u :: s in stored && u in upload ==> s.id < u.id
  }

  /** Nothing in the upload that touches the recorder's runs sorts before anything stored that does. */
  ghost predicate AppendsInOrder(stored: seq<Event>, upload: seq<Event>, engine: string) {
    forall s, u :: s in stored && u in upload && s.engine == engine == u.engine && Touches(s) && Touches(u) ==>
      !KeyLess(u, s)
  }

  /** The failing family: the recorder's rows do not reconstruct to its live state and the upload
      consults it. */
  predicate MissesLiveState(stored: seq<Event>, upload: seq<Event>, engine: string) {
    LosesLive(TouchLog(stored, engine)) && ConsultsFirst(TouchLog(upload, engine))
  }

  lemma {:induction false} LaterKeyLaterRow(s: Event, u: Event)
    requires s.engine == u.engine && s.id < u.id && !KeyLess(u, s)
    ensures EventLeq(s, u)
  {
  }

  lemma {:induction false} TouchLogAppend(stored: seq<Event>, upload: seq<Event>, engine: string)
    requires IdsAppend(stored, upload) && AppendsInOrder(stored, upload, engine)
    ensures TouchLog(stored + upload, engine) == TouchLog(stored, engine) + TouchLog(upload, engine)
    ensures Chronological(TouchLog(stored + upload, engine))
  {
    EventOrder();
    var mine := (e: Event) => e.engine == engine && Touches(e);
    FilterConcat(stored, upload, mine);
    FilterMembers(stored, mine);
    FilterMembers(upload, mine);
    forall s, u | s in Filter(stored, mine) && u in Filter(upload, mine) ensures EventLeq(s, u) {
      LaterKeyLaterRow(s, u);
    }
    SortAppend(Filter(stored, mine), Filter(upload, mine), EventLeq);
    SortIsSorted(Filter(stored + upload, mine), EventLeq);
  }

  /** The recorder's runs, in row-id order, are those of one full rebuild of the log. */
  ghost predicate RunsMatchAt(rows: GroupRows, events: seq<Event>, engine: string) {
    RunsAt(rows, engine) == RunsAt(Rebuild(events), engine)
  }

  ghost predicate RunsMatch(rows: GroupRows, events: seq<Event>) {
    forall en :: RunsMatchAt(rows, events, en)
  }

  /** For one recorder, an append in order reproduces the full rebuild exactly when it does not
      consult a live state that the stored rows no longer show. */
  lemma {:induction false} AppendMatchesRebuild(rows: GroupRows, stored: seq<Event>, upload: seq<Event>, engine: string)
    requires RunsMatchAt(rows, stored, engine)
    requires IdsAppend(stored, upload) && AppendsInOrder(stored, upload, engine)
    ensures RunsMatchAt(AppendRows(rows, upload), stored + upload, engine) <==>
            !MissesLiveState(stored, upload, engine)
  {
    AppendRuns(rows, upload, engine);
    RebuildRuns(stored, engine);
    RebuildRuns(stored + upload, engine);
    TouchLogAppend(stored, upload, engine);
    AppendExact(TouchLog(stored, engine), TouchLog(upload, engine));
  }

  /** What the guard establishes for evidence without explicit run ids. */
  lemma {:induction false} GuardEnsuresOrder(stored: seq<Event>, upload: seq<Event>, engine: string)
    requires NoExplicit(stored + upload) && NoOverrides(stored) && !Backfills(stored, upload)
    ensures AppendsInOrder(stored, upload, engine)
    ensures !MissesLiveState(stored, upload, engine)
  {
    forall s, u | s in stored && u in upload && s.engine == engine == u.engine && Touches(s) && Touches(u)
      ensures !KeyLess(u, s)
    {
      assert s in stored + upload && u in stored + upload;
      assert MayNeedState(s) && MayNeedState(u);
    }
    TouchLogMembers(stored, engine);
    forall e | e in TouchLog(stored, engine) ensures !IsExplicit(e) { assert e in stored + upload; }
    NoExplicitNeverStale(TouchLog(stored, engine));
    EventOrder();
    SortIsSorted(Filter(stored, (e: Event) => e.engine == engine && Touches(e)), EventLeq);
    LosesLiveInOneWay(TouchLog(stored, engine));
  }
}
