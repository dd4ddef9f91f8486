/** Whole histories of a group's projection: after any sequence of uploads and rebuilds the rows
    are those of one full rebuild, stated against declarative definitions of each table. */
module ProjectionHistory {
  import opened Orders
  import opened Convergence
  import opened Projection

  // ------------------------------------------------- one row per qualifying event

  /** Each stored event that qualifies has exactly one row in its table, and no row has any other origin. */
  ghost predicate OneRowEach(eventRows: seq<EventRow>, events: seq<Event>) {
    forall row :: multiset(eventRows)[row] == RowsDue(row, events)
  }

  /** How many copies of a row the log calls for: one for each time its event occurs, if it qualifies. */
  ghost function RowsDue(row: EventRow, events: seq<Event>): nat {
    if Qualifies(row.table, row.event) then multiset(events)[row.event] else 0
  }

  /** Which events each table is about. */
  predicate Qualifies(table: Table, e: Event) {
    match table
    case NetworkObservations => e.etype.NetworkEvent?
    case StateDeltas => e.etype.GroupStateChanged?
    case EpochTransitions => e.etype.EpochStateChanged?
  }

  lemma {:induction false} RowsForCount(e: Event, row: EventRow)
    ensures multiset(RowsFor(e))[row] == if row.event == e && Qualifies(row.table, e) then 1 else 0
  {
  }

  lemma {:induction false} OneRowMore(eventRows: seq<EventRow>, events: seq<Event>, e: Event)
    requires OneRowEach(eventRows, events)
    ensures OneRowEach(eventRows + RowsFor(e), events + [e])
  {
    forall row ensures multiset(eventRows + RowsFor(e))[row] == RowsDue(row, events + [e]) {
      assert multiset(eventRows)[row] == RowsDue(row, events);
      RowsForCount(e, row);
    }
  }

  lemma {:induction false} ProjectAllOneRowEach(gs: GroupState, events: seq<Event>, es: seq<Event>)
    requires gs.Valid() && OneRowEach(gs.rows.eventRows, events)
    ensures OneRowEach(ProjectAll(gs, es).rows.eventRows, events + es)
  {
    if es == [] {
      assert events + es == events;
    } else {
      var n := |es| - 1;
      ProjectAllOneRowEach(gs, events, es[..n]);
      OneRowMore(ProjectAll(gs, es[..n]).rows.eventRows, events + es[..n], es[n]);
      assert events + es == events + es[..n] + [es[n]];
    }
  }

  // ------------------------------------------------------------- delivery artifacts

  ghost function Seen(es: seq<Event>, message: string): set<Event> {
    set e | e in es && message in e.messages
  }

  ghost predicate IsEarliest(first: Option<nat>, seen: set<Event>) {
    if first.None? then forall e :: e in seen ==> e.wall.None?
    else (exists e :: e in seen && e.wall == first) &&
         forall e :: e in seen && e.wall.Some? ==> first.value <= e.wall.value
  }

  ghost predicate IsLatest(last: Option<nat>, seen: set<Event>) {
    if last.None? then forall e :: e in seen ==> e.wall.None?
    else (exists e :: e in seen && e.wall == last) &&
         forall e :: e in seen && e.wall.Some? ==> e.wall.value <= last.value
  }

  ghost function Ids(seen: set<Event>): set<nat> { set e | e in seen :: e.id }

  ghost function ByEngine(seen: set<Event>, engine: string): set<Event> { set e | e in seen && e.engine == engine }

  ghost predicate ObservationMatches(o: Observation, seen: set<Event>) {
    IsEarliest(o.first, seen) && IsLatest(o.last, seen) && o.evidence == Ids(seen)
  }

  ghost predicate StrictlySorted(s: seq<string>) {
    forall i, j :: 0 <= i < j < |s| ==> StringLeq(s[i], s[j]) && s[i] != s[j]
  }

  ghost predicate ModesMatch(modes: seq<string>, seen: set<Event>) {
    && StrictlySorted(modes)
    && (forall x :: x in modes <==> x != "" && exists e :: e in seen && e.mode == x)
  }

  ghost predicate ObservationsMatch(os: map<string, Observation>, seen: set<Event>) {
    && (forall en :: en in os <==> en != "" && ByEngine(seen, en) != {})
    && (forall en :: en in os ==> ObservationMatches(os[en], ByEngine(seen, en)))
  }

  /** First and last sighting, evidence, modes and per-engine observations as min, max and set
      over all events naming the message. */
  ghost predicate ArtifactMatches(a: Artifact, seen: set<Event>) {
    && IsEarliest(a.first, seen)
    && IsLatest(a.last, seen)
    && a.evidence == Ids(seen)
    && ModesMatch(a.modes, seen)
    && ObservationsMatch(a.observations, seen)
  }

  ghost predicate ArtifactAt(artifacts: map<string, Artifact>, message: string, seen: set<Event>) {
    if message in artifacts then seen != {} && ArtifactMatches(artifacts[message], seen) else seen == {}
  }

  ghost predicate ArtifactsMatch(artifacts: map<string, Artifact>, es: seq<Event>) {
    forall m :: ArtifactAt(artifacts, m, Seen(es, m))
  }

  lemma {:induction false} ExtremesStep(first: Option<nat>, last: Option<nat>, seen: set<Event>, e: Event)
    requires IsEarliest(first, seen) && IsLatest(last, seen)
    ensures IsEarliest(Earlier(first, e.wall), seen + {e}) && IsLatest(Later(last, e.wall), seen + {e})
  {
    assert e in seen + {e};
    if first.Some? {
      var x :| x in seen && x.wall == first;
      assert x in seen + {e};
    }
    if last.Some? {
      var x :| x in seen && x.wall == last;
      assert x in seen + {e};
    }
  }

  lemma {:induction false} ModesStep(modes: seq<string>, seen: set<Event>, e: Event)
    requires ModesMatch(modes, seen)
    ensures ModesMatch(AppendMode(modes, e.mode), seen + {e})
  {
    var modes' := AppendMode(modes, e.mode);
    if e.mode != "" && e.mode !in modes {
      StringOrder();
      SortContents(modes + [e.mode], StringLeq);
      SortIsSorted(modes + [e.mode], StringLeq);
      DistinctPermutation(modes + [e.mode], modes');
    }
    forall x ensures x in modes' <==> x != "" && exists f :: f in seen + {e} && f.mode == x {
      assert e in seen + {e};
      assert x in modes' <==> x in modes || (x == e.mode && x != "");
      if x in modes {
        var f :| f in seen && f.mode == x;
        assert f in seen + {e};
      }
      if f :| x != "" && f in seen + {e} && f.mode == x {
        assert f == e || f in seen;
      }
    }
  }

  lemma {:induction false} ObservationsStep(os: map<string, Observation>, seen: set<Event>, e: Event)
    requires ObservationsMatch(os, seen) && e.engine != ""
    ensures ObservationsMatch(os[e.engine := UpdateObservation(Get(os, e.engine), e)], seen + {e})
  {
    var os' := os[e.engine := UpdateObservation(Get(os, e.engine), e)];
    var mine := ByEngine(seen, e.engine);
    OneObservationStep(Get(os, e.engine), mine, e);
    forall en ensures ByEngine(seen + {e}, en) == if en == e.engine then mine + {e} else ByEngine(seen, en) {
      ByEngineStep(seen, e, en);
    }
    assert e in mine + {e};
  }

  lemma {:induction false} ByEngineStep(seen: set<Event>, e: Event, engine: string)
    ensures ByEngine(seen + {e}, engine) ==
            if engine == e.engine then ByEngine(seen, engine) + {e} else ByEngine(seen, engine)
  {
  }

  lemma {:induction false} OneObservationStep(o: Option<Observation>, mine: set<Event>, e: Event)
    requires if o.Some? then ObservationMatches(o.value, mine) else mine == {}
    ensures ObservationMatches(UpdateObservation(o, e), mine + {e})
  {
    if o.Some? {
      ExtremesStep(o.value.first, o.value.last, mine, e);
    } else {
      assert e in mine + {e};
    }
    assert Ids(mine + {e}) == Ids(mine) + {e.id};
  }

  lemma {:induction false} ArtifactStep(a: Artifact, seen: set<Event>, e: Event)
    requires ArtifactMatches(a, seen)
    ensures ArtifactMatches(UpdateArtifact(Some(a), e), seen + {e})
  {
    ExtremesStep(a.first, a.last, seen, e);
    ModesStep(a.modes, seen, e);
    assert Ids(seen + {e}) == Ids(seen) + {e.id};
    if e.engine != "" {
      ObservationsStep(a.observations, seen, e);
    } else {
      forall en | en != "" ensures ByEngine(seen + {e}, en) == ByEngine(seen, en) {}
    }
  }

  lemma {:induction false} FirstArtifact(e: Event)
    ensures ArtifactMatches(UpdateArtifact(None, e), {e})
  {
    var blank := Artifact(None, None, [], {}, map[]);
    assert ArtifactMatches(blank, {});
    ArtifactStep(blank, {}, e);
    assert {} + {e} == {e};
    assert SortBy([] + [e.mode], StringLeq) == [e.mode] by {
      assert ([] + [e.mode])[..0] == [];
      assert SortBy([e.mode], StringLeq) == Insert(e.mode, SortBy([e.mode][..0], StringLeq), StringLeq);
    }
  }

  lemma {:induction false} OneArtifactStep(artifacts: map<string, Artifact>, m: string, seen: set<Event>, e: Event)
    requires ArtifactAt(artifacts, m, seen)
    ensures ArtifactAt(artifacts[m := UpdateArtifact(Get(artifacts, m), e)], m, seen + {e})
  {
    if m in artifacts {
      ArtifactStep(artifacts[m], seen, e);
    } else {
      FirstArtifact(e);
      assert {} + {e} == {e};
    }
  }

  /** The events seen for a message once `e` has been projected for `messages`. */
  ghost function SeenWith(es: seq<Event>, e: Event, m: string, messages: seq<string>): set<Event> {
    if m in messages then Seen(es, m) + {e} else Seen(es, m)
  }

  lemma {:induction false} MessagesStep(artifacts: map<string, Artifact>, es: seq<Event>, e: Event,
                                        messages: seq<string>, m: string)
    requires ArtifactAt(artifacts, m, Seen(es, m))
    ensures ArtifactAt(ProjectMessages(artifacts, e, messages), m, SeenWith(es, e, m, messages))
  {
    if messages != [] {
      var n := |messages| - 1;
      assert messages == messages[..n] + [messages[n]];
      MessagesStep(artifacts, es, e, messages[..n], m);
      var before := ProjectMessages(artifacts, e, messages[..n]);
      if messages[n] == m {
        OneArtifactStep(before, m, SeenWith(es, e, m, messages[..n]), e);
        assert SeenWith(es, e, m, messages[..n]) + {e} == SeenWith(es, e, m, messages);
      }
    }
  }

  lemma {:induction false} SeenSnoc(es: seq<Event>, e: Event, m: string)
    ensures Seen(es + [e], m) == SeenWith(es, e, m, e.messages)
  {
  }

  lemma {:induction false} ProjectAllArtifact(gs: GroupState, events: seq<Event>, es: seq<Event>, m: string)
    requires gs.Valid() && ArtifactAt(gs.rows.artifacts, m, Seen(events, m))
    ensures ArtifactAt(ProjectAll(gs, es).rows.artifacts, m, Seen(events + es, m))
  {
    if es == [] {
      assert events + es == events;
    } else {
      var n := |es| - 1;
      var e := es[n];
      ProjectAllArtifact(gs, events, es[..n], m);
      MessagesStep(ProjectAll(gs, es[..n]).rows.artifacts, events + es[..n], e, e.messages, m);
      assert events + es == events + es[..n] + [e];
      SeenSnoc(events + es[..n], e, m);
    }
  }

  lemma {:induction false} ProjectAllArtifacts(gs: GroupState, events: seq<Event>, es: seq<Event>)
    requires gs.Valid() && ArtifactsMatch(gs.rows.artifacts, events)
    ensures ArtifactsMatch(ProjectAll(gs, es).rows.artifacts, events + es)
  {
    forall m ensures ArtifactAt(ProjectAll(gs, es).rows.artifacts, m, Seen(events + es, m)) {
      assert ArtifactAt(gs.rows.artifacts, m, Seen(events, m));
      ProjectAllArtifact(gs, events, es, m);
    }
  }

  lemma {:induction false} SeenIgnoresOrder(a: seq<Event>, b: seq<Event>)
    requires forall e :: e in a <==> e in b
    ensures forall m :: Seen(a, m) == Seen(b, m)
  {
  }

  /** The declarative description leaves no freedom: it fixes every modelled column. */
  lemma {:induction false} ArtifactUnique(a: Artifact, b: Artifact, seen: set<Event>)
    requires ArtifactMatches(a, seen) && ArtifactMatches(b, seen)
    ensures a == b
  {
    ExtremesUnique(a.first, a.last, b.first, b.last, seen);
    SortedUnique(a.modes, b.modes);
    assert a.observations.Keys == b.observations.Keys;
    forall en | en in a.observations ensures a.observations[en] == b.observations[en] {
      var o, p := a.observations[en], b.observations[en];
      ExtremesUnique(o.first, o.last, p.first, p.last, ByEngine(seen, en));
    }
  }

  lemma {:induction false} ExtremesUnique(f: Option<nat>, l: Option<nat>, f': Option<nat>, l': Option<nat>,
                                          seen: set<Event>)
    requires IsEarliest(f, seen) && IsLatest(l, seen) && IsEarliest(f', seen) && IsLatest(l', seen)
    ensures f == f' && l == l'
  {
  }

  lemma {:induction false} SortedUnique(a: seq<string>, b: seq<string>)
    requires StrictlySorted(a) && StrictlySorted(b) && forall x :: x in a <==> x in b
    ensures a == b
  {
    assert b == [] || b[0] in b;
    if a != [] {
      assert a[0] in a;
      StringOrder();
      assert a[0] == b[0];
      assert a == [a[0]] + a[1..] && b == [b[0]] + b[1..];
      forall x ensures x in a[1..] <==> x in b[1..] {
        if x in a[1..] { assert x in b && x != a[0]; }
        if x in b[1..] { assert x in a && x != b[0]; }
      }
      SortedUnique(a[1..], b[1..]);
    }
  }

  // ---------------------------------------------------------------- whole histories

  /** The rows a group should hold for this log. */
  ghost predicate Faithful(rows: GroupRows, events: seq<Event>) {
    RunsMatch(rows, events) && OneRowEach(rows.eventRows, events) && ArtifactsMatch(rows.artifacts, events)
  }

  lemma {:induction false} RebuildFaithful(events: seq<Event>)
    ensures Faithful(Rebuild(events), events)
  {
    var gs := GroupState(NO_ROWS, map[]);
    var log := SortBy(events, EventLeq);
    SortContents(events, EventLeq);
    ProjectAllOneRowEach(gs, [], log);
    ProjectAllArtifacts(gs, [], log);
    assert [] + log == log;
    SeenIgnoresOrder(log, events);
  }

  lemma {:induction false} AppendTablesFaithful(rows: GroupRows, stored: seq<Event>, upload: seq<Event>)
    requires OneRowEach(rows.eventRows, stored) && ArtifactsMatch(rows.artifacts, stored)
    ensures OneRowEach(AppendRows(rows, upload).eventRows, stored + upload)
    ensures ArtifactsMatch(AppendRows(rows, upload).artifacts, stored + upload)
  {
    var gs := GroupState(rows, Reopen(rows, upload));
    ReopenValid(rows, upload);
    var log := SortBy(upload, EventLeq);
    SortContents(upload, EventLeq);
    ProjectAllOneRowEach(gs, stored, log);
    ProjectAllArtifacts(gs, stored, log);
    assert multiset(stored + log) == multiset(stored + upload);
    SeenIgnoresOrder(stored + log, stored + upload);
  }

  /** An upload that either trips the guard, or appends in order for every recorder without
      consulting a live state that the stored rows no longer show. */
  ghost predicate SafeUpload(stored: seq<Event>, upload: seq<Event>) {
    Backfills(stored, upload) ||
    forall en :: AppendsInOrder(stored, upload, en) && !MissesLiveState(stored, upload, en)
  }

  lemma {:induction false} AppendRunsMatch(rows: GroupRows, stored: seq<Event>, upload: seq<Event>)
    requires RunsMatch(rows, stored) && IdsAppend(stored, upload)
    requires forall en :: AppendsInOrder(stored, upload, en)
    ensures RunsMatch(AppendRows(rows, upload), stored + upload) <==>
            forall en :: !MissesLiveState(stored, upload, en)
  {
    forall en
      ensures RunsMatchAt(AppendRows(rows, upload), stored + upload, en) <==> !MissesLiveState(stored, upload, en)
    {
      AppendMatchesRebuild(rows, stored, upload, en);
    }
  }

  /** ONE UPLOAD. Under in-order evidence the whole group stays faithful exactly when no recorder
      of the upload consults a live state that the stored rows no longer show. */
  lemma {:induction false} UploadFaithful(rows: GroupRows, stored: seq<Event>, upload: seq<Event>)
    requires Faithful(rows, stored) && IdsAppend(stored, upload)
    requires Backfills(stored, upload) || forall en :: AppendsInOrder(stored, upload, en)
    ensures Faithful(UploadRows(rows, stored, upload), stored + upload) <==> SafeUpload(stored, upload)
  {
    if Backfills(stored, upload) {
      RebuildFaithful(stored + upload);
    } else {
      AppendTablesFaithful(rows, stored, upload);
      AppendRunsMatch(rows, stored, upload);
    }
  }

  /** The recorder's own log, stored then uploaded, appends to what one replay of it gives. */
  predicate AppendsExactly(stored: seq<Event>, upload: seq<Event>, engine: string) {
    Append(Replay(TouchLog(stored, engine)).runs, TouchLog(upload, engine)).runs ==
    Replay(TouchLog(stored + upload, engine)).runs
  }

  /** ANY UPLOAD, in any order: the whole group stays faithful exactly when the guard fires or every recorder's own
      log appends exactly. All other tables stay exact whatever the order. */
  lemma {:induction false} UploadReduces(rows: GroupRows, stored: seq<Event>, upload: seq<Event>)
    requires Faithful(rows, stored)
    ensures Faithful(UploadRows(rows, stored, upload), stored + upload) <==>
            Backfills(stored, upload) || forall en :: AppendsExactly(stored, upload, en)
  {
    if Backfills(stored, upload) {
      RebuildFaithful(stored + upload);
    } else {
      AppendTablesFaithful(rows, stored, upload);
      forall en
        ensures RunsMatchAt(AppendRows(rows, upload), stored + upload, en) <==> AppendsExactly(stored, upload, en)
      {
        assert RunsMatchAt(rows, stored, en);
        AppendRuns(rows, upload, en);
        RebuildRuns(stored, en);
        RebuildRuns(stored + upload, en);
      }
    }
  }

  /** A group's life: uploads, and the management command's explicit full rebuild. */
  datatype Action = Upload(events: seq<Event>) | RebuildGroup

  datatype Life = Life(log: seq<Event>, rows: GroupRows)

  ghost function Live(actions: seq<Action>): Life {
    if actions == [] then Life([], NO_ROWS)
    else
      var n := |actions| - 1;
      var before := Live(actions[..n]);
      match actions[n]
      case Upload(events) => Life(before.log + events, UploadRows(before.rows, before.log, events))
      case RebuildGroup => Life(before.log, Rebuild(before.log))
  }

  /** Row ids ascend over uploads. */
  ghost predicate WellFormed(actions: seq<Action>) {
    forall k :: 0 <= k < |actions| && actions[k].Upload? ==>
      IdsAppend(Live(actions[..k]).log, actions[k].events)
  }

  ghost predicate AllSafe(actions: seq<Action>) {
    forall k :: 0 <= k < |actions| && actions[k].Upload? ==> SafeUpload(Live(actions[..k]).log, actions[k].events)
  }

  /** No uploaded convergence context names a run or overrides the inferred flag. */
  ghost predicate FreeOfRunIds(actions: seq<Action>) {
    forall k :: 0 <= k < |actions| && actions[k].Upload? ==>
      NoExplicit(actions[k].events) && NoOverrides(actions[k].events)
  }

  lemma {:induction false} PrefixSlices(actions: seq<Action>, n: nat)
    requires n <= |actions|
    ensures forall k :: 0 <= k < n ==> actions[..n][..k] == actions[..k] && actions[..n][k] == actions[k]
  {
  }

  /** EVERY HISTORY. After any sequence of uploads and rebuilds whose uploads are safe, the runs of
      every recorder equal one full rebuild of the whole log, every qualifying event has exactly
      one row, and every artifact is the min, max and set over its events. */
  lemma {:induction false} HistoryFaithful(actions: seq<Action>)
    requires WellFormed(actions) && AllSafe(actions)
    ensures Faithful(Live(actions).rows, Live(actions).log)
  {
    if actions == [] {
      RebuildFaithful([]);
      assert SortBy([], EventLeq) == [];
      assert Rebuild([]) == NO_ROWS;
    } else {
      var n := |actions| - 1;
      PrefixSlices(actions, n);
      HistoryFaithful(actions[..n]);
      var before := Live(actions[..n]);
      match actions[n]
      case Upload(events) =>
        UploadFaithful(before.rows, before.log, events);
      case RebuildGroup =>
        RebuildFaithful(before.log);
    }
  }

  /** Wherever the guard stays silent, the upload appends in order for every recorder. */
  ghost predicate Orderly(actions: seq<Action>) {
    forall k :: 0 <= k < |actions| && actions[k].Upload? ==>
      var stored, upload := Live(actions[..k]).log, actions[k].events;
      Backfills(stored, upload) || forall en :: AppendsInOrder(stored, upload, en)
  }

  ghost predicate FaithfulAfter(actions: seq<Action>, k: nat)
    requires k <= |actions|
  {
    Faithful(Live(actions[..k]).rows, Live(actions[..k]).log)
  }

  lemma {:induction false} LiveSnoc(actions: seq<Action>, k: nat)
    requires k < |actions| && actions[k].Upload?
    ensures var before, after := Live(actions[..k]), Live(actions[..k + 1]);
      after == Life(before.log + actions[k].events, UploadRows(before.rows, before.log, actions[k].events))
  {
    assert actions[..k + 1][..k] == actions[..k];
  }

  /** EVERY ORDERLY HISTORY, exactly: the rows are those of a full rebuild after every one of its actions if
      and only if every upload is safe. */
  lemma {:induction false} HistoryExact(actions: seq<Action>)
    requires WellFormed(actions) && Orderly(actions)
    ensures (forall k :: 0 <= k <= |actions| ==> FaithfulAfter(actions, k)) <==> AllSafe(actions)
  {
    if AllSafe(actions) {
      forall k | 0 <= k <= |actions| ensures FaithfulAfter(actions, k) {
        PrefixSlices(actions, k);
        HistoryFaithful(actions[..k]);
      }
    }
    if forall k :: 0 <= k <= |actions| ==> FaithfulAfter(actions, k) {
      forall k | 0 <= k < |actions| && actions[k].Upload?
        ensures SafeUpload(Live(actions[..k]).log, actions[k].events)
      {
        assert FaithfulAfter(actions, k) && FaithfulAfter(actions, k + 1);
        LiveSnoc(actions, k);
        UploadFaithful(Live(actions[..k]).rows, Live(actions[..k]).log, actions[k].events);
      }
    }
  }

  lemma {:induction false} RunIdFreeUpload(stored: seq<Event>, upload: seq<Event>)
    requires NoExplicit(stored) && NoExplicit(upload) && NoOverrides(stored)
    ensures SafeUpload(stored, upload)
  {
    if !Backfills(stored, upload) {
      forall en ensures AppendsInOrder(stored, upload, en) && !MissesLiveState(stored, upload, en) {
        GuardEnsuresOrder(stored, upload, en);
      }
    }
  }

  lemma {:induction false} RunIdFreeIsSafe(actions: seq<Action>)
    requires WellFormed(actions) && FreeOfRunIds(actions)
    ensures AllSafe(actions) && NoExplicit(Live(actions).log) && NoOverrides(Live(actions).log)
  {
    if actions != [] {
      var n := |actions| - 1;
      PrefixSlices(actions, n);
      RunIdFreeIsSafe(actions[..n]);
      if actions[n].Upload? {
        RunIdFreeUpload(Live(actions[..n]).log, actions[n].events);
      }
      AllSafeLast(actions);
    }
  }

  lemma {:induction false} AllSafeLast(actions: seq<Action>)
    requires actions != [] && AllSafe(actions[..|actions| - 1])
    requires var n := |actions| - 1;
      actions[n].Upload? ==> SafeUpload(Live(actions[..n]).log, actions[n].events)
    ensures AllSafe(actions)
  {
    var n := |actions| - 1;
    PrefixSlices(actions, n);
    forall k | 0 <= k < |actions| && actions[k].Upload?
      ensures SafeUpload(Live(actions[..k]).log, actions[k].events)
    {
      if k < n { assert actions[..n][k] == actions[k] && actions[..n][..k] == actions[..k]; }
    }
  }

  /** EVERY HISTORY WITHOUT RUN IDS is safe, so the ordering guard alone keeps it faithful. */
  lemma {:induction false} RunIdFreeHistory(actions: seq<Action>)
    requires WellFormed(actions) && FreeOfRunIds(actions)
    ensures Faithful(Live(actions).rows, Live(actions).log)
  {
    RunIdFreeIsSafe(actions);
    HistoryFaithful(actions);
  }

  /** Two faithful states of one log hold the same artifacts, whatever the upload order was. */
  lemma {:induction false} FaithfulArtifactsEqual(a: GroupRows, b: GroupRows, events: seq<Event>)
    requires Faithful(a, events) && Faithful(b, events)
    ensures a.artifacts == b.artifacts && multiset(a.eventRows) == multiset(b.eventRows)
  {
    forall m ensures m in a.artifacts <==> m in b.artifacts {
      assert ArtifactAt(a.artifacts, m, Seen(events, m)) && ArtifactAt(b.artifacts, m, Seen(events, m));
    }
    assert a.artifacts.Keys == b.artifacts.Keys;
    forall m | m in a.artifacts ensures a.artifacts[m] == b.artifacts[m] {
      ArtifactUnique(a.artifacts[m], b.artifacts[m], Seen(events, m));
    }
    forall row ensures multiset(a.eventRows)[row] == multiset(b.eventRows)[row] {}
  }
}
