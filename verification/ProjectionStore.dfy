/** The projector as it runs: the event log and every group's rows are updated in place, one upload
    at a time, with the guard's dictionaries built in loops (forensics/projections.py). */
module ProjectionStore {
  import opened Orders
  import opened Convergence
  import opened Projection
  import opened ProjectionHistory

  type RecorderKey = (nat, string)

  function OfGroup(g: nat): Event -> bool { (e: Event) => e.group == g }

  function InGroup(es: seq<Event>, g: nat): seq<Event> { Filter(es, OfGroup(g)) }

  function RowsIn(rows: map<nat, GroupRows>, g: nat): GroupRows {
    if g in rows then rows[g] else NO_ROWS
  }

  function StateIn(rows: map<nat, GroupRows>, active: map<nat, map<string, nat>>, g: nat): GroupState {
    GroupState(RowsIn(rows, g), if g in active then active[g] else map[])
  }

  ghost predicate IsEarliestKey(first: map<RecorderKey, Event>, es: seq<Event>) {
    && (forall k :: k in first ==> first[k] in es && MayNeedState(first[k]) && k == (first[k].group, first[k].engine))
    && (forall u :: u in es && MayNeedState(u) ==>
          (u.group, u.engine) in first && !KeyLess(u, first[(u.group, u.engine)]))
  }

  /** The least order key each recorder uploaded. */
  method EarliestUploaded(upload: seq<Event>) returns (first: map<RecorderKey, Event>)
    ensures IsEarliestKey(first, upload)
  {
    first := map[];
    for i := 0 to |upload|
      invariant IsEarliestKey(first, upload[..i])
    {
      var e := upload[i];
      var k := (e.group, e.engine);
      if MayNeedState(e) && (k !in first || KeyLess(e, first[k])) {
        first := first[k := e];
      }
      assert upload[..i + 1] == upload[..i] + [e];
    }
    assert upload[..|upload|] == upload;
  }

  /** Some stored convergence event of the same recorder sorts after an uploaded one. */
  ghost predicate Overtakes(stored: seq<Event>, upload: seq<Event>, g: nat) {
    exists s, u :: s in stored && u in upload && s.group == g == u.group && s.engine == u.engine &&
                   MayNeedState(s) && MayNeedState(u) && KeyLess(u, s)
  }

  method GroupsWithBackfill(stored: seq<Event>, upload: seq<Event>) returns (backfilled: set<nat>)
    ensures forall g :: g in backfilled <==> Backfills(InGroup(stored, g), InGroup(upload, g))
  {
    var first := EarliestUploaded(upload);
    backfilled := {};
    for i := 0 to |stored|
      invariant forall g :: g in backfilled <==> Overtakes(stored[..i], upload, g)
    {
      var e := stored[i];
      var k := (e.group, e.engine);
      var hit := k in first && MayNeedState(e) && KeyLess(first[k], e);
      OvertakesSnoc(stored[..i], upload, e, first);
      if hit {
        backfilled := backfilled + {e.group};
      }
      assert stored[..i + 1] == stored[..i] + [e];
    }
    assert stored[..|stored|] == stored;
    forall g ensures Overtakes(stored, upload, g) <==> Backfills(InGroup(stored, g), InGroup(upload, g)) {
      FilterMembers(stored, OfGroup(g));
      FilterMembers(upload, OfGroup(g));
    }
  }

  lemma {:induction false} OvertakesSnoc(stored: seq<Event>, upload: seq<Event>, e: Event,
                                         first: map<RecorderKey, Event>)
    requires IsEarliestKey(first, upload)
    ensures var k := (e.group, e.engine);
      forall g :: Overtakes(stored + [e], upload, g) <==>
        Overtakes(stored, upload, g) || (g == e.group && k in first && MayNeedState(e) && KeyLess(first[k], e))
  {
    var k := (e.group, e.engine);
    forall g ensures Overtakes(stored + [e], upload, g) <==>
        Overtakes(stored, upload, g) || (g == e.group && k in first && MayNeedState(e) && KeyLess(first[k], e))
    {
      if Overtakes(stored + [e], upload, g) {
        var s, u :| s in stored + [e] && u in upload && s.group == g == u.group && s.engine == u.engine &&
                    MayNeedState(s) && MayNeedState(u) && KeyLess(u, s);
        assert s in stored || s == e;
      }
      if Overtakes(stored, upload, g) {
        var s, u :| s in stored && u in upload && s.group == g == u.group && s.engine == u.engine &&
                    MayNeedState(s) && MayNeedState(u) && KeyLess(u, s);
        assert s in stored + [e];
      }
      if g == e.group && k in first && MayNeedState(e) && KeyLess(first[k], e) {
        assert e in stored + [e];
      }
    }
  }

  class Store {
    var events: seq<Event>
    var rows: map<nat, GroupRows>

    constructor ()
      ensures events == [] && rows == map[]
      ensures forall g :: Faithful(RowsIn(rows, g), InGroup(events, g))
    {
      events := [];
      rows := map[];
      new;
      RebuildFaithful([]);
      assert SortBy([], EventLeq) == [];
    }

    /** `project_file_events`, after the upload's events were inserted. Each group ends with the rows
        its own upload step prescribes, whichever groups share the file. */
    method ProjectFileEvents(upload: seq<Event>, groupIds: seq<nat>)
      requires forall e :: e in upload ==> e.group in groupIds
      modifies this
      ensures events == old(events) + upload
      ensures forall g :: RowsIn(rows, g) ==
                UploadRows(RowsIn(old(rows), g), InGroup(old(events), g), InGroup(upload, g))
    {
      var backfilled := GroupsWithBackfill(events, upload);
      events := events + upload;
      RebuildGroups(groupIds, backfilled);
      ghost var rebuilt := rows;
      var rest := Rest(upload, backfilled);
      var active := map g | g in groupIds :: Reopen(RowsIn(rows, g), InGroup(rest, g));
      forall g ensures StateIn(rows, active, g).Valid() { ReopenValid(RowsIn(rows, g), InGroup(rest, g)); }
      ProjectEach(rest, active);
      forall g
        ensures RowsIn(rows, g) == UploadRows(RowsIn(old(rows), g), InGroup(old(events), g), InGroup(upload, g))
      {
        FilterConcat(old(events), upload, OfGroup(g));
        BackfilledIsTouched(old(events), upload, groupIds, g);
        RestOfGroup(upload, backfilled, g);
        UploadedGroup(RowsIn(rebuilt, g), upload, groupIds, rest, active, g);
      }
    }

    /** The projection loop, with the open runs of every (group, engine) carried along. */
    method ProjectEach(rest: seq<Event>, start: map<nat, map<string, nat>>)
      requires forall g :: StateIn(rows, start, g).Valid()
      modifies this`rows
      ensures forall g :: RowsIn(rows, g) == ProjectAll(StateIn(old(rows), start, g), InGroup(rest, g)).rows
    {
      var active: map<nat, map<string, nat>> := start;
      for i := 0 to |rest|
        invariant forall g :: StateIn(old(rows), start, g).Valid()
        invariant forall g ::
                    StateIn(rows, active, g) == ProjectAll(StateIn(old(rows), start, g), InGroup(rest[..i], g))
      {
        var e := rest[i];
        ghost var rows0, active0 := rows, active;
        var gs := ProjectEvent(StateIn(rows, active, e.group), e);
        rows, active := rows[e.group := gs.rows], active[e.group := gs.active];
        forall g
          ensures StateIn(rows, active, g) == ProjectAll(StateIn(old(rows), start, g), InGroup(rest[..i + 1], g))
        {
          InGroupSnoc(rest, i, g);
          if g == e.group {
            ProjectSnoc(StateIn(old(rows), start, g), InGroup(rest[..i], g), e);
          } else {
            assert StateIn(rows, active, g) == StateIn(rows0, active0, g);
          }
        }
      }
      assert rest[..|rest|] == rest;
    }

    /** Rebuild every locked group the guard named. */
    method RebuildGroups(groupIds: seq<nat>, backfilled: set<nat>)
      modifies this`rows
      ensures forall g :: RowsIn(rows, g) ==
                if g in backfilled && g in groupIds then Rebuild(InGroup(events, g)) else RowsIn(old(rows), g)
    {
      for i := 0 to |groupIds|
        invariant forall g :: RowsIn(rows, g) ==
                    if g in backfilled && g in groupIds[..i] then Rebuild(InGroup(events, g)) else RowsIn(old(rows), g)
      {
        if groupIds[i] in backfilled {
          rows := rows[groupIds[i] := Rebuild(InGroup(events, groupIds[i]))];
        }
        assert groupIds[..i + 1] == groupIds[..i] + [groupIds[i]];
      }
      assert groupIds[..|groupIds|] == groupIds;
    }
  }

  lemma {:induction false} EmptyOrMember(es: seq<Event>)
    ensures es == [] || exists e :: e in es
  {
    if es != [] { assert es[0] in es; }
  }

  lemma {:induction false} InGroupSnoc(rest: seq<Event>, i: nat, g: nat)
    requires i < |rest|
    ensures InGroup(rest[..i + 1], g) ==
            if rest[i].group == g then InGroup(rest[..i], g) + [rest[i]] else InGroup(rest[..i], g)
  {
    assert rest[..i + 1][..i] == rest[..i];
    assert InGroup(rest[..i], g) + [] == InGroup(rest[..i], g);
  }

  lemma {:induction false} ProjectSnoc(gs: GroupState, es: seq<Event>, e: Event)
    requires gs.Valid()
    ensures ProjectAll(gs, es + [e]) == ProjectEvent(ProjectAll(gs, es), e)
  {
    assert (es + [e])[..|es|] == es;
  }

  lemma {:induction false} RestOfGroup(upload: seq<Event>, backfilled: set<nat>, g: nat)
    ensures InGroup(Rest(upload, backfilled), g) ==
            if g in backfilled then [] else SortBy(InGroup(upload, g), EventLeq)
  {
    if g in backfilled {
      RestDrops(upload, backfilled, g);
    } else {
      RestKeeps(upload, backfilled, g);
    }
  }

  lemma {:induction false} RestDrops(upload: seq<Event>, backfilled: set<nat>, g: nat)
    requires g in backfilled
    ensures InGroup(Rest(upload, backfilled), g) == []
  {
    FilterMembers(SortBy(upload, EventLeq), Outside(backfilled));
    FilterNone(Rest(upload, backfilled), OfGroup(g));
  }

  lemma {:induction false} RestKeeps(upload: seq<Event>, backfilled: set<nat>, g: nat)
    requires g !in backfilled
    ensures InGroup(Rest(upload, backfilled), g) == SortBy(InGroup(upload, g), EventLeq)
  {
    EventOrder();
    FilterFilter(SortBy(upload, EventLeq), Outside(backfilled), OfGroup(g), OfGroup(g));
    FilterSort(upload, EventLeq, OfGroup(g));
  }

  function Outside(groups: set<nat>): Event -> bool { (e: Event) => e.group !in groups }

  /** What is left to project, in order, once the named groups were rebuilt. */
  function Rest(upload: seq<Event>, backfilled: set<nat>): seq<Event> {
    Filter(SortBy(upload, EventLeq), Outside(backfilled))
  }

  lemma {:induction false} UploadedGroup(before: GroupRows, upload: seq<Event>, groupIds: seq<nat>, rest: seq<Event>,
                      start: map<nat, map<string, nat>>, g: nat)
    requires forall e :: e in upload ==> e.group in groupIds
    requires g in start <==> g in groupIds
    requires g in start ==> start[g] == Reopen(before, InGroup(rest, g))
    requires InGroup(rest, g) == SortBy(InGroup(upload, g), EventLeq) || InGroup(rest, g) == []
    ensures var gs := GroupState(before, if g in start then start[g] else map[]);
      && gs.Valid()
      && (InGroup(rest, g) == [] ==> ProjectAll(gs, InGroup(rest, g)).rows == before)
      && (InGroup(rest, g) == SortBy(InGroup(upload, g), EventLeq) ==>
            ProjectAll(gs, InGroup(rest, g)).rows == AppendRows(before, InGroup(upload, g)))
  {
    ReopenValid(before, InGroup(rest, g));
    var mine := InGroup(upload, g);
    FilterMembers(upload, OfGroup(g));
    if InGroup(rest, g) == SortBy(mine, EventLeq) {
      ReopenIgnoresOrder(before, mine);
      if g !in groupIds {
        assert forall e :: e !in mine;
        EmptyOrMember(mine);
      }
    }
  }

  lemma {:induction false} ReopenIgnoresOrder(rows: GroupRows, upload: seq<Event>)
    ensures Reopen(rows, SortBy(upload, EventLeq)) == Reopen(rows, upload)
  {
    SortContents(upload, EventLeq);
    forall en ensures NeedsState(SortBy(upload, EventLeq), en) <==> NeedsState(upload, en) {}
  }

  lemma {:induction false} BackfilledIsTouched(stored: seq<Event>, upload: seq<Event>, groupIds: seq<nat>, g: nat)
    requires forall e :: e in upload ==> e.group in groupIds
    ensures Backfills(InGroup(stored, g), InGroup(upload, g)) ==> g in groupIds
  {
    FilterMembers(upload, OfGroup(g));
  }

  /** Ingesting keeps every group faithful, as long as each group's own upload is safe. */
  method Ingest(store: Store, upload: seq<Event>, groupIds: seq<nat>)
    requires forall e :: e in upload ==> e.group in groupIds
    requires forall g :: Faithful(RowsIn(store.rows, g), InGroup(store.events, g))
    requires forall g :: SafeUpload(InGroup(store.events, g), InGroup(upload, g))
    requires forall g :: IdsAppend(InGroup(store.events, g), InGroup(upload, g))
    modifies store
    ensures store.events == old(store.events) + upload
    ensures forall g :: Faithful(RowsIn(store.rows, g), InGroup(store.events, g))
  {
    store.ProjectFileEvents(upload, groupIds);
    forall g ensures Faithful(RowsIn(store.rows, g), InGroup(store.events, g)) {
      var stored, mine := InGroup(old(store.events), g), InGroup(upload, g);
      FilterMembers(old(store.events), OfGroup(g));
      FilterMembers(upload, OfGroup(g));
      FilterConcat(old(store.events), upload, OfGroup(g));
      UploadFaithful(RowsIn(old(store.rows), g), stored, mine);
    }
  }
}
