/** Timeline items: every event is excluded for one reason, shown alone, or shown inside exactly one
    retry burst (forensics/analysis.py). */
module Timeline {
  import opened Orders

  /** `retry` is `is_timeline_peeler_retry_event`. */
  datatype Event = Event(id: nat, engine: string, wall: Option<nat>, line: nat, retry: bool)

  /** A rendered item and the events it stands for. */
  datatype Item = Item(id: nat, engine: nat, t: nat, line: nat, members: seq<Event>)

  datatype Burst = Burst(engine: nat, second: nat, members: seq<Event>)

  datatype Excluded = Excluded(noWallTime: nat, noEngine: nat, events: seq<Event>)

  predicate IsExcluded(e: Event, engines: map<string, nat>) { e.wall.None? || e.engine !in engines }

  // --------------------------------------------------------------- item building

  function SingleItem(e: Event, engines: map<string, nat>): Item
    requires !IsExcluded(e, engines)
  {
    Item(e.id, engines[e.engine], e.wall.value, e.line, [e])
  }

  function WallOf(e: Event): nat { if e.wall.Some? then e.wall.value else 0 }

  function LeastId(es: seq<Event>): (m: nat)
    requires es != []
    ensures (exists e :: e in es && e.id == m) && forall e :: e in es ==> m <= e.id
  {
    var n := |es| - 1;
    assert es == es[..n] + [es[n]] && es[n] in es;
    if n == 0 then es[0].id
    else
      var m := LeastId(es[..n]);
      if es[n].id < m then es[n].id else m
  }

  function LeastLine(es: seq<Event>): (m: nat)
    requires es != []
    ensures (exists e :: e in es && e.line == m) && forall e :: e in es ==> m <= e.line
  {
    var n := |es| - 1;
    assert es == es[..n] + [es[n]] && es[n] in es;
    if n == 0 then es[0].line
    else
      var m := LeastLine(es[..n]);
      if es[n].line < m then es[n].line else m
  }

  predicate MemberLeq(a: Event, b: Event) {
    if WallOf(a) != WallOf(b) then WallOf(a) < WallOf(b) else if a.line != b.line then a.line < b.line else a.id <= b.id
  }

  /** `timeline_peeler_retry_burst_item` */
  function BurstItem(b: Burst): Item
    requires b.members != []
  {
    var ordered := SortBy(b.members, MemberLeq);
    SortedNonEmpty(b.members);
    Item(LeastId(ordered), b.engine, WallOf(ordered[0]), LeastLine(ordered), ordered)
  }

  lemma {:induction false} SortedNonEmpty(es: seq<Event>)
    ensures |SortBy(es, MemberLeq)| == |es|
  {
    SortContents(es, MemberLeq);
    assert |multiset(SortBy(es, MemberLeq))| == |multiset(es)|;
  }

  lemma {:induction false} MemberOrder()
    ensures TotalPreorder(MemberLeq)
  {
  }

  predicate ItemLeq(a: Item, b: Item) {
    if a.t != b.t then a.t < b.t else if a.line != b.line then a.line < b.line else a.id <= b.id
  }

  lemma {:induction false} ItemOrder()
    ensures TotalPreorder(ItemLeq)
  {
  }

  // ------------------------------------------------------------------ accounting

  function Flatten(items: seq<Item>): seq<Event> {
    if items == [] then [] else Flatten(items[..|items| - 1]) + items[|items| - 1].members
  }

  function Pending(bursts: seq<Burst>): seq<Event> {
    if bursts == [] then [] else Pending(bursts[..|bursts| - 1]) + bursts[|bursts| - 1].members
  }

  lemma {:induction false} FlattenSnoc(items: seq<Item>, x: Item)
    ensures Flatten(items + [x]) == Flatten(items) + x.members
  {
    assert (items + [x])[..|items|] == items;
  }

  lemma {:induction false} PendingSnoc(bursts: seq<Burst>, b: Burst)
    ensures Pending(bursts + [b]) == Pending(bursts) + b.members
  {
    assert (bursts + [b])[..|bursts|] == bursts;
  }

  lemma {:induction false} PendingGrow(bursts: seq<Burst>, i: nat, e: Event)
    requires i < |bursts|
    ensures multiset(Pending(bursts[i := bursts[i].(members := bursts[i].members + [e])])) ==
            multiset(Pending(bursts)) + multiset{e}
  {
    var n := |bursts| - 1;
    var grown := bursts[i := bursts[i].(members := bursts[i].members + [e])];
    if i == n {
      assert grown[..n] == bursts[..n];
    } else {
      assert grown[..n] == bursts[..n][i := bursts[i].(members := bursts[i].members + [e])];
      PendingGrow(bursts[..n], i, e);
    }
  }

  lemma {:induction false} FlattenInsert(x: Item, items: seq<Item>)
    ensures multiset(Flatten(Insert(x, items, ItemLeq))) == multiset(Flatten(items)) + multiset(x.members)
  {
    if items == [] || !ItemLeq(items[0], x) {
      FlattenCons(x, items);
      assert items == [] ==> [x] + items == [x];
    } else {
      var tail := items[1..];
      FlattenInsert(x, tail);
      FlattenCons(items[0], Insert(x, tail, ItemLeq));
      FlattenCons(items[0], tail);
      assert items == [items[0]] + tail;
    }
  }

  lemma {:induction false} FlattenCons(x: Item, items: seq<Item>)
    ensures multiset(Flatten([x] + items)) == multiset(x.members) + multiset(Flatten(items))
  {
    if items == [] {
      assert [x] + items == [x];
      FlattenSnoc([], x);
      assert [] + [x] == [x];
    } else {
      var n := |items| - 1;
      FlattenCons(x, items[..n]);
      assert [x] + items == ([x] + items[..n]) + [items[n]];
      FlattenSnoc([x] + items[..n], items[n]);
    }
  }

  lemma {:induction false} FlattenSort(items: seq<Item>)
    ensures multiset(Flatten(SortBy(items, ItemLeq))) == multiset(Flatten(items))
  {
    if items != [] {
      FlattenSort(items[..|items| - 1]);
      FlattenInsert(items[|items| - 1], SortBy(items[..|items| - 1], ItemLeq));
    }
  }

  // ---------------------------------------------------------------- item contracts

  ghost predicate ShownBy(e: Event, x: Item, engines: map<string, nat>) {
    !IsExcluded(e, engines) && engines[e.engine] == x.engine && x.id <= e.id && x.t <= e.wall.value && x.line <= e.line
  }

  /** A burst lists its members by time, then line, then id. */
  ghost predicate MembersInOrder(es: seq<Event>) {
    forall i, j :: 0 <= i < j < |es| ==>
      && WallOf(es[i]) <= WallOf(es[j])
      && (WallOf(es[i]) == WallOf(es[j]) ==> es[i].line <= es[j].line)
      && (WallOf(es[i]) == WallOf(es[j]) && es[i].line == es[j].line ==> es[i].id <= es[j].id)
  }

  /** A single item shows one event; a burst shows at least two retries of one engine in one second,
      under the least of their ids, times and line numbers. */
  ghost predicate ItemOk(x: Item, engines: map<string, nat>) {
    && x.members != []
    && (exists e :: e in x.members && e.id == x.id)
    && (exists e :: e in x.members && e.wall == Some(x.t))
    && (exists e :: e in x.members && e.line == x.line)
    && (forall e :: e in x.members ==> ShownBy(e, x, engines))
    && (|x.members| > 1 ==> forall e :: e in x.members ==> e.retry && WallOf(e) / 1000 == x.t / 1000)
    && MembersInOrder(x.members)
  }

  ghost predicate BurstOk(b: Burst, engines: map<string, nat>) {
    && b.members != []
    && (forall e :: e in b.members ==>
          !IsExcluded(e, engines) && e.retry && engines[e.engine] == b.engine && WallOf(e) / 1000 == b.second)
  }

  ghost predicate BurstsOk(bursts: seq<Burst>, engines: map<string, nat>) {
    && (forall b :: b in bursts ==> BurstOk(b, engines))
    && (forall i, j :: 0 <= i < j < |bursts| ==>
       (bursts[i].engine, bursts[i].second) != (bursts[j].engine, bursts[j].second))
  }

  lemma {:induction false} SingleItemOk(e: Event, engines: map<string, nat>)
    requires !IsExcluded(e, engines)
    ensures ItemOk(SingleItem(e, engines), engines)
  {
    assert e in SingleItem(e, engines).members;
  }

  lemma {:induction false} OrderedMembers(es: seq<Event>)
    requires es != []
    ensures var ordered := SortBy(es, MemberLeq);
      && ordered != [] && multiset(ordered) == multiset(es)
      && (forall e :: e in ordered <==> e in es)
      && (forall e :: e in ordered ==> WallOf(ordered[0]) <= WallOf(e))
      && MembersInOrder(ordered)
  {
    SortContents(es, MemberLeq);
    SortedNonEmpty(es);
    MemberOrder();
    SortIsSorted(es, MemberLeq);
    var ordered := SortBy(es, MemberLeq);
    forall e | e in ordered ensures WallOf(ordered[0]) <= WallOf(e) {
      var k :| 0 <= k < |ordered| && ordered[k] == e;
      assert k == 0 || MemberLeq(ordered[0], ordered[k]);
    }
  }

  lemma {:induction false} BurstItemOk(b: Burst, engines: map<string, nat>)
    requires BurstOk(b, engines)
    ensures ItemOk(BurstItem(b), engines)
    ensures multiset(BurstItem(b).members) == multiset(b.members)
  {
    OrderedMembers(b.members);
    var x := BurstItem(b);
    assert x.members[0] in x.members;
    forall e | e in x.members ensures ShownBy(e, x, engines) && e.retry && WallOf(e) / 1000 == x.t / 1000 {
      assert e in b.members && x.members[0] in b.members;
    }
  }

  // --------------------------------------------------------------------- the pass

  method FindBurst(bursts: seq<Burst>, engine: nat, second: nat) returns (i: nat)
    ensures i <= |bursts|
    ensures i < |bursts| ==> bursts[i].engine == engine && bursts[i].second == second
    ensures i == |bursts| ==> forall j :: 0 <= j < |bursts| ==> (bursts[j].engine, bursts[j].second) != (engine, second)
  {
    i := 0;
    while i < |bursts| && (bursts[i].engine, bursts[i].second) != (engine, second)
      invariant i <= |bursts|
      invariant forall j :: 0 <= j < i ==> (bursts[j].engine, bursts[j].second) != (engine, second)
    {
      i := i + 1;
    }
  }

  /** Files one retry event under its (engine, second). */
  method AddToBurst(bursts: seq<Burst>, e: Event, engines: map<string, nat>) returns (bursts': seq<Burst>)
    requires BurstsOk(bursts, engines) && !IsExcluded(e, engines) && e.retry
    ensures BurstsOk(bursts', engines)
    ensures multiset(Pending(bursts')) == multiset(Pending(bursts)) + multiset{e}
  {
    var engine, second := engines[e.engine], e.wall.value / 1000;
    var i := FindBurst(bursts, engine, second);
    if i < |bursts| {
      PendingGrow(bursts, i, e);
      BurstsGrow(bursts, i, e, engines);
      bursts' := bursts[i := bursts[i].(members := bursts[i].members + [e])];
    } else {
      PendingSnoc(bursts, Burst(engine, second, [e]));
      BurstsSnoc(bursts, Burst(engine, second, [e]), engines);
      bursts' := bursts + [Burst(engine, second, [e])];
    }
  }

  lemma {:induction false} BurstsGrow(bursts: seq<Burst>, i: nat, e: Event, engines: map<string, nat>)
    requires BurstsOk(bursts, engines) && i < |bursts| && !IsExcluded(e, engines) && e.retry
    requires bursts[i].engine == engines[e.engine] && bursts[i].second == WallOf(e) / 1000
    ensures BurstsOk(bursts[i := bursts[i].(members := bursts[i].members + [e])], engines)
  {
    var grown := bursts[i].(members := bursts[i].members + [e]);
    assert bursts[i] in bursts;
    assert BurstOk(grown, engines);
    forall b | b in bursts[i := grown] ensures BurstOk(b, engines) {
      assert b == grown || b in bursts;
    }
  }

  lemma {:induction false} BurstsSnoc(bursts: seq<Burst>, b: Burst, engines: map<string, nat>)
    requires BurstsOk(bursts, engines) && BurstOk(b, engines)
    requires forall j :: 0 <= j < |bursts| ==> (bursts[j].engine, bursts[j].second) != (b.engine, b.second)
    ensures BurstsOk(bursts + [b], engines)
  {
    assert forall x :: x in bursts + [b] <==> x in bursts || x == b;
  }

  ghost predicate ItemsOk(items: seq<Item>, engines: map<string, nat>) { forall x :: x in items ==> ItemOk(x, engines) }

  /** What the loop has built so far. */
  datatype Progress = Progress(items: seq<Item>, excluded: Excluded, bursts: seq<Burst>)

  ghost predicate Accounted(p: Progress, seen: seq<Event>) {
    multiset(p.excluded.events) + multiset(Flatten(p.items)) + multiset(Pending(p.bursts)) == multiset(seen)
  }

  ghost predicate ProgressOk(p: Progress, seen: seq<Event>, engines: map<string, nat>) {
    && Accounted(p, seen) && ExcludedOk(p.excluded, seen, engines)
    && ItemsOk(p.items, engines) && BurstsOk(p.bursts, engines) && NoRetries(p.items)
  }

  ghost predicate NoRetries(items: seq<Item>) { forall x, e :: x in items && e in x.members ==> !e.retry }

  ghost predicate SameBurst(e: Event, f: Event, engines: map<string, nat>) {
    e.retry && f.retry && !IsExcluded(e, engines) && !IsExcluded(f, engines) &&
    engines[e.engine] == engines[f.engine] && WallOf(e) / 1000 == WallOf(f) / 1000
  }

  /** Retries of one engine within one second are shown by one item. */
  ghost predicate RetriesTogether(items: seq<Item>, engines: map<string, nat>) {
    forall x, y, e, f ::
      x in items && y in items && e in x.members && f in y.members && SameBurst(e, f, engines) ==> x == y
  }

  lemma {:induction false} AccountedSnoc(p: Progress, seen: seq<Event>, e: Event, p': Progress)
    requires Accounted(p, seen)
    requires multiset(p'.excluded.events) + multiset(Flatten(p'.items)) + multiset(Pending(p'.bursts)) ==
             multiset(p.excluded.events) + multiset(Flatten(p.items)) + multiset(Pending(p.bursts)) + multiset{e}
    ensures Accounted(p', seen + [e])
  {
  }

  /** The excluded events in order, counted under exactly one reason each. */
  ghost predicate ExcludedOk(x: Excluded, seen: seq<Event>, engines: map<string, nat>) {
    && x.events == Filter(seen, (e: Event) => e.wall.None? || e.engine !in engines)
    && x.noWallTime == |Filter(seen, (e: Event) => e.wall.None?)|
    && x.noWallTime + x.noEngine == |x.events|
  }

  lemma {:induction false} ExcludedSnoc(x: Excluded, seen: seq<Event>, e: Event, engines: map<string, nat>)
    requires ExcludedOk(x, seen, engines)
    ensures e.wall.None? ==> ExcludedOk(Excluded(x.noWallTime + 1, x.noEngine, x.events + [e]), seen + [e], engines)
    ensures e.wall.Some? && e.engine !in engines ==>
              ExcludedOk(Excluded(x.noWallTime, x.noEngine + 1, x.events + [e]), seen + [e], engines)
    ensures !IsExcluded(e, engines) ==> ExcludedOk(x, seen + [e], engines)
  {
    assert (seen + [e])[..|seen|] == seen;
    assert x.events + [] == x.events;
  }

  method AddItem(items: seq<Item>, e: Event, engines: map<string, nat>) returns (items': seq<Item>)
    requires ItemsOk(items, engines) && !IsExcluded(e, engines) && NoRetries(items) && !e.retry
    ensures ItemsOk(items', engines) && NoRetries(items')
    ensures multiset(Flatten(items')) == multiset(Flatten(items)) + multiset{e}
  {
    SingleItemOk(e, engines);
    FlattenSnoc(items, SingleItem(e, engines));
    items' := items + [SingleItem(e, engines)];
  }

  /** `timeline_items`. Each event is accounted for exactly once, as excluded for one reason or as a
      member of exactly one item; the items come out sorted by (t, line, id). */
  method TimelineItems(events: seq<Event>, engines: map<string, nat>) returns (items: seq<Item>, excluded: Excluded)
    ensures multiset(excluded.events) + multiset(Flatten(items)) == multiset(events)
    ensures ExcludedOk(excluded, events, engines)
    ensures ItemsOk(items, engines)
    ensures RetriesTogether(items, engines)
    ensures InTimeOrder(items)
  {
    var p := SortOut(events, engines);
    excluded := p.excluded;
    items := CloseBursts(p.items, p.bursts, engines);
    Together(p.items, p.bursts, items, engines);
    FlattenSort(items);
    SortContents(items, ItemLeq);
    ItemOrder();
    SortIsSorted(items, ItemLeq);
    items := SortBy(items, ItemLeq);
    SortedIsInTimeOrder(items);
  }

  /** Earlier items first; at the same time smaller lines first; on the same line smaller ids first. */
  ghost predicate InTimeOrder(items: seq<Item>) {
    forall i, j :: 0 <= i < j < |items| ==>
      && items[i].t <= items[j].t
      && (items[i].t == items[j].t ==> items[i].line <= items[j].line)
      && (items[i].t == items[j].t && items[i].line == items[j].line ==> items[i].id <= items[j].id)
  }

  lemma {:induction false} SortedIsInTimeOrder(items: seq<Item>)
    requires Sorted(items, ItemLeq)
    ensures InTimeOrder(items)
  {
    forall i, j | 0 <= i < j < |items|
      ensures items[i].t <= items[j].t
      ensures items[i].t == items[j].t ==> items[i].line <= items[j].line
      ensures items[i].t == items[j].t && items[i].line == items[j].line ==> items[i].id <= items[j].id
    {
      assert ItemLeq(items[i], items[j]);
    }
  }

  /** The loop over the events. */
  method SortOut(events: seq<Event>, engines: map<string, nat>) returns (p: Progress)
    ensures ProgressOk(p, events, engines)
  {
    p := NOTHING_YET;
    NothingYet(engines);
    assert events[..0] == [];
    for i := 0 to |events|
      invariant ProgressOk(p, events[..i], engines)
    {
      assert events[..i + 1] == events[..i] + [events[i]];
      p := SortOutOne(p, events[i], engines, events[..i]);
    }
    assert events[..|events|] == events;
  }

  const NOTHING_YET := Progress([], Excluded(0, 0, []), [])

  lemma {:induction false} NothingYet(engines: map<string, nat>)
    ensures ProgressOk(NOTHING_YET, [], engines)
  {
  }

  method SortOutOne(p: Progress, e: Event, engines: map<string, nat>, ghost seen: seq<Event>) returns (p': Progress)
    requires ProgressOk(p, seen, engines)
    ensures ProgressOk(p', seen + [e], engines)
  {
    if IsExcluded(e, engines) {
      var x := Exclude(p.excluded, e, engines, seen);
      p' := p.(excluded := x);
      AccountedSnoc(p, seen, e, p');
      return;
    }
    ExcludedSnoc(p.excluded, seen, e, engines);
    if e.retry {
      p' := FileRetry(p, e, engines, seen);
    } else {
      p' := ShowAlone(p, e, engines, seen);
    }
  }

  method FileRetry(p: Progress, e: Event, engines: map<string, nat>, ghost seen: seq<Event>) returns (p': Progress)
    requires ProgressOk(p, seen, engines) && !IsExcluded(e, engines) && e.retry
    requires ExcludedOk(p.excluded, seen + [e], engines)
    ensures ProgressOk(p', seen + [e], engines)
  {
    var bursts := AddToBurst(p.bursts, e, engines);
    p' := p.(bursts := bursts);
    AccountedSnoc(p, seen, e, p');
  }

  method ShowAlone(p: Progress, e: Event, engines: map<string, nat>, ghost seen: seq<Event>) returns (p': Progress)
    requires ProgressOk(p, seen, engines) && !IsExcluded(e, engines) && !e.retry
    requires ExcludedOk(p.excluded, seen + [e], engines)
    ensures ProgressOk(p', seen + [e], engines)
  {
    var items := AddItem(p.items, e, engines);
    p' := p.(items := items);
    AccountedSnoc(p, seen, e, p');
  }

  /** An event without a time, or of an engine the timeline does not know, is set aside under that reason. */
  method Exclude(x: Excluded, e: Event, engines: map<string, nat>, ghost seen: seq<Event>) returns (x': Excluded)
    requires ExcludedOk(x, seen, engines) && IsExcluded(e, engines)
    ensures ExcludedOk(x', seen + [e], engines) && x'.events == x.events + [e]
  {
    ExcludedSnoc(x, seen, e, engines);
    if e.wall.None? {
      x' := Excluded(x.noWallTime + 1, x.noEngine, x.events + [e]);
    } else {
      x' := Excluded(x.noWallTime, x.noEngine + 1, x.events + [e]);
    }
  }

  /** A burst of one is shown as an ordinary item. */
  function ItemFor(b: Burst, engines: map<string, nat>): Item
    requires b.members != [] && !IsExcluded(b.members[0], engines)
  {
    if |b.members| == 1 then SingleItem(b.members[0], engines) else BurstItem(b)
  }

  lemma {:induction false} ItemForOk(b: Burst, engines: map<string, nat>)
    requires BurstOk(b, engines)
    ensures !IsExcluded(b.members[0], engines)
    ensures ItemOk(ItemFor(b, engines), engines) && multiset(ItemFor(b, engines).members) == multiset(b.members)
  {
    assert b.members[0] in b.members;
    if |b.members| == 1 {
      assert b.members == [b.members[0]];
      SingleItemOk(b.members[0], engines);
    } else {
      BurstItemOk(b, engines);
    }
  }

  ghost predicate ComesFrom(x: Item, items: seq<Item>, bursts: seq<Burst>, engines: map<string, nat>) {
    || x in items
    || exists b :: b in bursts && b.members != [] && !IsExcluded(b.members[0], engines) && x == ItemFor(b, engines)
  }

  ghost predicate Closed(all: seq<Item>, items: seq<Item>, bursts: seq<Burst>, done: seq<Burst>,
                         engines: map<string, nat>) {
    && multiset(Flatten(all)) == multiset(Flatten(items)) + multiset(Pending(done))
    && ItemsOk(all, engines)
    && (forall x :: x in all ==> ComesFrom(x, items, bursts, engines))
  }

  lemma {:induction false} CloseOne(all: seq<Item>, items: seq<Item>, bursts: seq<Burst>, done: seq<Burst>, b: Burst,
                                    engines: map<string, nat>)
    requires Closed(all, items, bursts, done, engines) && b in bursts && BurstOk(b, engines)
    ensures !IsExcluded(b.members[0], engines)
    ensures Closed(all + [ItemFor(b, engines)], items, bursts, done + [b], engines)
  {
    ItemForOk(b, engines);
    var x := ItemFor(b, engines);
    PendingSnoc(done, b);
    FlattenSnoc(all, x);
    assert ComesFrom(x, items, bursts, engines);
    assert forall y :: y in all + [x] <==> y in all || y == x;
  }

  /** One item for each burst. */
  method CloseBursts(items: seq<Item>, bursts: seq<Burst>, engines: map<string, nat>) returns (all: seq<Item>)
    requires BurstsOk(bursts, engines) && ItemsOk(items, engines)
    ensures Closed(all, items, bursts, bursts, engines)
  {
    all := items;
    for i := 0 to |bursts|
      invariant Closed(all, items, bursts, bursts[..i], engines)
    {
      assert bursts[i] in bursts;
      assert bursts[..i + 1] == bursts[..i] + [bursts[i]];
      CloseOne(all, items, bursts, bursts[..i], bursts[i], engines);
      all := all + [ItemFor(bursts[i], engines)];
    }
    assert bursts[..|bursts|] == bursts;
  }

  lemma {:induction false} RetryComesFromBurst(x: Item, e: Event, items: seq<Item>, bursts: seq<Burst>,
                                               engines: map<string, nat>)
    returns (b: Burst)
    requires NoRetries(items) && BurstsOk(bursts, engines) && ComesFrom(x, items, bursts, engines)
    requires e in x.members && e.retry
    ensures b in bursts && b.members != [] && !IsExcluded(b.members[0], engines) && x == ItemFor(b, engines)
    ensures !IsExcluded(e, engines) && engines[e.engine] == b.engine && WallOf(e) / 1000 == b.second
  {
    b :| b in bursts && b.members != [] && !IsExcluded(b.members[0], engines) && x == ItemFor(b, engines);
    ItemForOk(b, engines);
    assert e in multiset(b.members);
  }

  lemma {:induction false} Together(items: seq<Item>, bursts: seq<Burst>, all: seq<Item>, engines: map<string, nat>)
    requires NoRetries(items) && BurstsOk(bursts, engines)
    requires forall x :: x in all ==> ComesFrom(x, items, bursts, engines)
    ensures RetriesTogether(all, engines)
  {
    forall x, y, e, f | x in all && y in all && e in x.members && f in y.members && SameBurst(e, f, engines)
      ensures x == y
    {
      var b := RetryComesFromBurst(x, e, items, bursts, engines);
      var c := RetryComesFromBurst(y, f, items, bursts, engines);
      var i :| 0 <= i < |bursts| && bursts[i] == b;
      var j :| 0 <= j < |bursts| && bursts[j] == c;
    }
  }

  // ------------------------------------------------------------------- consequences

  /** Conservation: the excluded events and the items' members add up to the input. */
  lemma {:induction false} CountsAddUp(events: seq<Event>, items: seq<Item>, excluded: seq<Event>)
    requires multiset(excluded) + multiset(Flatten(items)) == multiset(events)
    ensures |excluded| + |Flatten(items)| == |events|
  {
    assert |multiset(excluded)| + |multiset(Flatten(items))| == |multiset(events)|;
  }

  /** No id occurs twice. */
  ghost predicate DistinctIds(events: seq<Event>) {
    && (forall e, f :: e in events && f in events && e.id == f.id ==> e == f)
    && (forall e :: multiset(events)[e] <= 1)
  }

  lemma {:induction false} MembersInFlatten(items: seq<Item>, i: nat, e: Event)
    requires i < |items|
    ensures multiset(items[i].members)[e] <= multiset(Flatten(items))[e]
  {
    var n := |items| - 1;
    if i < n { MembersInFlatten(items[..n], i, e); }
  }

  lemma {:induction false} TwoItemsInFlatten(items: seq<Item>, i: nat, j: nat, e: Event)
    requires i < j < |items|
    ensures multiset(items[i].members)[e] + multiset(items[j].members)[e] <= multiset(Flatten(items))[e]
  {
    var n := |items| - 1;
    assert multiset(Flatten(items))[e] == multiset(Flatten(items[..n]))[e] + multiset(items[n].members)[e];
    if j < n {
      TwoItemsInFlatten(items[..n], i, j, e);
    } else {
      MembersInFlatten(items[..n], i, e);
    }
  }

  /** Item ids are pairwise distinct in every timeline of events with distinct ids. */
  lemma {:induction false} TimelineIdsDistinct(events: seq<Event>, items: seq<Item>, excluded: seq<Event>,
                                               engines: map<string, nat>)
    requires multiset(excluded) + multiset(Flatten(items)) == multiset(events) && DistinctIds(events)
    requires ItemsOk(items, engines)
    ensures forall i, j :: 0 <= i < j < |items| ==> items[i].id != items[j].id
  {
    forall i, j | 0 <= i < j < |items| ensures items[i].id != items[j].id {
      assert items[i] in items && items[j] in items;
      var e :| e in items[i].members && e.id == items[i].id;
      var f :| f in items[j].members && f.id == items[j].id;
      MembersInFlatten(items, i, e);
      MembersInFlatten(items, j, f);
      assert e in multiset(events) && f in multiset(events);
      TwoItemsInFlatten(items, i, j, e);
    }
  }
}
