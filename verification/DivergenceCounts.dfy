/** The three computations that claim the divergence rule, each proved to count exactly the
    messages it names (forensics/analysis.py and the frozen copy in migration 0010). */
module DivergenceCounts {
  import opened Orders
  import opened Divergence

  /** A streamed row: the group it belongs to and the event itself. */
  datatype Row = Row(group: nat, event: Sighting)

  ghost function GroupEvents(rows: seq<Row>, g: nat): seq<Sighting> {
    if rows == [] then []
    else
      var n := |rows| - 1;
      GroupEvents(rows[..n], g) + if rows[n].group == g then [rows[n].event] else []
  }

  lemma {:induction false} GroupEventsMembers(rows: seq<Row>, g: nat)
    ensures forall e :: e in GroupEvents(rows, g) <==> Row(g, e) in rows
  {
    if rows != [] {
      var n := |rows| - 1;
      assert rows == rows[..n] + [rows[n]];
      GroupEventsMembers(rows[..n], g);
    }
  }

  function AggregatesOf(aggs: map<nat, Aggregates>, g: nat): Aggregates {
    if g in aggs then aggs[g] else EMPTY_AGGREGATES
  }

  lemma {:induction false} DescribesNothing()
    ensures Describes(EMPTY_AGGREGATES, [])
  {
    forall m ensures Observers([], m) == {} {}
  }

  /** The streaming pass: every group's aggregates after one read of the rows in any order. */
  method Stream(rows: seq<Row>) returns (aggs: map<nat, Aggregates>)
    ensures forall g :: Describes(AggregatesOf(aggs, g), GroupEvents(rows, g))
  {
    aggs := map[];
    DescribesNothing();
    for i := 0 to |rows|
      invariant forall g :: Describes(AggregatesOf(aggs, g), GroupEvents(rows[..i], g))
    {
      var g := rows[i].group;
      var agg := Observe(AggregatesOf(aggs, g), rows[i].event, GroupEvents(rows[..i], g));
      aggs := aggs[g := agg];
      assert rows[..i + 1][..i] == rows[..i];
      forall h ensures GroupEvents(rows[..i + 1], h) ==
                GroupEvents(rows[..i], h) + if rows[i].group == h then [rows[i].event] else [] {}
      forall h | h != g ensures GroupEvents(rows[..i + 1], h) == GroupEvents(rows[..i], h) {
        assert GroupEvents(rows[..i], h) + [] == GroupEvents(rows[..i], h);
      }
    }
    assert rows[..|rows|] == rows;
  }

  ghost function DivergentAmong(ms: set<string>, es: seq<Sighting>): set<string> {
    set m | m in ms && Diverges(es, m)
  }

  lemma {:induction false} OneFewerToCount(ms: set<string>, m: string, es: seq<Sighting>)
    requires m in ms
    ensures |DivergentAmong(ms, es)| == |DivergentAmong(ms - {m}, es)| + if Diverges(es, m) then 1 else 0
  {
    var few := DivergentAmong(ms - {m}, es);
    assert m !in few;
    if Diverges(es, m) {
      assert DivergentAmong(ms, es) == few + {m};
    } else {
      assert DivergentAmong(ms, es) == few;
    }
  }

  lemma {:induction false} AllToCount(agg: Aggregates, es: seq<Sighting>)
    requires Describes(agg, es)
    ensures DivergentAmong(agg.observers.Keys, es) == DivergentMessages(es)
  {
    ObservedAreMessages(agg, es);
  }

  /** One message's verdict in the final loop. */
  method Counted(agg: Aggregates, m: string, ghost es: seq<Sighting>) returns (counts: bool)
    requires Describes(agg, es) && m in agg.observers
    ensures counts <==> Diverges(es, m)
  {
    var missing := PresentButMissing(agg.observers[m], Lookup(agg.references, m), agg.windows, agg.engines);
    VerdictIsRule(agg, es, m);
    counts := IsDivergent(agg.observers[m], agg.observers[m] + missing);
  }

  /** The final loop over one group's messages. */
  method CountGroup(agg: Aggregates, ghost es: seq<Sighting>) returns (divergent: nat)
    requires Describes(agg, es)
    ensures divergent == |DivergentMessages(es)|
  {
    AllToCount(agg, es);
    divergent := 0;
    var todo := agg.observers.Keys;
    while todo != {}
      invariant todo <= agg.observers.Keys
      invariant divergent + |DivergentAmong(todo, es)| == |DivergentMessages(es)|
      decreases todo
    {
      var m :| m in todo;
      OneFewerToCount(todo, m, es);
      todo := todo - {m};
      var counts := Counted(agg, m, es);
      if counts {
        divergent := divergent + 1;
      }
    }
  }

  function MissingInMigration(agg: Aggregates, m: string): set<string>
    requires m in agg.observers && m in agg.references
  {
    set x | x in agg.engines && x !in agg.observers[m] && x in agg.windows &&
            agg.windows[x].first <= agg.references[m] <= agg.windows[x].last
  }

  lemma {:induction false} MigrationVerdict(agg: Aggregates, es: seq<Sighting>, m: string)
    requires Describes(agg, es) && m in agg.observers
    ensures m !in agg.references ==> !Diverges(es, m)
    ensures m in agg.references ==> (agg.observers[m] != {} && MissingInMigration(agg, m) != {} <==> Diverges(es, m))
  {
    VerdictIsRule(agg, es, m);
    assert ObserversMatchAt(agg.observers, m, Observers(es, m));
    if m in agg.references {
      assert MissingInMigration(agg, m) == Missing(agg.observers[m], Some(agg.references[m]), agg.windows, agg.engines);
    }
  }

  method CountedInMigration(agg: Aggregates, m: string, ghost es: seq<Sighting>) returns (counts: bool)
    requires Describes(agg, es) && m in agg.observers
    ensures counts <==> Diverges(es, m)
  {
    MigrationVerdict(agg, es, m);
    if m !in agg.references { return false; }
    counts := agg.observers[m] != {} && MissingInMigration(agg, m) != {};
  }

  /** The same loop as the migration wrote it: untimed messages skipped, the missing set inlined. */
  method CountGroupInMigration(agg: Aggregates, ghost es: seq<Sighting>) returns (divergent: nat)
    requires Describes(agg, es)
    ensures divergent == |DivergentMessages(es)|
  {
    AllToCount(agg, es);
    divergent := 0;
    var todo := agg.observers.Keys;
    while todo != {}
      invariant todo <= agg.observers.Keys
      invariant divergent + |DivergentAmong(todo, es)| == |DivergentMessages(es)|
      decreases todo
    {
      var m :| m in todo;
      OneFewerToCount(todo, m, es);
      todo := todo - {m};
      var counts := CountedInMigration(agg, m, es);
      if counts {
        divergent := divergent + 1;
      }
    }
  }

  /** `divergent_counts_for_group_ids`: every requested group gets the declared count of its rows. */
  method DivergentCounts(rows: seq<Row>, groupIds: seq<nat>) returns (counts: map<nat, nat>)
    ensures forall g :: g in counts <==> g in groupIds && g != 0
    ensures forall g :: g in counts ==> counts[g] == |DivergentMessages(GroupEvents(rows, g))|
  {
    var aggs := Stream(rows);
    counts := map[];
    for i := 0 to |groupIds|
      invariant forall g :: g in counts <==> g in groupIds[..i] && g != 0
      invariant forall g :: g in counts ==> counts[g] == |DivergentMessages(GroupEvents(rows, g))|
    {
      var g := groupIds[i];
      if g != 0 {
        var n := CountGroup(AggregatesOf(aggs, g), GroupEvents(rows, g));
        counts := counts[g := n];
      }
      assert groupIds[..i + 1] == groupIds[..i] + [g];
    }
    assert groupIds[..|groupIds|] == groupIds;
  }

  /** Two streams that hold the same rows, in any order and multiplicity, have the same counts. */
  lemma {:induction false} CountsIgnoreRowOrder(a: seq<Row>, b: seq<Row>, g: nat)
    requires forall r :: r in a <==> r in b
    ensures |DivergentMessages(GroupEvents(a, g))| == |DivergentMessages(GroupEvents(b, g))|
  {
    GroupEventsMembers(a, g);
    GroupEventsMembers(b, g);
    CountIgnoresOrder(GroupEvents(a, g), GroupEvents(b, g));
  }

  /** The migration's recompute agrees on every group. */
  method DivergentCountsInMigration(rows: seq<Row>, groupIds: seq<nat>) returns (counts: map<nat, nat>)
    ensures forall g :: g in counts <==> g in groupIds
    ensures forall g :: g in counts ==> counts[g] == |DivergentMessages(GroupEvents(rows, g))|
  {
    var aggs := Stream(rows);
    counts := map[];
    for i := 0 to |groupIds|
      invariant forall g :: g in counts <==> g in groupIds[..i]
      invariant forall g :: g in counts ==> counts[g] == |DivergentMessages(GroupEvents(rows, g))|
    {
      var g := groupIds[i];
      var n := CountGroupInMigration(AggregatesOf(aggs, g), GroupEvents(rows, g));
      counts := counts[g := n];
      assert groupIds[..i + 1] == groupIds[..i] + [g];
    }
    assert groupIds[..|groupIds|] == groupIds;
  }

  // --------------------------------------------------------------------- traces

  datatype Trace = Trace(
    message: string,
    engines: set<string>,
    missedBy: set<string>,
    absent: set<string>,
    reference: Option<nat>,
    divergent: bool)

  ghost predicate IsLeastWall(r: Option<nat>, es: seq<Sighting>, m: string) {
    if r.None? then forall e :: e in es && m in e.messages ==> e.wall.None?
    else (exists e :: e in es && m in e.messages && e.wall == r) &&
         forall e :: e in es && m in e.messages && e.wall.Some? ==> r.value <= e.wall.value
  }

  function LeastWall(es: seq<Sighting>, m: string): (r: Option<nat>)
    ensures IsLeastWall(r, es, m)
  {
    if es == [] then None
    else
      var n := |es| - 1;
      var r := LeastWall(es[..n], m);
      var e := es[n];
      assert forall y :: y in es <==> y in es[..n] || y == e by { assert es == es[..n] + [e]; }
      if m in e.messages && e.wall.Some? && (r.None? || e.wall.value < r.value) then e.wall else r
  }

  /** `engine_windows` */
  method EngineWindows(es: seq<Sighting>) returns (windows: map<string, Window>)
    ensures WindowsMatch(windows, es)
  {
    windows := map[];
    for i := 0 to |es|
      invariant WindowsMatch(windows, es[..i])
    {
      var e := es[i];
      assert es[..i + 1] == es[..i] + [e];
      if e.engine != "" {
        WindowsStep(windows, es[..i], e);
        if e.wall.Some? { windows := Widen(windows, e.engine, e.wall.value); }
      } else {
        forall x ensures x != "" ==> (Timed(es[..i] + [e], x) <==> Timed(es[..i], x)) { TimedSnoc(es[..i], e, x); }
        forall x | x in windows
          ensures IsWindow(windows[x], es[..i] + [e], x) { WindowKeeps(windows[x], es[..i], e, x); }
      }
    }
    assert es[..|es|] == es;
  }

  /** Every event that names a message names the engine that logged it. */
  ghost predicate Attributed(es: seq<Sighting>) {
    forall e :: e in es && e.messages != [] ==> e.engine != ""
  }

  /** What `message_traces_from_events` says of one message: the engines split three ways, and
      the verdict. */
  ghost predicate TraceOk(t: Trace, es: seq<Sighting>, all: set<string>) {
    && t.engines == Observers(es, t.message)
    && t.engines + t.missedBy + t.absent == all
    && t.engines !! t.missedBy !! t.absent
    && (t.missedBy == {} || t.reference.Some?)
    && (forall x :: x in t.missedBy ==> ActiveAt(es, x, t.reference.value))
    && (t.reference.Some? ==> forall x :: x in t.absent ==> !ActiveAt(es, x, t.reference.value))
    && (t.divergent <==> t.engines != {} && t.missedBy != {})
  }

  method TraceMessage(es: seq<Sighting>, m: string, windows: map<string, Window>, all: set<string>) returns (t: Trace)
    requires WindowsMatch(windows, es) && EnginesMatch(all, es)
    ensures t.message == m && TraceOk(t, es, all) && IsLeastWall(t.reference, es, m)
    ensures Attributed(es) ==> (t.divergent <==> Diverges(es, m))
  {
    var observers := set e | e in es && e.engine != "" && m in e.messages :: e.engine;
    assert observers == Observers(es, m);
    var reference := LeastWall(es, m);
    var missed := PresentButMissing(observers, reference, windows, all);
    t := Trace(m, observers, missed, all - observers - missed, reference, IsDivergent(observers, observers + missed));
    assert observers + missed - observers == missed;
    TraceSplits(t, es, windows, all);
    if Attributed(es) { TraceIsRule(t, es, all); }
  }

  lemma {:induction false} TraceSplits(t: Trace, es: seq<Sighting>, windows: map<string, Window>, all: set<string>)
    requires WindowsMatch(windows, es) && EnginesMatch(all, es)
    requires t.engines == Observers(es, t.message) && t.missedBy == Missing(t.engines, t.reference, windows, all)
    requires t.absent == all - t.engines - t.missedBy && (t.divergent <==> t.engines != {} && t.missedBy != {})
    ensures TraceOk(t, es, all)
  {
    forall x | x in t.engines ensures x in all {
      var e :| e in es && Sights(e, t.message) && e.engine == x;
    }
    if t.reference.Some? {
      forall x | x in all ensures ActiveAt(es, x, t.reference.value) <==>
                x in windows && windows[x].first <= t.reference.value <= windows[x].last {
        WindowIsActivity(windows, es, x, t.reference.value);
      }
    }
  }

  lemma {:induction false} TraceIsRule(t: Trace, es: seq<Sighting>, all: set<string>)
    requires TraceOk(t, es, all) && IsLeastWall(t.reference, es, t.message) && EnginesMatch(all, es) && Attributed(es)
    ensures t.divergent <==> Diverges(es, t.message)
  {
    var m := t.message;
    assert forall e :: e in es && m in e.messages ==> Sights(e, m);
    if t.divergent {
      var x :| x in t.missedBy;
      var f :| f in es && m in f.messages && f.wall == t.reference;
      assert IsFirstSighting(f, es, m);
      assert x in all;
    }
    if Diverges(es, m) {
      var f, x :| IsFirstSighting(f, es, m) && x != "" && x !in Observers(es, m) && ActiveAt(es, x, f.wall.value);
      assert f.engine in t.engines;
      assert t.reference == f.wall;
      assert x in all;
      assert x in t.missedBy;
    }
  }

  ghost function DivergentTraces(traces: seq<Trace>): set<string> {
    set t | t in traces && t.divergent :: t.message
  }

  ghost predicate Ascending(ms: seq<string>) {
    forall i, j :: 0 <= i < j < |ms| ==> StringLeq(ms[i], ms[j]) && ms[i] != ms[j]
  }

  ghost predicate Named(es: seq<Sighting>, m: string) { exists e :: e in es && m in e.messages }

  lemma {:induction false} NamedSnoc(es: seq<Sighting>, e: Sighting, m: string)
    ensures Named(es + [e], m) <==> Named(es, m) || m in e.messages
  {
    assert forall f :: f in es + [e] <==> f in es || f == e;
  }

  /** Adds the new ones among `more`. */
  method AddNew(ms: seq<string>, more: seq<string>) returns (ms': seq<string>)
    requires forall i, j :: 0 <= i < j < |ms| ==> ms[i] != ms[j]
    ensures forall i, j :: 0 <= i < j < |ms'| ==> ms'[i] != ms'[j]
    ensures forall m :: m in ms' <==> m in ms || m in more
  {
    ms' := ms;
    for i := 0 to |more|
      invariant forall j, k :: 0 <= j < k < |ms'| ==> ms'[j] != ms'[k]
      invariant forall m :: m in ms' <==> m in ms || m in more[..i]
    {
      if more[i] !in ms' { ms' := ms' + [more[i]]; }
      assert more[..i + 1] == more[..i] + [more[i]];
    }
    assert more[..|more|] == more;
  }

  /** `sorted(by_msg)`: the messages any event names, each once, in ascending order. */
  method MessageIds(es: seq<Sighting>) returns (messages: seq<string>)
    ensures Ascending(messages)
    ensures forall m :: m in messages <==> Named(es, m)
  {
    var found: seq<string> := [];
    for i := 0 to |es|
      invariant forall j, k :: 0 <= j < k < |found| ==> found[j] != found[k]
      invariant forall m :: m in found <==> Named(es[..i], m)
    {
      found := AddNew(found, es[i].messages);
      assert es[..i + 1] == es[..i] + [es[i]];
      forall m
        ensures Named(es[..i + 1], m) <==> Named(es[..i], m) || m in es[i].messages { NamedSnoc(es[..i], es[i], m); }
    }
    assert es[..|es|] == es;
    messages := SortBy(found, StringLeq);
    StringOrder();
    SortContents(found, StringLeq);
    SortIsSorted(found, StringLeq);
    DistinctPermutation(found, messages);
  }

  /** The detail page: in ascending order one trace for each message any event names, and, when every event
      that names a message names its engine, exactly as many divergent traces as the persisted count. */
  method MessageTraces(es: seq<Sighting>, all: set<string>) returns (traces: seq<Trace>)
    requires EnginesMatch(all, es)
    ensures forall i, j :: 0 <= i < j < |traces| ==>
            StringLeq(traces[i].message, traces[j].message) && traces[i].message != traces[j].message
    ensures forall m :: Named(es, m) <==> exists t :: t in traces && t.message == m
    ensures forall t :: t in traces ==> TraceOk(t, es, all)
    ensures Attributed(es) ==> DivergentTraces(traces) == DivergentMessages(es)
  {
    var messages := MessageIds(es);
    var windows := EngineWindows(es);
    traces := [];
    for i := 0 to |messages|
      invariant |traces| == i && forall k :: 0 <= k < i ==> traces[k].message == messages[k]
      invariant forall t :: t in traces ==> TraceOk(t, es, all)
      invariant Attributed(es) ==> forall t :: t in traces ==> (t.divergent <==> Diverges(es, t.message))
    {
      var t := TraceMessage(es, messages[i], windows, all);
      traces := traces + [t];
    }
    TracesCover(traces, messages, es);
    if Attributed(es) { DivergentTracesAreMessages(traces, es); }
  }

  lemma {:induction false} TracesCover(traces: seq<Trace>, messages: seq<string>, es: seq<Sighting>)
    requires |traces| == |messages| && forall k :: 0 <= k < |traces| ==> traces[k].message == messages[k]
    requires forall m :: m in messages <==> Named(es, m)
    ensures forall m :: Named(es, m) <==> exists t :: t in traces && t.message == m
  {
    forall m ensures Named(es, m) <==> exists t :: t in traces && t.message == m {
      if m in messages {
        var i :| 0 <= i < |messages| && messages[i] == m;
        assert traces[i] in traces;
      }
    }
  }

  /** With one trace for each named message and the rule's verdict on each, the divergent traces are the
      divergent messages. */
  lemma {:induction false} DivergentTracesAreMessages(traces: seq<Trace>, es: seq<Sighting>)
    requires forall m :: Named(es, m) <==> exists t :: t in traces && t.message == m
    requires forall t :: t in traces ==> (t.divergent <==> Diverges(es, t.message))
    ensures DivergentTraces(traces) == DivergentMessages(es)
  {
    forall m ensures m in DivergentTraces(traces) <==> m in DivergentMessages(es) {
      if m in DivergentMessages(es) {
        var e :| e in es && e.engine != "" && m in e.messages;
        assert Named(es, m);
      }
      if m in DivergentTraces(traces) {
        var t :| t in traces && t.divergent && t.message == m;
        var f, x :| IsFirstSighting(f, es, m) && x != "" && x !in Observers(es, m) && ActiveAt(es, x, f.wall.value);
        assert m in Messages(es);
      }
    }
  }

  // --------------------------------------------------------------------- the matrix

  function AsSet(s: seq<string>): set<string> { set x | x in s }

  datatype Cell = ObservedCell | MissedCell | AbsentCell

  /** What a cell of the observation matrix claims about one engine and one message. */
  ghost predicate CellOk(c: Cell, es: seq<Sighting>, t: Trace, engine: string) {
    && (c.ObservedCell? <==> engine in Observers(es, t.message))
    && (c.MissedCell? <==> engine in t.missedBy)
    && (c.AbsentCell? <==> engine in t.absent)
  }

  /** One row of `message_observation_matrix`. The row is divergent exactly when it shows an observed and a missed
      cell, and then by the declared rule. */
  method MatrixRow(es: seq<Sighting>, m: string, windows: map<string, Window>, engines: seq<string>)
    returns (t: Trace, cells: seq<Cell>)
    requires WindowsMatch(windows, es) && EnginesMatch(AsSet(engines), es)
    ensures t.message == m && TraceOk(t, es, AsSet(engines))
    ensures |cells| == |engines| && forall i :: 0 <= i < |cells| ==> CellOk(cells[i], es, t, engines[i])
    ensures t.divergent <==> ObservedCell in cells && MissedCell in cells
    ensures Attributed(es) ==> (t.divergent <==> Diverges(es, m))
  {
    t := TraceMessage(es, m, windows, AsSet(engines));
    cells := [];
    for i := 0 to |engines|
      invariant |cells| == i && forall k :: 0 <= k < i ==> CellOk(cells[k], es, t, engines[k])
    {
      var x := engines[i];
      assert x in engines;
      cells := cells + [if x in t.engines then ObservedCell else if x in t.missedBy then MissedCell else AbsentCell];
    }
    CellsShowVerdict(t, es, engines, cells);
  }

  lemma {:induction false} CellsShowVerdict(t: Trace, es: seq<Sighting>, engines: seq<string>, cells: seq<Cell>)
    requires TraceOk(t, es, AsSet(engines))
    requires |cells| == |engines| && forall i :: 0 <= i < |cells| ==> CellOk(cells[i], es, t, engines[i])
    ensures t.divergent <==> ObservedCell in cells && MissedCell in cells
  {
    if t.divergent {
      var x, y :| x in t.engines && y in t.missedBy;
      assert x in engines && y in engines;
      var i :| 0 <= i < |engines| && engines[i] == x;
      var j :| 0 <= j < |engines| && engines[j] == y;
      assert CellOk(cells[i], es, t, engines[i]) && CellOk(cells[j], es, t, engines[j]);
    }
    if ObservedCell in cells && MissedCell in cells {
      var i :| 0 <= i < |cells| && cells[i] == ObservedCell;
      var j :| 0 <= j < |cells| && cells[j] == MissedCell;
      assert engines[i] in t.engines && engines[j] in t.missedBy;
    }
  }

  /** A row of the grid: one cell for each engine, and a verdict that the cells show. */
  ghost predicate GridRowOk(t: Trace, cells: seq<Cell>, es: seq<Sighting>, engines: seq<string>) {
    && TraceOk(t, es, AsSet(engines))
    && |cells| == |engines| && (forall i :: 0 <= i < |cells| ==> CellOk(cells[i], es, t, engines[i]))
    && (t.divergent <==> ObservedCell in cells && MissedCell in cells)
  }

  /** `message_observation_matrix`: in ascending order one row for each message any event names, every cell exact,
      and, on attributed events, as divergent rows exactly the divergent messages of the persisted count. */
  method ObservationMatrix(es: seq<Sighting>, engines: seq<string>) returns (traces: seq<Trace>, grid: seq<seq<Cell>>)
    requires EnginesMatch(AsSet(engines), es)
    ensures |grid| == |traces| && forall i :: 0 <= i < |grid| ==> GridRowOk(traces[i], grid[i], es, engines)
    ensures Ascending(Labels(traces))
    ensures forall m :: Named(es, m) <==> exists t :: t in traces && t.message == m
    ensures Attributed(es) ==> DivergentTraces(traces) == DivergentMessages(es)
  {
    var messages := MessageIds(es);
    var windows := EngineWindows(es);
    traces, grid := [], [];
    for i := 0 to |messages|
      invariant |traces| == |grid| == i && Labels(traces) == messages[..i]
      invariant forall k :: 0 <= k < i ==> GridRowOk(traces[k], grid[k], es, engines)
      invariant Attributed(es) ==> forall t :: t in traces ==> (t.divergent <==> Diverges(es, t.message))
    {
      var t, cells := MatrixRow(es, messages[i], windows, engines);
      LabelsSnoc(traces, t);
      assert messages[..i + 1] == messages[..i] + [messages[i]];
      traces, grid := traces + [t], grid + [cells];
    }
    assert messages[..|messages|] == messages;
    LabelsAt(traces);
    TracesCover(traces, messages, es);
    if Attributed(es) { DivergentTracesAreMessages(traces, es); }
  }

  function Labels(traces: seq<Trace>): seq<string> {
    if traces == [] then [] else Labels(traces[..|traces| - 1]) + [traces[|traces| - 1].message]
  }

  lemma {:induction false} LabelsSnoc(traces: seq<Trace>, t: Trace)
    ensures Labels(traces + [t]) == Labels(traces) + [t.message]
  {
    assert (traces + [t])[..|traces|] == traces;
  }

  lemma {:induction false} LabelsAt(traces: seq<Trace>)
    ensures |Labels(traces)| == |traces| && forall i :: 0 <= i < |traces| ==> Labels(traces)[i] == traces[i].message
  {
    if traces != [] { LabelsAt(traces[..|traces| - 1]); }
  }

  // ------------------------------------------------------------- without attribution

  /** The two verdicts on one message part. */
  ghost predicate VerdictsPart(es: seq<Sighting>, t: Trace, all: set<string>) {
    && EnginesMatch(all, es) && TraceOk(t, es, all) && IsLeastWall(t.reference, es, t.message)
    && t.divergent && !Diverges(es, t.message)
  }

  /** Without attribution the two pages can differ: an unattributed earlier copy moves the trace's
      reference time but not the aggregation's. */
  lemma {:induction false} UnattributedCopyParts(a: string, b: string, m: string)
    requires a != "" && b != "" && a != b
    ensures VerdictsPart([Sighting("", Some(1), [m]), Sighting(a, Some(9), [m]), Sighting(b, Some(1), [])],
                         Trace(m, {a}, {b}, {}, Some(1), true), {a, b})
  {
    var early, seen, other := Sighting("", Some(1), [m]), Sighting(a, Some(9), [m]), Sighting(b, Some(1), []);
    var es := [early, seen, other];
    assert early in es && seen in es && other in es;
    assert forall e :: e in es ==> e == early || e == seen || e == other;
    UnattributedDoesNotDiverge(es, early, seen, other, m);
    assert Observers(es, m) == {a} by { assert Sights(seen, m); }
    assert ActiveAt(es, b, 1);
  }

  lemma {:induction false} UnattributedDoesNotDiverge(es: seq<Sighting>, early: Sighting, seen: Sighting,
                                                      other: Sighting, m: string)
    requires forall e :: e in es ==> e == early || e == seen || e == other
    requires early.engine == "" && seen.engine != other.engine && seen.wall == Some(9) && other.wall == Some(1)
    requires seen in es && Sights(seen, m) && m !in other.messages
    ensures !Diverges(es, m)
  {
    forall f, x | IsFirstSighting(f, es, m) && x != "" && x !in Observers(es, m)
      ensures !ActiveAt(es, x, f.wall.value)
    {
      assert f == seen;
    }
  }
}
