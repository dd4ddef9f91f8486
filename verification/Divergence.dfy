/** Message divergence: the streaming aggregation behind the persisted count, the trace
    computation behind the detail page and the frozen migration copy, all against one
    declarative rule (forensics/analysis.py). */
module Divergence {
  import opened Orders

  /** One stored event of a group as the analysis reads it; `engine == ""` when it names none. */
  datatype Sighting = Sighting(engine: string, wall: Option<nat>, messages: seq<string>)

  // ------------------------------------------------------------ the declared rule

  ghost predicate Sights(e: Sighting, m: string) { e.engine != "" && m in e.messages }

  ghost function Observers(es: seq<Sighting>, m: string): set<string> {
    set e | e in es && Sights(e, m) :: e.engine
  }

  /** The earliest timed sighting of the message by an engine. */
  ghost predicate IsFirstSighting(f: Sighting, es: seq<Sighting>, m: string) {
    && f in es && Sights(f, m) && f.wall.Some?
    && (forall e :: e in es && Sights(e, m) && e.wall.Some? ==> f.wall.value <= e.wall.value)
  }

  /** The engine logged something at or before, and something at or after, this instant. */
  ghost predicate ActiveAt(es: seq<Sighting>, engine: string, at: nat) {
    exists a, b :: a in es && b in es && a.engine == engine == b.engine && a.wall.Some? && b.wall.Some? &&
                   a.wall.value <= at <= b.wall.value
  }

  /** Some engine that never saw the message was active when it was first seen. */
  ghost predicate Diverges(es: seq<Sighting>, m: string) {
    exists f, x :: IsFirstSighting(f, es, m) && x != "" && x !in Observers(es, m) && ActiveAt(es, x, f.wall.value)
  }

  ghost function Messages(es: seq<Sighting>): set<string> {
    set e, m | e in es && e.engine != "" && m in e.messages :: m
  }

  ghost function DivergentMessages(es: seq<Sighting>): set<string> {
    set m | m in Messages(es) && Diverges(es, m)
  }

  /** The rule looks only at which events exist, never at their order or multiplicity. */
  lemma {:induction false} CountIgnoresOrder(a: seq<Sighting>, b: seq<Sighting>)
    requires forall e :: e in a <==> e in b
    ensures DivergentMessages(a) == DivergentMessages(b)
  {
    assert Messages(a) == Messages(b);
    forall m ensures Diverges(a, m) <==> Diverges(b, m) {
      assert Observers(a, m) == Observers(b, m);
      forall f ensures IsFirstSighting(f, a, m) <==> IsFirstSighting(f, b, m) {}
      forall x, at ensures ActiveAt(a, x, at) <==> ActiveAt(b, x, at) {}
    }
  }

  // ------------------------------------------------------ the running aggregates

  datatype Window = Window(first: nat, last: nat)

  datatype Aggregates = Aggregates(
    engines: set<string>,
    windows: map<string, Window>,
    observers: map<string, set<string>>,
    references: map<string, nat>)

  const EMPTY_AGGREGATES := Aggregates({}, map[], map[], map[])

  ghost predicate Timed(es: seq<Sighting>, engine: string) {
    exists e :: e in es && e.engine == engine && e.wall.Some?
  }

  ghost predicate IsWindow(w: Window, es: seq<Sighting>, engine: string) {
    && (exists e :: e in es && e.engine == engine && e.wall == Some(w.first))
    && (exists e :: e in es && e.engine == engine && e.wall == Some(w.last))
    && (forall e :: e in es && e.engine == engine && e.wall.Some? ==> w.first <= e.wall.value <= w.last)
  }

  ghost predicate WindowsMatch(windows: map<string, Window>, es: seq<Sighting>) {
    && (forall x :: x in windows <==> x != "" && Timed(es, x))
    && (forall x :: x in windows ==> IsWindow(windows[x], es, x))
  }

  ghost predicate EnginesMatch(engines: set<string>, es: seq<Sighting>) {
    forall x :: x in engines <==> x != "" && exists e :: e in es && e.engine == x
  }

  ghost predicate ObserversMatchAt(observers: map<string, set<string>>, m: string, seen: set<string>) {
    if m in observers then seen != {} && observers[m] == seen else seen == {}
  }

  ghost predicate IsReference(references: map<string, nat>, es: seq<Sighting>, m: string) {
    if m in references then exists f :: IsFirstSighting(f, es, m) && f.wall == Some(references[m])
    else forall e :: e in es && Sights(e, m) ==> e.wall.None?
  }

  /** The aggregates describe exactly the events streamed so far. */
  ghost predicate Describes(agg: Aggregates, es: seq<Sighting>) {
    && EnginesMatch(agg.engines, es)
    && WindowsMatch(agg.windows, es)
    && (forall m :: ObserversMatchAt(agg.observers, m, Observers(es, m)))
    && (forall m :: IsReference(agg.references, es, m))
  }

  function Widen(windows: map<string, Window>, engine: string, at: nat): map<string, Window> {
    var w := if engine in windows then windows[engine] else Window(at, at);
    windows[engine := Window(if at < w.first then at else w.first, if at > w.last then at else w.last)]
  }

  lemma {:induction false} WindowsStep(windows: map<string, Window>, es: seq<Sighting>, e: Sighting)
    requires WindowsMatch(windows, es) && e.engine != ""
    ensures e.wall.Some? ==> WindowsMatch(Widen(windows, e.engine, e.wall.value), es + [e])
    ensures e.wall.None? ==> WindowsMatch(windows, es + [e])
  {
    forall x ensures Timed(es + [e], x) <==> Timed(es, x) || (x == e.engine && e.wall.Some?) {
      TimedSnoc(es, e, x);
    }
    forall x | x in windows && (x != e.engine || e.wall.None?) ensures IsWindow(windows[x], es + [e], x) {
      WindowKeeps(windows[x], es, e, x);
    }
    if e.wall.Some? {
      if e.engine in windows {
        WindowGrows(windows[e.engine], es, e);
      } else {
        assert e in es + [e];
        assert IsWindow(Window(e.wall.value, e.wall.value), es + [e], e.engine);
      }
    }
  }

  lemma {:induction false} TimedSnoc(es: seq<Sighting>, e: Sighting, x: string)
    ensures Timed(es + [e], x) <==> Timed(es, x) || (x == e.engine && e.wall.Some?)
  {
    assert e in es + [e];
    assert forall y :: y in es ==> y in es + [e];
  }

  lemma {:induction false} WindowKeeps(w: Window, es: seq<Sighting>, e: Sighting, x: string)
    requires IsWindow(w, es, x) && (x != e.engine || e.wall.None?)
    ensures IsWindow(w, es + [e], x)
  {
    assert forall y :: y in es ==> y in es + [e];
  }

  lemma {:induction false} WindowGrows(w: Window, es: seq<Sighting>, e: Sighting)
    requires IsWindow(w, es, e.engine) && e.wall.Some?
    ensures var at := e.wall.value;
      IsWindow(Window(if at < w.first then at else w.first, if at > w.last then at else w.last), es + [e], e.engine)
  {
    assert e in es + [e];
    assert forall y :: y in es ==> y in es + [e];
  }

  lemma {:induction false} ObserversSnoc(es: seq<Sighting>, e: Sighting, m: string)
    ensures Observers(es + [e], m) == Observers(es, m) + if Sights(e, m) then {e.engine} else {}
  {
    assert forall y :: y in es + [e] <==> y in es || y == e;
    if Sights(e, m) { assert e in es + [e]; }
    forall x | x in Observers(es, m) ensures x in Observers(es + [e], m) {
      var y :| y in es && Sights(y, m) && y.engine == x;
      assert y in es + [e];
    }
  }

  lemma {:induction false} ReferenceKeeps(references: map<string, nat>, es: seq<Sighting>, e: Sighting, m: string)
    requires IsReference(references, es, m)
    requires !Sights(e, m) || e.wall.None? || (m in references && references[m] <= e.wall.value)
    ensures IsReference(references, es + [e], m)
  {
    assert forall y :: y in es + [e] <==> y in es || y == e;
    if m in references {
      var f :| IsFirstSighting(f, es, m) && f.wall == Some(references[m]);
      assert IsFirstSighting(f, es + [e], m);
    }
  }

  lemma {:induction false} ReferenceLowers(references: map<string, nat>, es: seq<Sighting>, e: Sighting, m: string)
    requires IsReference(references, es, m) && Sights(e, m) && e.wall.Some?
    requires m in references ==> e.wall.value < references[m]
    ensures IsReference(references[m := e.wall.value], es + [e], m)
  {
    assert forall y :: y in es + [e] <==> y in es || y == e;
    assert IsFirstSighting(e, es + [e], m);
  }

  // ------------------------------------------------------------------ streaming

  /** What the observer and reference dictionaries hold while `e`'s first `k` message ids are done. */
  ghost predicate PartlyObserved(agg: Aggregates, es: seq<Sighting>, e: Sighting, done: seq<string>, m: string) {
    if m in done then
      ObserversMatchAt(agg.observers, m, Observers(es + [e], m)) && IsReference(agg.references, es + [e], m)
    else
      ObserversMatchAt(agg.observers, m, Observers(es, m)) && IsReference(agg.references, es, m)
  }

  /** One row of the stream. */
  method Observe(agg: Aggregates, e: Sighting, ghost es: seq<Sighting>) returns (agg': Aggregates)
    requires Describes(agg, es)
    ensures Describes(agg', es + [e])
  {
    if e.engine == "" {
      UnattributedKeeps(agg, es, e);
      return agg;
    }
    WindowsStep(agg.windows, es, e);
    var windows := if e.wall.Some? then Widen(agg.windows, e.engine, e.wall.value) else agg.windows;
    agg' := Aggregates(agg.engines + {e.engine}, windows, agg.observers, agg.references);
    assert EnginesMatch(agg'.engines, es + [e]) by { EnginesSnoc(agg.engines, es, e); }
    for k := 0 to |e.messages|
      invariant agg'.engines == agg.engines + {e.engine} && agg'.windows == windows
      invariant forall m :: PartlyObserved(agg', es, e, e.messages[..k], m)
    {
      var m := e.messages[k];
      ghost var before := agg';
      var seen := if m in agg'.observers then agg'.observers[m] else {};
      agg' := agg'.(observers := agg'.observers[m := seen + {e.engine}]);
      if e.wall.Some? && (m !in agg'.references || e.wall.value < agg'.references[m]) {
        agg' := agg'.(references := agg'.references[m := e.wall.value]);
      }
      assert e.messages[..k + 1] == e.messages[..k] + [m];
      OneMessage(before, agg', es, e, e.messages[..k], m);
    }
    assert e.messages[..|e.messages|] == e.messages;
    forall m
      ensures ObserversMatchAt(agg'.observers, m, Observers(es + [e], m)) && IsReference(agg'.references, es + [e], m)
    {
      assert PartlyObserved(agg', es, e, e.messages[..|e.messages|], m);
      if m !in e.messages {
        ObserversSnoc(es, e, m);
        ReferenceKeeps(agg'.references, es, e, m);
      }
    }
  }

  lemma {:induction false} EnginesSnoc(engines: set<string>, es: seq<Sighting>, e: Sighting)
    requires EnginesMatch(engines, es) && e.engine != ""
    ensures EnginesMatch(engines + {e.engine}, es + [e])
  {
    assert forall y :: y in es + [e] <==> y in es || y == e;
    assert e in es + [e];
  }

  lemma {:induction false} UnattributedKeeps(agg: Aggregates, es: seq<Sighting>, e: Sighting)
    requires Describes(agg, es) && e.engine == ""
    ensures Describes(agg, es + [e])
  {
    assert forall y :: y in es + [e] <==> y in es || y == e;
    forall x ensures x != "" ==> (Timed(es + [e], x) <==> Timed(es, x)) { TimedSnoc(es, e, x); }
    forall x | x in agg.windows ensures IsWindow(agg.windows[x], es + [e], x) { WindowKeeps(agg.windows[x], es, e, x); }
    forall m
      ensures ObserversMatchAt(agg.observers, m, Observers(es + [e], m)) && IsReference(agg.references, es + [e], m)
    {
      ObserversSnoc(es, e, m);
      ReferenceKeeps(agg.references, es, e, m);
    }
  }

  lemma {:induction false} OneMessage(before: Aggregates, after: Aggregates, es: seq<Sighting>, e: Sighting,
                                      done: seq<string>, m: string)
    requires e.engine != "" && m in e.messages && forall x :: PartlyObserved(before, es, e, done, x)
    requires after.observers ==
             before.observers[m := (if m in before.observers then before.observers[m] else {}) + {e.engine}]
    requires after.references ==
             if e.wall.Some? && (m !in before.references || e.wall.value < before.references[m])
             then before.references[m := e.wall.value] else before.references
    ensures forall x :: PartlyObserved(after, es, e, done + [m], x)
  {
    forall x ensures PartlyObserved(after, es, e, done + [m], x) {
      assert PartlyObserved(before, es, e, done, x);
      assert x in done + [m] <==> x in done || x == m;
      if x == m {
        ObserversSnoc(es, e, m);
        if m in done {
          assert Observers(es + [e], m) + {e.engine} == Observers(es + [e], m);
          if m in before.references {
            var f :| IsFirstSighting(f, es + [e], m) && f.wall == Some(before.references[m]);
            assert e in es + [e];
          } else {
            assert e in es + [e];
          }
        } else if after.references == before.references {
          ReferenceKeeps(before.references, es, e, m);
        } else {
          ReferenceLowers(before.references, es, e, m);
        }
      }
    }
  }

  // -------------------------------------------------------------- the predicate

  /** `engines_present_but_missing` */
  method PresentButMissing(observers: set<string>, reference: Option<nat>, windows: map<string, Window>,
                           all: set<string>)
    returns (missing: set<string>)
    ensures missing == Missing(observers, reference, windows, all)
  {
    missing := {};
    if reference.None? { return; }
    var todo := all;
    while todo != {}
      invariant todo <= all
      invariant missing == Missing(observers, reference, windows, all - todo)
      decreases todo
    {
      var x :| x in todo;
      todo := todo - {x};
      if x !in observers && x in windows && windows[x].first <= reference.value <= windows[x].last {
        missing := missing + {x};
      }
    }
    assert all - todo == all;
  }

  function Missing(observers: set<string>, reference: Option<nat>, windows: map<string, Window>,
                   all: set<string>): set<string> {
    if reference.None? then {}
    else set x | x in all && x !in observers && x in windows && windows[x].first <= reference.value <= windows[x].last
  }

  /** `is_divergent_message` over the observers and the engines in scope. */
  predicate IsDivergent(observed: set<string>, inScope: set<string>) { observed != {} && inScope - observed != {} }

  function Lookup(m: map<string, nat>, k: string): Option<nat> { if k in m then Some(m[k]) else None }

  lemma {:induction false} WindowIsActivity(windows: map<string, Window>, es: seq<Sighting>, x: string, at: nat)
    requires WindowsMatch(windows, es) && x != ""
    ensures ActiveAt(es, x, at) <==> x in windows && windows[x].first <= at <= windows[x].last
  {
    if x in windows && windows[x].first <= at <= windows[x].last {
      var a :| a in es && a.engine == x && a.wall == Some(windows[x].first);
      var b :| b in es && b.engine == x && b.wall == Some(windows[x].last);
    }
  }

  /** The computed verdict is the declared one. */
  lemma {:induction false} VerdictIsRule(agg: Aggregates, es: seq<Sighting>, m: string)
    requires Describes(agg, es) && m in agg.observers
    ensures var missing := Missing(agg.observers[m], Lookup(agg.references, m), agg.windows, agg.engines);
      && (IsDivergent(agg.observers[m], agg.observers[m] + missing) <==> Diverges(es, m))
      && (missing != {} <==> Diverges(es, m))
  {
    var observers := agg.observers[m];
    var missing := Missing(observers, Lookup(agg.references, m), agg.windows, agg.engines);
    assert ObserversMatchAt(agg.observers, m, Observers(es, m));
    assert IsReference(agg.references, es, m);
    assert observers + missing - observers == missing;
    if missing != {} { MissingDiverges(agg.engines, agg.windows, agg.references, es, m); }
    if Diverges(es, m) { DivergingIsMissing(agg.engines, agg.windows, agg.references, es, m); }
  }

  lemma {:induction false} MissingDiverges(engines: set<string>, windows: map<string, Window>,
                                           references: map<string, nat>, es: seq<Sighting>, m: string)
    requires EnginesMatch(engines, es) && WindowsMatch(windows, es) && IsReference(references, es, m)
    requires Missing(Observers(es, m), Lookup(references, m), windows, engines) != {}
    ensures Diverges(es, m)
  {
    var x :| x in Missing(Observers(es, m), Lookup(references, m), windows, engines);
    var f :| IsFirstSighting(f, es, m) && f.wall == Some(references[m]);
    WindowIsActivity(windows, es, x, f.wall.value);
  }

  lemma {:induction false} DivergingIsMissing(engines: set<string>, windows: map<string, Window>,
                                              references: map<string, nat>, es: seq<Sighting>, m: string)
    requires EnginesMatch(engines, es) && WindowsMatch(windows, es) && IsReference(references, es, m) && Diverges(es, m)
    ensures Missing(Observers(es, m), Lookup(references, m), windows, engines) != {}
  {
    var f, x :| IsFirstSighting(f, es, m) && x != "" && x !in Observers(es, m) && ActiveAt(es, x, f.wall.value);
    ReferenceIsFirst(references, es, m, f);
    ActiveIsMissing(engines, windows, es, x, Observers(es, m), f.wall.value);
    assert Lookup(references, m) == Some(f.wall.value);
  }

  lemma {:induction false} ActiveIsMissing(engines: set<string>, windows: map<string, Window>, es: seq<Sighting>,
                                           x: string, observers: set<string>, at: nat)
    requires EnginesMatch(engines, es) && WindowsMatch(windows, es)
    requires x != "" && x !in observers && ActiveAt(es, x, at)
    ensures x in Missing(observers, Some(at), windows, engines)
  {
    WindowIsActivity(windows, es, x, at);
  }

  lemma {:induction false} ReferenceIsFirst(references: map<string, nat>, es: seq<Sighting>, m: string, f: Sighting)
    requires IsReference(references, es, m) && IsFirstSighting(f, es, m)
    ensures m in references && f.wall == Some(references[m])
  {
    assert m in references;
    var g :| IsFirstSighting(g, es, m) && g.wall == Some(references[m]);
    assert f.wall.value == g.wall.value;
  }

  lemma {:induction false} ObservedAreMessages(agg: Aggregates, es: seq<Sighting>)
    requires Describes(agg, es)
    ensures agg.observers.Keys == Messages(es)
  {
    forall m ensures m in agg.observers <==> m in Messages(es) {
      assert ObserversMatchAt(agg.observers, m, Observers(es, m));
      if m in Messages(es) {
        var e :| e in es && e.engine != "" && m in e.messages;
        assert Sights(e, m) && e.engine in Observers(es, m);
      }
      if m in agg.observers {
        var x :| x in Observers(es, m);
        var e :| e in es && Sights(e, m) && e.engine == x;
      }
    }
  }
}
