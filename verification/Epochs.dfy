/** Epoch rows of the timeline: who confirmed, who initiated, who is still missing, and which
    confirmation is the commit (forensics/analysis.py). */
module Epochs {
  import opened Orders

  datatype Kind = EpochConfirmed | SendOutcome | OtherKind

  /** `engine` is the engine's index, absent when the event names none the timeline knows; `epoch` is
      `event_epoch`; `changesEpoch` says the result kind is one that changes the epoch; `refers`
      lists the epochs a fork, convergence, rollback or snapshot event refers to. */
  datatype Event = Event(
    id: nat,
    engine: Option<nat>,
    wall: Option<nat>,
    kind: Kind,
    toEpoch: Option<nat>,
    epoch: Option<nat>,
    localUser: bool,
    changesEpoch: bool,
    messages: seq<string>,
    refers: seq<nat>)

  datatype Role = Commit | Applied

  datatype Row = Row(
    number: nat,
    confirmed: bool,
    commit: Option<nat>,
    confirmers: set<nat>,
    initiators: set<nat>,
    unconfirmed: set<nat>)

  // ------------------------------------------------------------- the declared meaning

  predicate Confirms(e: Event, n: nat) { e.kind.EpochConfirmed? && e.toEpoch == Some(n) }

  ghost predicate CarriedAt(es: seq<Event>, m: string, n: nat) {
    exists f :: f in es && m in f.messages && f.epoch == Some(n)
  }

  /** A local user's action starts an epoch: named directly, or through a message seen at that epoch. */
  ghost predicate Initiates(es: seq<Event>, e: Event, n: nat) {
    && e.engine.Some? && e.localUser
    && (if e.toEpoch.Some? then e.toEpoch == Some(n)
        else e.kind.SendOutcome? && e.changesEpoch && exists m :: m in e.messages && CarriedAt(es, m, n))
  }

  /** `(t is None, t or 0, id)` */
  predicate ConfLeq(a: Event, b: Event) {
    if a.wall.None? != b.wall.None? then b.wall.None?
    else if a.wall != b.wall then a.wall.value < b.wall.value
    else a.id <= b.id
  }

  lemma {:induction false} ConfOrder()
    ensures TotalPreorder(ConfLeq)
  {
  }

  /** The earliest timed confirmation of the epoch: none has a smaller time, and none with the same time a
      smaller id. */
  ghost predicate IsCommit(e: Event, es: seq<Event>, n: nat) {
    && e in es && e.kind.EpochConfirmed? && e.toEpoch == Some(n) && e.wall.Some?
    && (forall f :: f in es && f.kind.EpochConfirmed? && f.toEpoch == Some(n) && f.wall.Some? ==>
          e.wall.value <= f.wall.value && (e.wall.value == f.wall.value ==> e.id <= f.id))
  }

  ghost predicate DistinctIds(es: seq<Event>) { forall e, f :: e in es && f in es && e.id == f.id ==> e == f }

  ghost predicate EnginesBelow(es: seq<Event>, count: nat) {
    forall e :: e in es && e.engine.Some? ==> e.engine.value < count
  }

  // ------------------------------------------------------------------ dictionaries

  function ConfsAt(confirmations: map<nat, seq<Event>>, n: nat): seq<Event> {
    if n in confirmations then confirmations[n] else []
  }

  function SetAt<K, V>(m: map<K, set<V>>, k: K): set<V> { if k in m then m[k] else {} }

  function ConfirmsEpoch(n: nat): Event -> bool { (e: Event) => Confirms(e, n) }

  /** `message_epochs` */
  method MessageEpochs(es: seq<Event>) returns (at: map<string, set<nat>>)
    ensures forall m, n :: n in SetAt(at, m) <==> CarriedAt(es, m, n)
  {
    at := map[];
    for i := 0 to |es|
      invariant forall m, n :: n in SetAt(at, m) <==> CarriedAt(es[..i], m, n)
    {
      var e := es[i];
      ghost var before := at;
      if e.epoch.Some? {
        at := AddEpoch(at, e.messages, e.epoch.value);
      }
      assert es[..i + 1] == es[..i] + [e];
      forall m, n ensures n in SetAt(at, m) <==> CarriedAt(es[..i + 1], m, n) {
        CarriedSnoc(es[..i], e, m, n);
        assert n in SetAt(before, m) <==> CarriedAt(es[..i], m, n);
      }
    }
    assert es[..|es|] == es;
  }

  lemma {:induction false} CarriedSnoc(es: seq<Event>, e: Event, m: string, n: nat)
    ensures CarriedAt(es + [e], m, n) <==> CarriedAt(es, m, n) || (m in e.messages && e.epoch == Some(n))
  {
    assert forall f :: f in es + [e] <==> f in es || f == e;
  }

  method AddEpoch(at: map<string, set<nat>>, messages: seq<string>, n: nat) returns (at': map<string, set<nat>>)
    ensures forall m, k :: k in SetAt(at', m) <==> k in SetAt(at, m) || (k == n && m in messages)
  {
    at' := at;
    for i := 0 to |messages|
      invariant forall m, k :: k in SetAt(at', m) <==> k in SetAt(at, m) || (k == n && m in messages[..i])
    {
      at' := at'[messages[i] := SetAt(at', messages[i]) + {n}];
      assert messages[..i + 1] == messages[..i] + [messages[i]];
    }
    assert messages[..|messages|] == messages;
  }

  /** `epoch_initiators_for_event`: the epochs this event starts. */
  method EpochsStarted(e: Event, at: map<string, set<nat>>, ghost es: seq<Event>) returns (ns: set<nat>)
    requires forall m, n :: n in SetAt(at, m) <==> CarriedAt(es, m, n)
    ensures forall n :: n in ns <==> Initiates(es, e, n)
  {
    ns := {};
    if e.engine.None? || !e.localUser { return; }
    if e.toEpoch.Some? { return {e.toEpoch.value}; }
    if !e.kind.SendOutcome? || !e.changesEpoch { return; }
    for i := 0 to |e.messages|
      invariant forall n :: n in ns <==> exists m :: m in e.messages[..i] && CarriedAt(es, m, n)
    {
      var m := e.messages[i];
      assert e.messages[..i + 1] == e.messages[..i] + [m];
      ghost var before := ns;
      ns := ns + SetAt(at, m);
      forall n ensures n in ns <==> exists x :: x in e.messages[..i + 1] && CarriedAt(es, x, n) {
        assert n in ns <==> n in before || CarriedAt(es, m, n);
        assert m in e.messages[..i + 1];
        if x :| x in e.messages[..i] && CarriedAt(es, x, n) { assert x in e.messages[..i + 1]; }
      }
    }
    assert e.messages[..|e.messages|] == e.messages;
  }

  /** The dictionaries after the main pass. */
  datatype Tables = Tables(confirmations: map<nat, seq<Event>>, initiators: map<nat, set<nat>>, referenced: set<nat>)

  ghost predicate InitiatedBy(all: seq<Event>, seen: seq<Event>, n: nat, engine: nat) {
    exists e :: e in seen && e.engine == Some(engine) && Initiates(all, e, n)
  }

  ghost predicate Refers(es: seq<Event>, n: nat) { exists e :: e in es && n in e.refers }

  ghost predicate TablesOk(t: Tables, all: seq<Event>, seen: seq<Event>) {
    && (forall n :: ConfsAt(t.confirmations, n) == Filter(seen, ConfirmsEpoch(n)))
    && (forall n :: n in t.confirmations ==> t.confirmations[n] != [])
    && (forall n, x :: x in SetAt(t.initiators, n) <==> InitiatedBy(all, seen, n, x))
    && (forall n :: n in t.initiators ==> t.initiators[n] != {})
    && (forall n :: n in t.referenced <==> Refers(seen, n))
  }

  method AddInitiator(initiators: map<nat, set<nat>>, ns: set<nat>, engine: nat)
    returns (initiators': map<nat, set<nat>>)
    requires forall n :: n in initiators ==> initiators[n] != {}
    ensures forall n, x :: x in SetAt(initiators', n) <==> x in SetAt(initiators, n) || (x == engine && n in ns)
    ensures forall n :: n in initiators' ==> initiators'[n] != {}
  {
    initiators' := initiators;
    var todo := ns;
    while todo != {}
      invariant todo <= ns
      invariant forall n, x :: x in SetAt(initiators', n) <==>
                x in SetAt(initiators, n) || (x == engine && n in ns && n !in todo)
      invariant forall n :: n in initiators' ==> initiators'[n] != {}
      decreases todo
    {
      var k :| k in todo;
      ghost var before := initiators';
      assert engine in SetAt(before, k) + {engine};
      initiators' := initiators'[k := SetAt(initiators', k) + {engine}];
      assert forall n :: SetAt(initiators', n) == if n == k then SetAt(before, k) + {engine} else SetAt(before, n);
      todo := todo - {k};
    }
  }

  method OneEvent(t: Tables, e: Event, at: map<string, set<nat>>, ghost all: seq<Event>, ghost seen: seq<Event>)
    returns (t': Tables)
    requires TablesOk(t, all, seen) && forall m, n :: n in SetAt(at, m) <==> CarriedAt(all, m, n)
    ensures TablesOk(t', all, seen + [e])
  {
    var ns := EpochsStarted(e, at, all);
    var initiators := t.initiators;
    if e.engine.Some? { initiators := AddInitiator(initiators, ns, e.engine.value); }
    var confirmations := t.confirmations;
    if e.kind.EpochConfirmed? && e.toEpoch.Some? {
      confirmations := confirmations[e.toEpoch.value := ConfsAt(confirmations, e.toEpoch.value) + [e]];
    }
    t' := Tables(confirmations, initiators, t.referenced + set n | n in e.refers);
    ConfirmationsSnoc(t.confirmations, seen, e, confirmations);
    InitiatorsSnoc(t.initiators, all, seen, e, ns, initiators);
    RefersSnoc(t.referenced, seen, e);
  }

  lemma {:induction false} ConfirmationsSnoc(before: map<nat, seq<Event>>, seen: seq<Event>, e: Event,
                                             after: map<nat, seq<Event>>)
    requires forall n :: ConfsAt(before, n) == Filter(seen, ConfirmsEpoch(n))
    requires forall n :: ConfsAt(after, n) == ConfsAt(before, n) + if Confirms(e, n) then [e] else []
    ensures forall n :: ConfsAt(after, n) == Filter(seen + [e], ConfirmsEpoch(n))
  {
    assert (seen + [e])[..|seen|] == seen;
  }

  lemma {:induction false} InitiatorsSnoc(before: map<nat, set<nat>>, all: seq<Event>, seen: seq<Event>, e: Event,
                                          ns: set<nat>, after: map<nat, set<nat>>)
    requires forall n, x :: x in SetAt(before, n) <==> InitiatedBy(all, seen, n, x)
    requires forall n :: n in ns <==> Initiates(all, e, n)
    requires forall n, x :: x in SetAt(after, n) <==> x in SetAt(before, n) || (e.engine == Some(x) && n in ns)
    ensures forall n, x :: x in SetAt(after, n) <==> InitiatedBy(all, seen + [e], n, x)
  {
    assert forall f :: f in seen + [e] <==> f in seen || f == e;
    forall n: nat, x: nat ensures x in SetAt(after, n) <==> InitiatedBy(all, seen + [e], n, x) {
      assert x in SetAt(before, n) <==> InitiatedBy(all, seen, n, x);
      if InitiatedBy(all, seen, n, x) {
        var f :| f in seen && f.engine == Some(x) && Initiates(all, f, n);
        assert f in seen + [e];
      }
      if e.engine == Some(x) && n in ns { assert e in seen + [e]; }
    }
  }

  lemma {:induction false} RefersSnoc(referenced: set<nat>, seen: seq<Event>, e: Event)
    requires forall n :: n in referenced <==> Refers(seen, n)
    ensures forall n :: n in referenced + (set n | n in e.refers) <==> Refers(seen + [e], n)
  {
    assert forall f :: f in seen + [e] <==> f in seen || f == e;
  }

  // -------------------------------------------------------------------------- rows

  ghost predicate RowOk(r: Row, es: seq<Event>, count: nat) {
    && (forall x :: x in r.confirmers <==> exists e :: e in es && Confirms(e, r.number) && e.engine == Some(x))
    && (forall x :: x in r.initiators <==> InitiatedBy(es, es, r.number, x))
    && (r.confirmed <==> exists e :: e in es && Confirms(e, r.number))
    && (r.commit.Some? <==> exists e :: e in es && Confirms(e, r.number) && e.wall.Some?)
    && (r.commit.Some? ==> exists e :: IsCommit(e, es, r.number) && r.commit == Some(e.id))
    && (r.confirmed ==> r.confirmers + r.initiators + r.unconfirmed == Range(count))
    && r.unconfirmed <= Range(count)
    && (r.confirmed ==> r.unconfirmed !! r.confirmers && r.unconfirmed !! r.initiators)
    && (!r.confirmed ==> r.unconfirmed == Range(count))
  }

  function Range(n: nat): (r: set<nat>)
    ensures forall x :: x in r <==> 0 <= x < n
  {
    if n == 0 then {} else Range(n - 1) + {n - 1}
  }

  /** The first timed confirmation in order, if any. */
  function FirstTimed(confs: seq<Event>): (first: Option<Event>)
    ensures first.Some? ==> first.value in confs && first.value.wall.Some?
    ensures first.None? ==> forall e :: e in confs ==> e.wall.None?
  {
    if confs == [] then None
    else if confs[0].wall.Some? then Some(confs[0])
    else
      assert confs == [confs[0]] + confs[1..];
      FirstTimed(confs[1..])
  }

  lemma {:induction false} FirstTimedLeast(confs: seq<Event>)
    requires Sorted(confs, ConfLeq)
    ensures FirstTimed(confs).Some? ==> forall e :: e in confs && e.wall.Some? ==> ConfLeq(FirstTimed(confs).value, e)
  {
    if confs != [] {
      assert confs == [confs[0]] + confs[1..];
      FirstTimedLeast(confs[1..]);
      forall e | e in confs && e.wall.Some? && confs[0].wall.Some? ensures ConfLeq(confs[0], e) {
        var k :| 0 <= k < |confs| && confs[k] == e;
        assert k == 0 || ConfLeq(confs[0], confs[k]);
      }
    }
  }

  lemma {:induction false} FirstIsCommit(es: seq<Event>, n: nat, confs: seq<Event>)
    requires confs == SortBy(Filter(es, ConfirmsEpoch(n)), ConfLeq)
    ensures forall e :: e in confs <==> e in es && Confirms(e, n)
    ensures FirstTimed(confs).Some? ==> IsCommit(FirstTimed(confs).value, es, n)
    ensures FirstTimed(confs).None? ==> forall e :: !IsCommit(e, es, n)
  {
    FilterMembers(es, ConfirmsEpoch(n));
    SortContents(Filter(es, ConfirmsEpoch(n)), ConfLeq);
    ConfOrder();
    SortIsSorted(Filter(es, ConfirmsEpoch(n)), ConfLeq);
    FirstTimedLeast(confs);
  }

  lemma {:induction false} CommitUnique(a: Event, b: Event, es: seq<Event>, n: nat)
    requires IsCommit(a, es, n) && IsCommit(b, es, n)
    ensures a.id == b.id
  {
  }

  /** One epoch's row, from its dictionaries. */
  method BuildRow(n: nat, confs: seq<Event>, initiators: set<nat>, count: nat, ghost es: seq<Event>) returns (r: Row)
    requires confs == SortBy(Filter(es, ConfirmsEpoch(n)), ConfLeq)
    requires forall x :: x in initiators <==> InitiatedBy(es, es, n, x)
    requires EnginesBelow(es, count)
    ensures r.number == n && RowOk(r, es, count)
  {
    FirstIsCommit(es, n, confs);
    var first := FirstTimed(confs);
    var confirmers := set e | e in confs && e.engine.Some? :: e.engine.value;
    var unconfirmed := if confs != [] then Range(count) - confirmers - initiators else Range(count);
    r := Row(n, confs != [], if first.Some? then Some(first.value.id) else None, confirmers, initiators, unconfirmed);
    assert confs != [] ==> confs[0] in confs;
    RowMeaning(r, confs, first, es, count);
  }

  lemma {:induction false} RowMeaning(r: Row, confs: seq<Event>, first: Option<Event>, es: seq<Event>, count: nat)
    requires forall e :: e in confs <==> e in es && Confirms(e, r.number)
    requires first.Some? ==> IsCommit(first.value, es, r.number)
    requires first.None? ==> forall e :: e in confs ==> e.wall.None?
    requires forall x :: x in r.initiators <==> InitiatedBy(es, es, r.number, x)
    requires EnginesBelow(es, count)
    requires r.confirmers == set e | e in confs && e.engine.Some? :: e.engine.value
    requires r.confirmed == (confs != []) && r.commit == (if first.Some? then Some(first.value.id) else None)
    requires r.unconfirmed == if confs != [] then Range(count) - r.confirmers - r.initiators else Range(count)
    requires confs != [] ==> confs[0] in confs
    ensures RowOk(r, es, count)
  {
    forall x ensures x in r.confirmers <==> exists e :: e in es && Confirms(e, r.number) && e.engine == Some(x) {
      if x in r.confirmers { var e :| e in confs && e.engine == Some(x); }
    }
    forall x | x in r.confirmers + r.initiators ensures x in Range(count) {
      if x in r.initiators { var e :| e in es && e.engine == Some(x) && Initiates(es, e, r.number); }
    }
    assert r.confirmed ==> r.confirmers + r.initiators + r.unconfirmed == Range(count);
  }

  /** The epochs that get a row. */
  ghost predicate Mentioned(es: seq<Event>, n: nat) {
    (exists e :: e in es && Confirms(e, n)) || (exists x :: InitiatedBy(es, es, n, x)) || Refers(es, n)
  }

  /** Every confirmation has a role: the commit is the earliest timed one of its epoch, all others are
      applied. */
  ghost predicate RolesOk(roles: map<nat, Role>, es: seq<Event>, numbers: set<nat>) {
    forall e, n :: e in es && n in numbers && Confirms(e, n) ==>
      e.id in roles && (roles[e.id] == Commit <==> IsCommit(e, es, n))
  }

  /** Roles of one epoch's confirmations; other epochs' roles are left alone. */
  method AssignRoles(roles: map<nat, Role>, confs: seq<Event>, n: nat, ghost es: seq<Event>, ghost done: set<nat>)
    returns (roles': map<nat, Role>)
    requires confs == SortBy(Filter(es, ConfirmsEpoch(n)), ConfLeq)
    requires DistinctIds(es) && n !in done && RolesOk(roles, es, done)
    ensures RolesOk(roles', es, done + {n})
  {
    var first := FirstTimed(confs);
    roles' := GiveRoles(roles, confs, first);
    FirstIsCommit(es, n, confs);
    RolesAssigned(roles, roles', confs, first, n, es, done);
  }

  /** The loop over one epoch's confirmations. */
  method GiveRoles(roles: map<nat, Role>, confs: seq<Event>, first: Option<Event>) returns (roles': map<nat, Role>)
    ensures forall e :: e in confs ==> e.id in roles' && roles'[e.id] == RoleOf(e, first)
    ensures forall id :: id !in Ids(confs) ==> SameRole(roles, roles', id)
  {
    roles' := roles;
    for i := 0 to |confs|
      invariant forall e :: e in confs[..i] ==> e.id in roles' && roles'[e.id] == RoleOf(e, first)
      invariant forall id :: id !in Ids(confs) ==> SameRole(roles, roles', id)
    {
      assert confs[i].id in Ids(confs);
      roles' := roles'[confs[i].id := RoleOf(confs[i], first)];
      assert confs[..i + 1] == confs[..i] + [confs[i]];
    }
    assert confs[..|confs|] == confs;
  }

  ghost function Ids(confs: seq<Event>): set<nat> { set e | e in confs :: e.id }

  ghost predicate SameRole(a: map<nat, Role>, b: map<nat, Role>, id: nat) {
    (id in a <==> id in b) && (id in a ==> a[id] == b[id])
  }

  function RoleOf(e: Event, first: Option<Event>): Role {
    if first.Some? && e.id == first.value.id then Commit else Applied
  }

  lemma {:induction false} RolesAssigned(roles: map<nat, Role>, roles': map<nat, Role>, confs: seq<Event>,
                                         first: Option<Event>, n: nat, es: seq<Event>, done: set<nat>)
    requires DistinctIds(es) && n !in done && RolesOk(roles, es, done)
    requires forall e :: e in confs <==> e in es && Confirms(e, n)
    requires first.Some? ==> IsCommit(first.value, es, n)
    requires first.None? ==> forall e :: !IsCommit(e, es, n)
    requires forall e :: e in confs ==> e.id in roles' && roles'[e.id] == RoleOf(e, first)
    requires forall id :: id !in Ids(confs) ==> SameRole(roles, roles', id)
    ensures RolesOk(roles', es, done + {n})
  {
    forall e, k | e in es && k in done + {n} && Confirms(e, k)
      ensures e.id in roles' && (roles'[e.id] == Commit <==> IsCommit(e, es, k))
    {
      if k == n {
        assert e in confs;
        if IsCommit(e, es, n) { CommitUnique(e, first.value, es, n); }
      } else {
        assert e.id !in Ids(confs) by { forall f | f in confs ensures f.id != e.id { assert f in es; } }
        assert SameRole(roles, roles', e.id);
      }
    }
  }

  /** `timeline_epochs`: in ascending order, one row for every epoch that is confirmed, initiated or referred to,
      and a role for every confirmation. */
  method TimelineEpochs(es: seq<Event>, count: nat) returns (rows: seq<Row>, roles: map<nat, Role>)
    requires DistinctIds(es) && EnginesBelow(es, count)
    ensures forall r :: r in rows ==> RowOk(r, es, count)
    ensures forall n :: Mentioned(es, n) <==> exists r :: r in rows && r.number == n
    ensures forall i, j :: 0 <= i < j < |rows| ==> rows[i].number < rows[j].number
    ensures forall e, n :: e in es && Confirms(e, n) ==>
              e.id in roles && (roles[e.id] == Commit <==> IsCommit(e, es, n))
  {
    var tables := CollectTables(es);
    MentionedNumbers(tables, es);
    var numbers := Ascending(tables.confirmations.Keys + tables.referenced + tables.initiators.Keys);
    rows, roles := [], map[];
    for i := 0 to |numbers|
      invariant |rows| == i && forall k :: 0 <= k < i ==> rows[k].number == numbers[k] && RowOk(rows[k], es, count)
      invariant RolesOk(roles, es, NumberSet(numbers[..i]))
    {
      var n := numbers[i];
      var confs := SortBy(ConfsAt(tables.confirmations, n), ConfLeq);
      NotYet(numbers, i);
      roles := AssignRoles(roles, confs, n, es, NumberSet(numbers[..i]));
      var row := BuildRow(n, confs, SetAt(tables.initiators, n), count, es);
      rows := rows + [row];
    }
    assert numbers[..|numbers|] == numbers;
    RowsCover(rows, numbers, es);
    forall e, n | e in es && Confirms(e, n) ensures n in numbers { assert Mentioned(es, n); }
  }

  ghost function NumberSet(numbers: seq<nat>): set<nat> { set n | n in numbers }

  lemma {:induction false} NotYet(numbers: seq<nat>, i: nat)
    requires i < |numbers| && forall j, k :: 0 <= j < k < |numbers| ==> numbers[j] < numbers[k]
    ensures numbers[i] !in numbers[..i]
    ensures NumberSet(numbers[..i + 1]) == NumberSet(numbers[..i]) + {numbers[i]}
  {
    assert numbers[..i + 1] == numbers[..i] + [numbers[i]];
  }

  lemma {:induction false} RowsCover(rows: seq<Row>, numbers: seq<nat>, es: seq<Event>)
    requires |rows| == |numbers| && forall k :: 0 <= k < |rows| ==> rows[k].number == numbers[k]
    requires forall n :: n in numbers <==> Mentioned(es, n)
    ensures forall n :: Mentioned(es, n) <==> exists r :: r in rows && r.number == n
  {
    forall n ensures Mentioned(es, n) <==> exists r :: r in rows && r.number == n {
      if n in numbers {
        var k :| 0 <= k < |numbers| && numbers[k] == n;
        assert rows[k] in rows;
      }
    }
  }

  /** `sorted(numbers)` of a set. */
  method Ascending(numbers: set<nat>) returns (s: seq<nat>)
    ensures forall n :: n in s <==> n in numbers
    ensures forall i, j :: 0 <= i < j < |s| ==> s[i] < s[j]
  {
    s := [];
    var todo := numbers;
    while todo != {}
      invariant todo <= numbers && forall n :: n in s <==> n in numbers - todo
      invariant forall i, j :: 0 <= i < j < |s| ==> s[i] < s[j]
      invariant forall i, n :: 0 <= i < |s| && n in todo ==> s[i] < n
      decreases todo
    {
      var n := Least(todo);
      s, todo := s + [n], todo - {n};
    }
  }

  lemma {:induction false} HasLeast(s: set<nat>, x: nat) returns (n: nat)
    requires x in s
    ensures n in s && forall k :: k in s ==> n <= k
    decreases x
  {
    if k :| k in s && k < x { n := HasLeast(s, k); } else { n := x; }
  }

  lemma {:induction false} LeastExists(s: set<nat>)
    requires s != {}
    ensures exists n :: n in s && forall k :: k in s ==> n <= k
  {
    var x :| x in s;
    var n := HasLeast(s, x);
  }

  function Least(s: set<nat>): (n: nat)
    requires s != {}
    ensures n in s && forall k :: k in s ==> n <= k
  {
    LeastExists(s);
    var n :| n in s && forall k :: k in s ==> n <= k;
    n
  }

  /** The main pass over the events. */
  method CollectTables(es: seq<Event>) returns (t: Tables)
    ensures TablesOk(t, es, es)
  {
    var at := MessageEpochs(es);
    t := Tables(map[], map[], {});
    for i := 0 to |es|
      invariant TablesOk(t, es, es[..i])
    {
      t := OneEvent(t, es[i], at, es, es[..i]);
      assert es[..i + 1] == es[..i] + [es[i]];
    }
    assert es[..|es|] == es;
  }

  lemma {:induction false} MentionedNumbers(t: Tables, es: seq<Event>)
    requires TablesOk(t, es, es)
    ensures forall n :: n in t.confirmations.Keys + t.referenced + t.initiators.Keys <==> Mentioned(es, n)
  {
    forall n: nat ensures n in t.confirmations <==> exists e :: e in es && Confirms(e, n) {
      FilterMembers(es, ConfirmsEpoch(n));
      var f := Filter(es, ConfirmsEpoch(n));
      assert ConfsAt(t.confirmations, n) == f;
      if n in t.confirmations { assert f[0] in f; }
    }
    forall n: nat ensures n in t.initiators <==> exists x :: InitiatedBy(es, es, n, x) {
      if n in t.initiators { var x :| x in t.initiators[n]; assert x in SetAt(t.initiators, n); }
      if x :| InitiatedBy(es, es, n, x) { assert x in SetAt(t.initiators, n); }
    }
  }
}
