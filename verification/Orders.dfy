/** Small vocabulary shared by every module: optional values, stable sorting by a
    total preorder (SQL `ORDER BY`, Python `sorted`), filtering, and string order. */
module Orders {

  datatype Option<+T> = None | Some(value: T)

  lemma {:induction false} TakeSnoc<T(!new)>(before: seq<T>, s: seq<T>, i: nat)
    requires i < |s|
    ensures before + s[..i] + [s[i]] == before + s[..i + 1]
  {
  }

  // ---------------------------------------------------------------- sorting

  ghost predicate TotalPreorder<T(!new)>(leq: (T, T) -> bool) {
    && (forall a, b :: leq(a, b) || leq(b, a))
    && (forall a, b, c :: leq(a, b) && leq(b, c) ==> leq(a, c))
  }

  ghost predicate Sorted<T(!new)>(s: seq<T>, leq: (T, T) -> bool) {
    forall i, j :: 0 <= i < j < |s| ==> leq(s[i], s[j])
  }

  /** Stable insertion: `x` goes after every element that is not greater. */
  function Insert<T>(x: T, s: seq<T>, leq: (T, T) -> bool): seq<T> {
    if s == [] then [x]
    else if !leq(s[0], x) then [x] + s
    else [s[0]] + Insert(x, s[1..], leq)
  }

  function SortBy<T>(s: seq<T>, leq: (T, T) -> bool): seq<T> {
    if s == [] then [] else Insert(s[|s| - 1], SortBy(s[..|s| - 1], leq), leq)
  }

  function Filter<T>(s: seq<T>, p: T -> bool): seq<T> {
    if s == [] then []
    else Filter(s[..|s| - 1], p) + (if p(s[|s| - 1]) then [s[|s| - 1]] else [])
  }

  lemma {:induction false} InsertContents<T(!new)>(x: T, s: seq<T>, leq: (T, T) -> bool)
    ensures multiset(Insert(x, s, leq)) == multiset(s) + multiset{x}
    ensures |Insert(x, s, leq)| == |s| + 1
  {
    if s != [] {
      assert s == [s[0]] + s[1..];
      InsertContents(x, s[1..], leq);
    }
  }

  lemma {:induction false} SortContents<T(!new)>(s: seq<T>, leq: (T, T) -> bool)
    ensures multiset(SortBy(s, leq)) == multiset(s)
    ensures forall x :: x in SortBy(s, leq) <==> x in s
  {
    if s != [] {
      var n := |s| - 1;
      assert s == s[..n] + [s[n]];
      SortContents(s[..n], leq);
      InsertContents(s[n], SortBy(s[..n], leq), leq);
    }
    SameMembers(SortBy(s, leq), s);
  }

  lemma {:induction false} SameMembers<T(!new)>(a: seq<T>, b: seq<T>)
    requires multiset(a) == multiset(b)
    ensures forall x :: x in a <==> x in b
  {
    forall x ensures x in a <==> x in b {
      assert x in a <==> x in multiset(a);
      assert x in b <==> x in multiset(b);
    }
  }

  lemma {:induction false} InsertKeepsSorted<T(!new)>(x: T, s: seq<T>, leq: (T, T) -> bool)
    requires TotalPreorder(leq) && Sorted(s, leq)
    ensures Sorted(Insert(x, s, leq), leq)
  {
    if s != [] && leq(s[0], x) {
      var t := Insert(x, s[1..], leq);
      InsertKeepsSorted(x, s[1..], leq);
      InsertContents(x, s[1..], leq);
      forall j | 0 <= j < |t| ensures leq(s[0], t[j]) {
        assert t[j] in multiset(t);
        assert t[j] == x || t[j] in multiset(s[1..]);
        if t[j] != x { assert t[j] in s[1..]; }
      }
    }
  }

  lemma {:induction false} SortIsSorted<T(!new)>(s: seq<T>, leq: (T, T) -> bool)
    requires TotalPreorder(leq)
    ensures Sorted(SortBy(s, leq), leq)
  {
    if s != [] {
      SortIsSorted(s[..|s| - 1], leq);
      InsertKeepsSorted(s[|s| - 1], SortBy(s[..|s| - 1], leq), leq);
    }
  }

  /** Insertion passes over a prefix that holds nothing greater. */
  lemma {:induction false} InsertAfter<T(!new)>(x: T, a: seq<T>, b: seq<T>, leq: (T, T) -> bool)
    requires forall y :: y in a ==> leq(y, x)
    ensures Insert(x, a + b, leq) == a + Insert(x, b, leq)
  {
    if a == [] {
      assert a + b == b;
    } else {
      assert a[0] in a;
      assert (a + b)[0] == a[0] && (a + b)[1..] == a[1..] + b;
      InsertAfter(x, a[1..], b, leq);
    }
  }

  /** A chronological append: sorting the union is sorting the parts and joining them. */
  lemma {:induction false} SortAppend<T(!new)>(s: seq<T>, t: seq<T>, leq: (T, T) -> bool)
    requires forall a, b :: a in s && b in t ==> leq(a, b)
    ensures SortBy(s + t, leq) == SortBy(s, leq) + SortBy(t, leq)
  {
    if t == [] {
      assert s + t == s;
    } else {
      var n := |t| - 1;
      assert t == t[..n] + [t[n]] && t[n] in t;
      assert (s + t)[..|s + t| - 1] == s + t[..n];
      SortAppend(s, t[..n], leq);
      SortContents(s, leq);
      forall y | y in SortBy(s, leq) ensures leq(y, t[n]) { assert y in s; }
      InsertAfter(t[n], SortBy(s, leq), SortBy(t[..n], leq), leq);
    }
  }

  // -------------------------------------------------------------- filtering

  lemma {:induction false} FilterConcat<T(!new)>(a: seq<T>, b: seq<T>, p: T -> bool)
    ensures Filter(a + b, p) == Filter(a, p) + Filter(b, p)
  {
    if b == [] {
      assert a + b == a;
    } else {
      var n := |b| - 1;
      assert (a + b)[..|a + b| - 1] == a + b[..n];
      FilterConcat(a, b[..n], p);
    }
  }

  lemma {:induction false} FilterOne<T(!new)>(e: T, p: T -> bool)
    ensures Filter([e], p) == if p(e) then [e] else []
  {
    assert [e][..0] == [];
    assert Filter([e], p) == Filter([e][..0], p) + if p(e) then [e] else [];
  }

  lemma {:induction false} FilterMembers<T(!new)>(s: seq<T>, p: T -> bool)
    ensures forall x :: x in Filter(s, p) <==> x in s && p(x)
  {
    if s != [] {
      var n := |s| - 1;
      assert s == s[..n] + [s[n]];
      FilterMembers(s[..n], p);
    }
  }

  lemma {:induction false} FilterFilter<T(!new)>(s: seq<T>, p: T -> bool, q: T -> bool, r: T -> bool)
    requires forall x :: x in s ==> (r(x) <==> p(x) && q(x))
    ensures Filter(Filter(s, p), q) == Filter(s, r)
  {
    if s != [] {
      var n := |s| - 1;
      assert s[n] in s && forall x :: x in s[..n] ==> x in s;
      FilterFilter(s[..n], p, q, r);
      FilterConcat(Filter(s[..n], p), if p(s[n]) then [s[n]] else [], q);
      assert Filter([s[n]], q) == if q(s[n]) then [s[n]] else [];
    }
  }

  lemma {:induction false} FilterAll<T(!new)>(s: seq<T>, p: T -> bool)
    requires forall x :: x in s ==> p(x)
    ensures Filter(s, p) == s
  {
    if s != [] {
      var n := |s| - 1;
      assert s == s[..n] + [s[n]] && s[n] in s;
      assert forall x :: x in s[..n] ==> x in s;
      FilterAll(s[..n], p);
    }
  }

  lemma {:induction false} FilterNone<T(!new)>(s: seq<T>, p: T -> bool)
    requires forall x :: x in s ==> !p(x)
    ensures Filter(s, p) == []
  {
    if s != [] {
      var n := |s| - 1;
      assert s[n] in s && forall x :: x in s[..n] ==> x in s;
      FilterNone(s[..n], p);
    }
  }

  lemma {:induction false} FilterCount<T(!new)>(s: seq<T>, p: T -> bool, x: T)
    ensures multiset(Filter(s, p))[x] == if p(x) then multiset(s)[x] else 0
  {
    if s != [] {
      var n := |s| - 1;
      assert s == s[..n] + [s[n]];
      FilterCount(s[..n], p, x);
    }
  }

  lemma {:induction false} FilterCons<T(!new)>(x: T, s: seq<T>, p: T -> bool)
    ensures Filter([x] + s, p) == (if p(x) then [x] else []) + Filter(s, p)
  {
    FilterConcat([x], s, p);
    assert Filter([x], p) == Filter([], p) + if p(x) then [x] else [];
  }

  /** Inserting before everything. */
  lemma {:induction false} InsertFront<T(!new)>(x: T, f: seq<T>, leq: (T, T) -> bool)
    requires forall y :: y in f ==> !leq(y, x)
    ensures Insert(x, f, leq) == [x] + f
  {
    if f != [] { assert f[0] in f; }
  }

  lemma {:induction false} SortedTail<T(!new)>(s: seq<T>, leq: (T, T) -> bool)
    requires TotalPreorder(leq) && Sorted(s, leq) && s != []
    ensures Sorted(s[1..], leq)
    ensures forall y :: y in s ==> leq(s[0], y)
  {
  }

  /** Filtering commutes with inserting into a sorted sequence. */
  lemma {:induction false} FilterInsert<T(!new)>(x: T, s: seq<T>, leq: (T, T) -> bool, p: T -> bool)
    requires TotalPreorder(leq) && Sorted(s, leq)
    ensures Filter(Insert(x, s, leq), p) ==
            if p(x) then Insert(x, Filter(s, p), leq) else Filter(s, p)
  {
    if s == [] {
      FilterCons(x, s, p);
      assert [x] + s == [x];
    } else {
      SortedTail(s, leq);
      if !leq(s[0], x) {
        FilterCons(x, s, p);
        FilterMembers(s, p);
        InsertFront(x, Filter(s, p), leq);
      } else {
        var f := Filter(s[1..], p);
        FilterInsert(x, s[1..], leq, p);
        FilterCons(s[0], s[1..], p);
        FilterCons(s[0], Insert(x, s[1..], leq), p);
        assert s == [s[0]] + s[1..];
        if p(s[0]) {
          assert Filter(s, p) == [s[0]] + f;
          assert Insert(x, [s[0]] + f, leq) == [s[0]] + Insert(x, f, leq) by {
            assert ([s[0]] + f)[1..] == f;
          }
        } else {
          assert Filter(s, p) == f by { assert [] + f == f; }
        }
      }
    }
  }

  lemma {:induction false} SortSnoc<T(!new)>(s: seq<T>, x: T, leq: (T, T) -> bool)
    ensures SortBy(s + [x], leq) == Insert(x, SortBy(s, leq), leq)
  {
    assert (s + [x])[..|s|] == s;
  }

  /** Filtering commutes with sorting: a recorder's own chronology is the sorted log cut to it. */
  lemma {:induction false} FilterSort<T(!new)>(s: seq<T>, leq: (T, T) -> bool, p: T -> bool)
    requires TotalPreorder(leq)
    ensures Filter(SortBy(s, leq), p) == SortBy(Filter(s, p), leq)
  {
    if s != [] {
      var n := |s| - 1;
      var init, x := s[..n], s[n];
      FilterSort(init, leq, p);
      SortIsSorted(init, leq);
      FilterInsert(x, SortBy(init, leq), leq, p);
      SortSnoc(Filter(init, p), x, leq);
      assert Filter(init, p) + [] == Filter(init, p);
    }
  }

  // ----------------------------------------------------------- string order

  /** Code-point order of Python strings and of a "C" collation. */
  predicate StringLeq(a: string, b: string) {
    if a == [] then true
    else if b == [] then false
    else if a[0] != b[0] then a[0] < b[0]
    else StringLeq(a[1..], b[1..])
  }

  /** A proper or improper prefix, or smaller at the first character where they part. */
  ghost predicate ComesFirst(a: string, b: string) {
    a <= b || exists i :: 0 <= i < |a| && i < |b| && a[..i] == b[..i] && a[i] < b[i]
  }

  lemma {:induction false} StringLeqMeans(a: string, b: string)
    ensures StringLeq(a, b) <==> ComesFirst(a, b)
  {
    if a != [] && b != [] && a[0] == b[0] {
      StringLeqMeans(a[1..], b[1..]);
      ComesFirstTail(a, b);
    } else if a != [] && b != [] && a[0] < b[0] {
      assert a[..0] == b[..0];
    }
  }

  lemma {:induction false} ComesFirstTail(a: string, b: string)
    requires a != [] && b != [] && a[0] == b[0]
    ensures ComesFirst(a, b) <==> ComesFirst(a[1..], b[1..])
  {
    assert a == [a[0]] + a[1..] && b == [b[0]] + b[1..];
    if i :| 0 <= i < |a| && i < |b| && a[..i] == b[..i] && a[i] < b[i] {
      assert i > 0;
      assert a[1..][..i - 1] == a[..i][1..] && b[1..][..i - 1] == b[..i][1..];
      assert a[1..][i - 1] < b[1..][i - 1];
    }
    if i :| 0 <= i < |a| - 1 && i < |b| - 1 && a[1..][..i] == b[1..][..i] && a[1..][i] < b[1..][i] {
      assert a[..i + 1] == [a[0]] + a[1..][..i] && b[..i + 1] == [b[0]] + b[1..][..i];
      assert a[i + 1] < b[i + 1];
    }
  }

  lemma {:induction false} StringLeqTotal(a: string, b: string)
    ensures StringLeq(a, b) || StringLeq(b, a)
    ensures StringLeq(a, b) && StringLeq(b, a) ==> a == b
  {
    if a != [] && b != [] && a[0] == b[0] {
      StringLeqTotal(a[1..], b[1..]);
      assert a == [a[0]] + a[1..] && b == [b[0]] + b[1..];
    }
  }

  lemma {:induction false} StringLeqTransitive(a: string, b: string, c: string)
    requires StringLeq(a, b) && StringLeq(b, c)
    ensures StringLeq(a, c)
  {
    if a != [] && b != [] && c != [] && a[0] == b[0] == c[0] {
      StringLeqTransitive(a[1..], b[1..], c[1..]);
    }
  }

  lemma {:induction false} StringOrder()
    ensures TotalPreorder(StringLeq)
    ensures forall a, b :: StringLeq(a, b) && StringLeq(b, a) ==> a == b
  {
    forall a, b ensures StringLeq(a, b) || StringLeq(b, a)
      ensures StringLeq(a, b) && StringLeq(b, a) ==> a == b
    { StringLeqTotal(a, b); }
    forall a, b, c | StringLeq(a, b) && StringLeq(b, c) ensures StringLeq(a, c) {
      StringLeqTransitive(a, b, c);
    }
  }

  /** A permutation of distinct elements has distinct elements. */
  lemma {:induction false} DistinctPermutation<T(!new)>(a: seq<T>, b: seq<T>)
    requires multiset(a) == multiset(b)
    requires forall i, j :: 0 <= i < j < |a| ==> a[i] != a[j]
    ensures forall i, j :: 0 <= i < j < |b| ==> b[i] != b[j]
  {
    forall i, j | 0 <= i < j < |b| ensures b[i] != b[j] {
      if b[i] == b[j] {
        var x := b[i];
        assert b == b[..i] + [x] + b[i + 1..j] + [x] + b[j + 1..];
        assert multiset(b)[x] >= 2;
        AtMostOnce(a, x);
      }
    }
  }

  lemma {:induction false} AtMostOnce<T(!new)>(a: seq<T>, x: T)
    requires forall i, j :: 0 <= i < j < |a| ==> a[i] != a[j]
    ensures multiset(a)[x] <= 1
  {
    if a != [] {
      var n := |a| - 1;
      assert a == a[..n] + [a[n]];
      AtMostOnce(a[..n], x);
      if a[n] == x { assert x !in a[..n]; assert x !in multiset(a[..n]); }
    }
  }
}
