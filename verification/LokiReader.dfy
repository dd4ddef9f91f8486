/** Bounded forward pagination over a static store: full pages are cut at their last timestamp and
    ties are resolved by walking a 16-way digest-prefix trie
    (forensics/investigation_reader.py). */
module LokiReader {
  import opened Orders
  import opened EvidenceLedger

  /** The stream partition and the structured metadata a line was stored with. */
  datatype Labels = Labels(bucket: nat, group: string, engine: string, account: string, session: string)

  /** A stored line; `sha` is its `audit_sha256` label, which the store filters by and the reader checks. */
  datatype Row = Row(ts: int, body: Body, labels: Labels, sha: Digest)

  /** The two LogQL filters the reader sends. */
  datatype Selector = GroupSelector(bucket: nat, group: string) | ContextSelector(bucket: nat, session: Session)

  predicate LabelsMatch(sel: Selector, l: Labels) {
    match sel
    case GroupSelector(p, g) => l.bucket == p && l.group == g
    case ContextSelector(p, s) => l.bucket == p && l.group == "" && (l.engine, l.account, l.session) == s
  }

  /** The `accept` callback: the parsed body must agree with the filter. Equal groups, or equal engines and
      accounts, have equal buckets, so the callback's own bucket comparison adds nothing. */
  predicate Accepts(sel: Selector, e: Event) {
    match sel
    case GroupSelector(_, g) => e.group == g
    case ContextSelector(_, s) => e.group == "" && SessionOf(e) == s
  }

  const HEX := "0123456789abcdef"

  predicate IsHex(s: string) { forall c :: c in s ==> c in HEX }

  predicate IsDigest(d: Digest) { |d| == 64 && IsHex(d) }

  /** SHA-256 digests are 64 hex digits. Nothing is assumed of the labels. */
  ghost predicate Hashed(store: seq<Row>) { forall r :: r in store ==> IsDigest(r.body.digest) }

  // ------------------------------------------------------------------ one query

  /** The store's own filter; a non-empty prefix adds `audit_sha256=~"prefix[0-9a-f]*"`, which is anchored. */
  predicate InQuery(r: Row, sel: Selector, prefix: string, a: int, b: int) {
    && LabelsMatch(sel, r.labels) && a <= r.ts < b
    && (prefix == "" || (prefix <= r.sha && IsHex(r.sha[|prefix|..])))
  }

  /** The rows a retrieval can hand over: those in the query whose label is a digest. */
  predicate Takes(r: Row, sel: Selector, prefix: string, a: int, b: int) {
    LabelsMatch(sel, r.labels) && a <= r.ts < b && IsDigest(r.sha) && prefix <= r.sha
  }

  lemma {:induction false} TakesIsLabelled(r: Row, sel: Selector, prefix: string, a: int, b: int)
    ensures Takes(r, sel, prefix, a, b) <==> InQuery(r, sel, prefix, a, b) && IsDigest(r.sha)
  {
    assert prefix == "" ==> prefix <= r.sha;
  }

  function Matching(store: seq<Row>, sel: Selector, prefix: string, a: int, b: int): seq<Row> {
    Filter(store, (r: Row) => InQuery(r, sel, prefix, a, b))
  }

  lemma {:induction false} MatchingCount(store: seq<Row>, sel: Selector, prefix: string, a: int, b: int, r: Row)
    ensures multiset(Matching(store, sel, prefix, a, b))[r] ==
            if InQuery(r, sel, prefix, a, b) then multiset(store)[r] else 0
  {
    FilterCount(store, (r: Row) => InQuery(r, sel, prefix, a, b), r);
  }

  /** A forward page: at most `limit` of the matching rows, all of them if they fit, and no omitted
      row is earlier than a returned one. Which of several tied rows are returned is left open. */
  predicate IsPage(page: seq<Row>, all: seq<Row>, limit: nat) {
    && multiset(page) <= multiset(all)
    && |page| == (if |all| < limit then |all| else limit)
    && (forall r, p :: r in all && p in page && multiset(page)[r] < multiset(all)[r] ==> p.ts <= r.ts)
  }

  predicate TsLeq(a: Row, b: Row) { a.ts <= b.ts }

  lemma {:induction false} PageExists(all: seq<Row>, limit: nat)
    ensures exists page :: IsPage(page, all, limit)
  {
    var sorted := SortBy(all, TsLeq);
    SortContents(all, TsLeq);
    SortIsSorted(all, TsLeq);
    var n := if |all| < limit then |all| else limit;
    assert |sorted| == |all| by { assert |multiset(sorted)| == |multiset(all)|; }
    var page, rest := sorted[..n], sorted[n..];
    assert sorted == page + rest;
    forall r, p | r in all && p in page && multiset(page)[r] < multiset(all)[r] ensures p.ts <= r.ts {
      assert multiset(all)[r] == multiset(page)[r] + multiset(rest)[r];
      assert r in rest;
    }
    assert IsPage(page, all, limit);
  }

  /** `sorted(rows)`: by timestamp, then digest, then body. */
  predicate RowLeq(a: Row, b: Row) {
    if a.ts != b.ts then a.ts < b.ts
    else if a.body.digest != b.body.digest then StringLeq(a.body.digest, b.body.digest)
    else StringLeq(a.body.bytes, b.body.bytes)
  }

  lemma {:induction false} RowOrder()
    ensures TotalPreorder(RowLeq)
  {
    StringOrder();
  }

  /** Earlier rows first; at one timestamp smaller digests first; under one digest smaller bodies first. */
  ghost predicate Ascending(rows: seq<Row>) {
    forall i, j :: 0 <= i < j < |rows| ==>
      && rows[i].ts <= rows[j].ts
      && (rows[i].ts == rows[j].ts ==> ComesFirst(rows[i].body.digest, rows[j].body.digest))
      && (rows[i].ts == rows[j].ts && rows[i].body.digest == rows[j].body.digest ==>
            ComesFirst(rows[i].body.bytes, rows[j].body.bytes))
  }

  lemma {:induction false} SortedIsAscending(rows: seq<Row>)
    requires Sorted(rows, RowLeq)
    ensures Ascending(rows)
  {
    forall i, j | 0 <= i < j < |rows|
      ensures rows[i].ts <= rows[j].ts
      ensures rows[i].ts == rows[j].ts ==> ComesFirst(rows[i].body.digest, rows[j].body.digest)
      ensures rows[i].ts == rows[j].ts && rows[i].body.digest == rows[j].body.digest ==>
                ComesFirst(rows[i].body.bytes, rows[j].body.bytes)
    {
      assert RowLeq(rows[i], rows[j]);
      StringLeqMeans(rows[i].body.digest, rows[j].body.digest);
      StringLeqMeans(rows[i].body.bytes, rows[j].body.bytes);
    }
  }

  datatype Reason =
    | QueryBudget | ExpressionBudget | TransportFailed | InvalidResponse | PageOverflow
    | UnresolvableTie | InvalidBody | LabelMismatch | EvidenceBudget

  datatype Outcome = Done | Failed(reason: Reason)

  datatype Page = Rows(rows: seq<Row>) | NoPage(reason: Reason)

  const MAX_QUERIES := 2_000

  // ------------------------------------------------------------- counting matches

  lemma {:induction false} FilterWeaker(s: seq<Row>, p: Row -> bool, q: Row -> bool)
    requires forall x :: p(x) ==> q(x)
    ensures |Filter(s, p)| <= |Filter(s, q)|
  {
    if s != [] { FilterWeaker(s[..|s| - 1], p, q); }
  }

  /** A stored copy of one (timestamp, digest) pair. */
  predicate IsCopy(r: Row, sel: Selector, ts: int, d: Digest) {
    LabelsMatch(sel, r.labels) && r.ts == ts && r.sha == d
  }

  function Copies(store: seq<Row>, sel: Selector, ts: int, d: Digest): nat {
    |Filter(store, (r: Row) => IsCopy(r, sel, ts, d))|
  }

  /** Some single (timestamp, digest) pair fills a page by itself. */
  ghost predicate HeavyTie(store: seq<Row>, sel: Selector, prefix: string, a: int, b: int, pageSize: nat) {
    exists ts, d :: a <= ts < b && IsDigest(d) && prefix <= d && Copies(store, sel, ts, d) >= pageSize
  }

  lemma {:induction false} FewMatchesNoTie(store: seq<Row>, sel: Selector, prefix: string, a: int, b: int,
                                           pageSize: nat)
    requires |Matching(store, sel, prefix, a, b)| < pageSize
    ensures !HeavyTie(store, sel, prefix, a, b, pageSize)
  {
    forall ts, d | a <= ts < b && IsDigest(d) && prefix <= d ensures Copies(store, sel, ts, d) < pageSize {
      FilterWeaker(store, (r: Row) => IsCopy(r, sel, ts, d), (r: Row) => InQuery(r, sel, prefix, a, b));
    }
  }

  /** A full page under a whole digest consists of copies of that digest. */
  lemma {:induction false} FullLeafIsTie(page: seq<Row>, store: seq<Row>, sel: Selector, d: Digest, ts: int, limit: nat)
    requires IsPage(page, Matching(store, sel, d, ts, ts + 1), limit) && |page| == limit
    requires IsDigest(d) && Labelled(page)
    ensures HeavyTie(store, sel, "", ts, ts + 1, limit)
  {
    var copies := Filter(store, (r: Row) => IsCopy(r, sel, ts, d));
    forall r ensures multiset(page)[r] <= multiset(copies)[r] {
      FilterCount(store, (r: Row) => IsCopy(r, sel, ts, d), r);
      MatchingCount(store, sel, d, ts, ts + 1, r);
      if r in page {
        assert r in multiset(page);
        assert InQuery(r, sel, d, ts, ts + 1) && r.sha == d;
      }
    }
    SubmultisetSize(multiset(page), multiset(copies));
    assert |page| == |multiset(page)| && |copies| == |multiset(copies)|;
    assert d <= d && Copies(store, sel, ts, d) >= limit;
  }

  lemma {:induction false} SubmultisetSize(a: multiset<Row>, b: multiset<Row>)
    requires a <= b
    ensures |a| <= |b|
  {
    assert b == a + (b - a);
  }

  // ------------------------------------------------------------- what was handed over

  /** Between two moments exactly the store's matching rows with a digest for a label were handed over, each as
      often as stored. */
  ghost predicate HandedOver(before: seq<Row>, after: seq<Row>, store: seq<Row>,
                             sel: Selector, prefix: string, a: int, b: int) {
    forall r :: multiset(after)[r] ==
      multiset(before)[r] + if Takes(r, sel, prefix, a, b) then multiset(store)[r] else 0
  }

  /** Every row carries the digest of its body, as `query` demands of the rows it sees. */
  ghost predicate Labelled(rows: seq<Row>) { forall r :: r in rows ==> r.sha == r.body.digest && IsDigest(r.sha) }

  lemma {:induction false} HandedAll(before: seq<Row>, page: seq<Row>, store: seq<Row>, sel: Selector, prefix: string,
                                     a: int, b: int)
    requires multiset(page) == multiset(Matching(store, sel, prefix, a, b)) && Labelled(page)
    ensures HandedOver(before, before + page, store, sel, prefix, a, b)
  {
    forall r
      ensures multiset(before + page)[r] ==
              multiset(before)[r] + if Takes(r, sel, prefix, a, b) then multiset(store)[r] else 0
    {
      MatchingCount(store, sel, prefix, a, b, r);
      TakesIsLabelled(r, sel, prefix, a, b);
      assert r in page <==> multiset(page)[r] > 0;
    }
  }

  /** A page that is not full is everything. */
  lemma {:induction false} ShortPageIsAll(page: seq<Row>, all: seq<Row>, limit: nat)
    requires IsPage(page, all, limit) && |page| < limit
    ensures multiset(page) == multiset(all)
  {
    var rest := multiset(all) - multiset(page);
    assert multiset(all) == multiset(page) + rest;
    assert |multiset(all)| == |multiset(page)| + |rest|;
    assert rest == multiset{};
  }

  function Before(rows: seq<Row>, ts: int): seq<Row> { Filter(rows, (r: Row) => r.ts < ts) }

  /** Below its last timestamp a full page misses nothing. */
  lemma {:induction false} FullPageBelowBoundary(page: seq<Row>, store: seq<Row>, sel: Selector,
                                                 a: int, b: int, limit: nat, boundary: int)
    requires IsPage(page, Matching(store, sel, "", a, b), limit)
    requires exists p :: p in page && p.ts == boundary
    requires a <= boundary < b
    ensures multiset(Before(page, boundary)) == multiset(Matching(store, sel, "", a, boundary))
  {
    var all := Matching(store, sel, "", a, b);
    forall r
      ensures multiset(Before(page, boundary))[r] == multiset(Matching(store, sel, "", a, boundary))[r]
    {
      FilterCount(page, (x: Row) => x.ts < boundary, r);
      MatchingCount(store, sel, "", a, b, r);
      MatchingCount(store, sel, "", a, boundary, r);
      var p :| p in page && p.ts == boundary;
      if r.ts < boundary {
        assert multiset(page)[r] >= multiset(all)[r];
        assert multiset(page)[r] <= multiset(all)[r];
      }
    }
  }

  /** A full page holds fewer than a page of rows below its last timestamp. */
  lemma {:induction false} FewBelowBoundary(page: seq<Row>, store: seq<Row>, sel: Selector, a: int, b: int,
                                            limit: nat, boundary: int)
    requires IsPage(page, Matching(store, sel, "", a, b), limit)
    requires exists p :: p in page && p.ts == boundary
    requires a <= boundary < b
    ensures |Matching(store, sel, "", a, boundary)| < limit
  {
    var below, rest := Before(page, boundary), Matching(store, sel, "", a, boundary);
    FullPageBelowBoundary(page, store, sel, a, b, limit, boundary);
    assert |multiset(below)| == |multiset(rest)|;
    var p :| p in page && p.ts == boundary;
    FilterDrops(page, boundary, p);
  }

  /** Adding a full page's rows below its last timestamp hands over everything there, and nothing there is a heavy
      tie. */
  lemma {:induction false} HandedBelowBoundary(before: seq<Row>, page: seq<Row>, store: seq<Row>, sel: Selector,
                                               a: int, b: int, limit: nat, boundary: int)
    requires IsPage(page, Matching(store, sel, "", a, b), limit) && Labelled(page)
    requires page != [] && page[|page| - 1].ts == boundary && a <= boundary < b
    ensures Labelled(Before(page, boundary))
    ensures HandedOver(before, before + Before(page, boundary), store, sel, "", a, boundary)
    ensures !HeavyTie(store, sel, "", a, boundary, limit)
  {
    assert page[|page| - 1] in page;
    FullPageBelowBoundary(page, store, sel, a, b, limit, boundary);
    FilterMembers(page, (r: Row) => r.ts < boundary);
    HandedAll(before, Before(page, boundary), store, sel, "", a, boundary);
    FewBelowBoundary(page, store, sel, a, b, limit, boundary);
    FewMatchesNoTie(store, sel, "", a, boundary, limit);
  }

  lemma {:induction false} FilterDrops(rows: seq<Row>, ts: int, p: Row)
    requires p in rows && p.ts >= ts
    ensures |Before(rows, ts)| < |rows|
  {
    var n := |rows| - 1;
    FilterShrinks(rows[..n], ts);
    if rows[n] != p {
      assert p in rows[..n];
      FilterDrops(rows[..n], ts, p);
    }
  }

  lemma {:induction false} FilterShrinks(rows: seq<Row>, ts: int)
    ensures |Before(rows, ts)| <= |rows|
  {
    if rows != [] { FilterShrinks(rows[..|rows| - 1], ts); }
  }

  lemma {:induction false} HandedJoin(h0: seq<Row>, h1: seq<Row>, h2: seq<Row>, store: seq<Row>, sel: Selector,
                                      a: int, m: int, b: int)
    requires a <= m <= b
    requires HandedOver(h0, h1, store, sel, "", a, m) && HandedOver(h1, h2, store, sel, "", m, b)
    ensures HandedOver(h0, h2, store, sel, "", a, b)
  {
  }

  lemma {:induction false} NoTieJoin(store: seq<Row>, sel: Selector, a: int, m: int, b: int, pageSize: nat)
    requires a <= m <= b
    requires !HeavyTie(store, sel, "", a, m, pageSize) && !HeavyTie(store, sel, "", m, b, pageSize)
    ensures !HeavyTie(store, sel, "", a, b, pageSize)
  {
  }

  // ------------------------------------------------------------------- what can get lost

  /** Every matching row of the window was handed over, whatever its label. */
  ghost predicate NothingLost(before: seq<Row>, after: seq<Row>, store: seq<Row>, sel: Selector, a: int, b: int) {
    forall r :: multiset(after)[r] ==
      multiset(before)[r] + if InQuery(r, sel, "", a, b) then multiset(store)[r] else 0
  }

  ghost predicate DigestLabels(store: seq<Row>, sel: Selector, a: int, b: int) {
    forall r :: r in store && InQuery(r, sel, "", a, b) ==> IsDigest(r.sha)
  }

  lemma {:induction false} LossExact(before: seq<Row>, after: seq<Row>, store: seq<Row>, sel: Selector, a: int, b: int)
    requires HandedOver(before, after, store, sel, "", a, b)
    ensures NothingLost(before, after, store, sel, a, b) <==> DigestLabels(store, sel, a, b)
  {
    forall r ensures Takes(r, sel, "", a, b) <==> InQuery(r, sel, "", a, b) && IsDigest(r.sha) {
      TakesIsLabelled(r, sel, "", a, b);
    }
    assert forall r :: r in store <==> multiset(store)[r] > 0;
  }

  /** A row whose label is empty or holds a character that is not a hex digit is under no branch of the trie. */
  lemma {:induction false} UnderNoBranch(r: Row, sel: Selector, prefix: string, ts: int)
    requires prefix != "" && IsHex(prefix) && (r.sha == "" || !IsHex(r.sha))
    ensures !InQuery(r, sel, prefix, ts, ts + 1)
  {
  }

  /** If the other tied rows fill a page, a full page without this row is a legitimate answer: `query` then
      never sees its label, and no branch asks for it again. */
  lemma {:induction false} TieCanHide(store: seq<Row>, sel: Selector, ts: int, limit: nat, r: Row)
    requires |Filter(Matching(store, sel, "", ts, ts + 1), (x: Row) => x != r)| >= limit
    ensures exists page :: IsPage(page, Matching(store, sel, "", ts, ts + 1), limit) && |page| == limit && r !in page
  {
    var all := Matching(store, sel, "", ts, ts + 1);
    var others := Filter(all, (x: Row) => x != r);
    FilterMembers(store, (x: Row) => InQuery(x, sel, "", ts, ts + 1));
    OthersFit(all, r);
    var page := others[..limit];
    assert others == page + others[limit..];
    assert r !in page by { assert forall x :: x in page ==> x in others; }
    TiedPage(page, all, limit, ts);
  }

  lemma {:induction false} OthersFit(all: seq<Row>, r: Row)
    ensures var others := Filter(all, (x: Row) => x != r);
      multiset(others) <= multiset(all) && |others| <= |all| && r !in others
  {
    var others := Filter(all, (x: Row) => x != r);
    FilterMembers(all, (x: Row) => x != r);
    forall x ensures multiset(others)[x] <= multiset(all)[x] { FilterCount(all, (x: Row) => x != r, x); }
    SubmultisetSize(multiset(others), multiset(all));
    assert |others| == |multiset(others)| && |all| == |multiset(all)|;
  }

  /** Among tied rows any selection of the right size is a page. */
  lemma {:induction false} TiedPage(page: seq<Row>, all: seq<Row>, limit: nat, ts: int)
    requires multiset(page) <= multiset(all) && |page| == limit <= |all|
    requires forall x :: x in all ==> x.ts == ts
    ensures IsPage(page, all, limit)
  {
    forall p | p in page ensures p.ts == ts { assert p in multiset(page); }
  }

  /** THE LOST ROW. Two tied rows with digests that part in the first digit, and a third whose label is under no
      branch: a page of two may leave the third out, and then every branch answers with fewer than two
      rows and without it, so nothing fails and the third row is never seen. */
  lemma {:induction false} RowGetsLost(sel: Selector, ts: int, g: Row, h: Row, lost: Row, k: nat)
    requires Takes(g, sel, "", ts, ts + 1) && Takes(h, sel, "", ts, ts + 1) && g.sha[0] != h.sha[0]
    requires LabelsMatch(sel, lost.labels) && lost.ts == ts && (lost.sha == "" || !IsHex(lost.sha)) && k < 16
    ensures var store := [g, h, lost];
      && IsPage([g, h], Matching(store, sel, "", ts, ts + 1), 2)
      && lost in Matching(store, sel, "", ts, ts + 1)
      && |Matching(store, sel, [HEX[k]], ts, ts + 1)| < 2
      && lost !in Matching(store, sel, [HEX[k]], ts, ts + 1)
  {
    LostFromPage(sel, ts, g, h, lost);
    LostFromBranch(sel, ts, g, h, lost, HEX[k]);
  }

  lemma {:induction false} LostFromPage(sel: Selector, ts: int, g: Row, h: Row, lost: Row)
    requires InQuery(g, sel, "", ts, ts + 1) && InQuery(h, sel, "", ts, ts + 1) && InQuery(lost, sel, "", ts, ts + 1)
    ensures Matching([g, h, lost], sel, "", ts, ts + 1) == [g, h, lost]
    ensures IsPage([g, h], [g, h, lost], 2)
  {
    FilterThree(g, h, lost, (r: Row) => InQuery(r, sel, "", ts, ts + 1));
    assert [g, h, lost] == [g, h] + [lost];
    TiedPage([g, h], [g, h, lost], 2, ts);
  }

  lemma {:induction false} LostFromBranch(sel: Selector, ts: int, g: Row, h: Row, lost: Row, c: char)
    requires c in HEX && g.sha != "" && h.sha != "" && g.sha[0] != h.sha[0] && (lost.sha == "" || !IsHex(lost.sha))
    ensures |Matching([g, h, lost], sel, [c], ts, ts + 1)| < 2 && lost !in Matching([g, h, lost], sel, [c], ts, ts + 1)
  {
    FilterThree(g, h, lost, (r: Row) => InQuery(r, sel, [c], ts, ts + 1));
    UnderNoBranch(lost, sel, [c], ts);
    if InQuery(g, sel, [c], ts, ts + 1) { FirstDigit(g, sel, c, ts); }
    if InQuery(h, sel, [c], ts, ts + 1) { FirstDigit(h, sel, c, ts); }
  }

  lemma {:induction false} FirstDigit(r: Row, sel: Selector, c: char, ts: int)
    requires InQuery(r, sel, [c], ts, ts + 1)
    ensures r.sha != "" && r.sha[0] == c
  {
    assert [c] <= r.sha;
  }

  lemma {:induction false} FilterThree(a: Row, b: Row, c: Row, p: Row -> bool)
    ensures Filter([a, b, c], p) ==
            (if p(a) then [a] else []) + (if p(b) then [b] else []) + if p(c) then [c] else []
  {
    FilterConcat([a], [b], p);
    FilterConcat([a, b], [c], p);
    FilterOne(a, p);
    FilterOne(b, p);
    FilterOne(c, p);
    assert [a] + [b] == [a, b] && [a, b] + [c] == [a, b, c];
  }

  // --------------------------------------------------------------------- the trie

  /** Rows whose digest continues `prefix` with one of the first `n` hex digits. */
  predicate InBranches(r: Row, sel: Selector, prefix: string, ts: int, n: nat)
    requires n <= 16
  {
    Takes(r, sel, prefix, ts, ts + 1) && |r.sha| > |prefix| && r.sha[|prefix|] in HEX[..n]
  }

  lemma {:induction false} NextBranch(r: Row, sel: Selector, prefix: string, ts: int, n: nat)
    requires n < 16
    ensures Takes(r, sel, prefix + [HEX[n]], ts, ts + 1) ==>
            InBranches(r, sel, prefix, ts, n + 1) && !InBranches(r, sel, prefix, ts, n)
    ensures InBranches(r, sel, prefix, ts, n + 1) <==>
            InBranches(r, sel, prefix, ts, n) || Takes(r, sel, prefix + [HEX[n]], ts, ts + 1)
  {
    var c := HEX[n];
    var d := r.sha;
    HexDistinct(n);
    assert HEX[..n + 1] == HEX[..n] + [c];
    if prefix + [c] <= d {
      assert d[|prefix|] == (prefix + [c])[|prefix|] == c;
      assert prefix <= d;
    }
    if prefix <= d && |d| > |prefix| && d[|prefix|] == c {
      assert prefix + [c] <= d;
    }
  }

  lemma {:induction false} HexDistinct(n: nat)
    requires n < 16
    ensures HEX[n] !in HEX[..n]
  {
  }

  lemma {:induction false} AllBranches(r: Row, sel: Selector, prefix: string, ts: int)
    requires |prefix| < 64
    ensures InBranches(r, sel, prefix, ts, 16) <==> Takes(r, sel, prefix, ts, ts + 1)
  {
    assert HEX[..16] == HEX;
  }

  ghost predicate HandedBranches(before: seq<Row>, after: seq<Row>, store: seq<Row>,
                                 sel: Selector, prefix: string, ts: int, n: nat)
    requires n <= 16
  {
    forall r :: multiset(after)[r] ==
      multiset(before)[r] + if InBranches(r, sel, prefix, ts, n) then multiset(store)[r] else 0
  }

  lemma {:induction false} BranchStep(h0: seq<Row>, h1: seq<Row>, h2: seq<Row>, store: seq<Row>, sel: Selector,
                                      prefix: string, ts: int, n: nat)
    requires n < 16 && HandedBranches(h0, h1, store, sel, prefix, ts, n)
    requires HandedOver(h1, h2, store, sel, prefix + [HEX[n]], ts, ts + 1)
    ensures HandedBranches(h0, h2, store, sel, prefix, ts, n + 1)
  {
    forall r
      ensures multiset(h2)[r] ==
              multiset(h0)[r] + if InBranches(r, sel, prefix, ts, n + 1) then multiset(store)[r] else 0 {
      NextBranch(r, sel, prefix, ts, n);
    }
  }

  lemma {:induction false} BranchesDone(h0: seq<Row>, h1: seq<Row>, store: seq<Row>, sel: Selector, prefix: string,
                                        ts: int)
    requires HandedBranches(h0, h1, store, sel, prefix, ts, 16) && |prefix| < 64
    ensures HandedOver(h0, h1, store, sel, prefix, ts, ts + 1)
  {
    forall r
      ensures multiset(h1)[r] ==
              multiset(h0)[r] + if Takes(r, sel, prefix, ts, ts + 1) then multiset(store)[r] else 0
    {
      AllBranches(r, sel, prefix, ts);
    }
  }

  /** No digest under the first `n` branches fills a page. */
  ghost predicate LightBranches(store: seq<Row>, sel: Selector, prefix: string, ts: int, pageSize: nat, n: nat)
    requires n <= 16
  {
    forall k :: 0 <= k < n ==> !HeavyTie(store, sel, prefix + [HEX[k]], ts, ts + 1, pageSize)
  }

  /** A heavy tie lies under the branch its digest takes. */
  lemma {:induction false} TieIsInBranch(store: seq<Row>, sel: Selector, prefix: string, ts: int, pageSize: nat)
    requires HeavyTie(store, sel, prefix, ts, ts + 1, pageSize) && |prefix| < 64
    ensures exists k :: 0 <= k < 16 && HeavyTie(store, sel, prefix + [HEX[k]], ts, ts + 1, pageSize)
  {
    var t, d :| ts <= t < ts + 1 && IsDigest(d) && prefix <= d && Copies(store, sel, t, d) >= pageSize;
    assert d[|prefix|] in d;
    var k :| 0 <= k < 16 && HEX[k] == d[|prefix|];
    assert prefix + [HEX[k]] <= d;
  }

  lemma {:induction false} LightBranchesDone(store: seq<Row>, sel: Selector, prefix: string, ts: int, pageSize: nat)
    requires LightBranches(store, sel, prefix, ts, pageSize, 16) && |prefix| < 64
    ensures !HeavyTie(store, sel, prefix, ts, ts + 1, pageSize)
  {
    if HeavyTie(store, sel, prefix, ts, ts + 1, pageSize) {
      TieIsInBranch(store, sel, prefix, ts, pageSize);
    }
  }

  // ------------------------------------------------------------------- the transport

  /** A static store behind a forward query API. Each call may fail, and may return any page. The counters say how
      often it was asked and how often it failed. */
  class Transport {
    const store: seq<Row>
    var asked: nat
    var failures: nat

    constructor (store: seq<Row>)
      ensures this.store == store && asked == 0 && failures == 0
    {
      this.store, asked, failures := store, 0, 0;
    }

    method Ask(sel: Selector, prefix: string, a: int, b: int, limit: nat) returns (page: Page)
      modifies this
      ensures asked == old(asked) + 1
      ensures page.NoPage? ==> page.reason == TransportFailed && failures == old(failures) + 1
      ensures page.Rows? ==> failures == old(failures) && IsPage(page.rows, Matching(store, sel, prefix, a, b), limit)
    {
      asked := asked + 1;
      if * {
        failures := failures + 1;
        return NoPage(TransportFailed);
      }
      PageExists(Matching(store, sel, prefix, a, b), limit);
      var answer :| IsPage(answer, Matching(store, sel, prefix, a, b), limit);
      return Rows(answer);
    }
  }

  // -------------------------------------------------------------- what a failure proves

  /** A stored row that the window's query matches. */
  predicate Asked(r: Row, store: seq<Row>, sel: Selector, a: int, b: int) { r in store && InQuery(r, sel, "", a, b) }

  /** The parsed event is not what its labels promised. */
  predicate Disagrees(sel: Selector, e: Event) {
    match sel
    case GroupSelector(_, g) => e.group != g
    case ContextSelector(_, s) => e.group != "" || e.engine != s.0 || e.account != s.1 || e.session != s.2
  }

  lemma {:induction false} AcceptsMeans(sel: Selector, e: Event)
    ensures Accepts(sel, e) <==> !Disagrees(sel, e)
  {
  }

  /** What must be wrong with the store, or too much in it, for this failure. A page longer than asked for never
      comes from a transport that keeps to its limit. */
  ghost predicate Blames(reason: Reason, store: seq<Row>, sel: Selector, a: int, b: int, pageSize: nat,
                         records: map<Digest, Body>, bytes: nat) {
    match reason
    case InvalidResponse => exists r :: Asked(r, store, sel, a, b) && r.sha != r.body.digest
    case InvalidBody => exists r :: Asked(r, store, sel, a, b) && r.body.event.None?
    case LabelMismatch =>
      exists r :: Asked(r, store, sel, a, b) && r.body.event.Some? && Disagrees(sel, r.body.event.value)
    case EvidenceBudget => exists r :: Asked(r, store, sel, a, b) && TooMuch(r.body, records, bytes)
    case UnresolvableTie => HeavyTie(store, sel, "", a, b, pageSize)
    case PageOverflow => false
    case _ => true
  }

  predicate TooMuch(body: Body, records: map<Digest, Body>, bytes: nat) {
    body.digest !in records && (|records| >= 262_144 || bytes + |body.bytes| > 67_108_864)
  }

  lemma {:induction false} BlamesWider(reason: Reason, store: seq<Row>, sel: Selector, a: int, b: int, a': int, b': int,
                                       pageSize: nat, records: map<Digest, Body>, bytes: nat)
    requires Blames(reason, store, sel, a, b, pageSize, records, bytes) && a' <= a && b <= b'
    ensures Blames(reason, store, sel, a', b', pageSize, records, bytes)
  {
    match reason
    case InvalidResponse =>
      var r :| Asked(r, store, sel, a, b) && r.sha != r.body.digest;
      assert Asked(r, store, sel, a', b');
    case InvalidBody =>
      var r :| Asked(r, store, sel, a, b) && r.body.event.None?;
      assert Asked(r, store, sel, a', b');
    case LabelMismatch =>
      var r :| Asked(r, store, sel, a, b) && r.body.event.Some? && Disagrees(sel, r.body.event.value);
      assert Asked(r, store, sel, a', b');
    case EvidenceBudget =>
      var r :| Asked(r, store, sel, a, b) && TooMuch(r.body, records, bytes);
      assert Asked(r, store, sel, a', b');
    case _ =>
  }

  /** Every one of these rows is stored and matches. */
  ghost predicate AllAsked(rows: seq<Row>, store: seq<Row>, sel: Selector, a: int, b: int) {
    forall r :: r in rows ==> Asked(r, store, sel, a, b)
  }

  lemma {:induction false} AskedWider(rows: seq<Row>, store: seq<Row>, sel: Selector, a: int, b: int, a': int, b': int)
    requires AllAsked(rows, store, sel, a, b) && a' <= a && b <= b'
    ensures AllAsked(rows, store, sel, a', b')
  {
  }

  lemma {:induction false} AskedBelow(rows: seq<Row>, store: seq<Row>, sel: Selector, a: int, b: int, boundary: int)
    requires AllAsked(rows, store, sel, a, b)
    ensures AllAsked(Before(rows, boundary), store, sel, a, b)
  {
    FilterMembers(rows, (r: Row) => r.ts < boundary);
  }

  lemma {:induction false} PageIsAsked(page: seq<Row>, store: seq<Row>, sel: Selector, prefix: string,
                                       a: int, b: int, limit: nat)
    requires IsPage(page, Matching(store, sel, prefix, a, b), limit)
    ensures AllAsked(page, store, sel, a, b)
  {
    FilterMembers(store, (r: Row) => InQuery(r, sel, prefix, a, b));
    forall r | r in page ensures Asked(r, store, sel, a, b) { assert r in multiset(page); }
  }

  // ---------------------------------------------------------------------- the reader

  function Bodies(rows: seq<Row>): seq<Body> {
    if rows == [] then [] else Bodies(rows[..|rows| - 1]) + [rows[|rows| - 1].body]
  }

  lemma {:induction false} BodiesSnoc(rows: seq<Row>, r: Row)
    ensures Bodies(rows + [r]) == Bodies(rows) + [r.body]
  {
    assert (rows + [r])[..|rows|] == rows;
  }

  class Reader {
    const transport: Transport
    const pageSize: nat
    const evidence: Evidence
    var queries: nat

    /** The deadline was seen to have passed; an expression was seen to be over its budget. */
    var expired: bool
    var tooLong: bool

    /** Every row handed to `Evidence.add`, in order. */
    ghost var handed: seq<Row>

    ghost predicate Valid()
      reads this, evidence, transport
    {
      && Hashed(transport.store) && queries == transport.asked
      && 1 <= pageSize && Labelled(handed)
      && evidence.Valid() && IsLedger(evidence.Contents(), Bodies(handed))
    }

    constructor (transport: Transport, pageSize: nat)
      requires Hashed(transport.store) && transport.asked == 0 && 1 <= pageSize <= 50_000
      ensures Valid() && handed == [] && queries == 0
      ensures this.transport == transport && this.pageSize == pageSize && fresh(evidence)
    {
      this.transport, this.pageSize, queries, expired, tooLong := transport, pageSize, 0, false, false;
      evidence := new Evidence();
      handed := [];
    }

    /** Each failure proves something: a budget spent, an expression too long, a transport failure since there were
        `failures` of them, or what `Blames` says of the store. */
    ghost predicate Explained(reason: Reason, sel: Selector, a: int, b: int, failures: nat)
      reads this, evidence, transport
    {
      && (reason == QueryBudget ==> transport.asked >= 2_000 || expired)
      && (reason == ExpressionBudget ==> tooLong)
      && (reason == TransportFailed ==> transport.failures > failures)
      && Blames(reason, transport.store, sel, a, b, pageSize, evidence.records, evidence.bodyBytes)
    }

    /** `deadline - monotonic() <= 0`: may turn out true at any time. */
    method DeadlinePassed() returns (late: bool)
      modifies this`expired
      ensures late ==> expired
      ensures !late ==> expired == old(expired)
    {
      late := *;
      if late { expired := true; }
    }

    /** `len(expression.encode()) > MAX_EXPRESSION_BYTES`, for names of any length. */
    method ExpressionTooLong() returns (long: bool)
      modifies this`tooLong
      ensures long ==> tooLong
      ensures !long ==> tooLong == old(tooLong)
    {
      long := *;
      if long { tooLong := true; }
    }

    /** The budget checks before a query. */
    method Budgeted() returns (o: Outcome)
      modifies this`expired, this`tooLong
      ensures o.Failed? ==>
                (o.reason == QueryBudget && (queries >= 2_000 || expired)) || (o.reason == ExpressionBudget && tooLong)
    {
      var late := DeadlinePassed();
      if late || queries >= MAX_QUERIES {
        return Failed(QueryBudget);
      }
      var long := ExpressionTooLong();
      return if long then Failed(ExpressionBudget) else Done;
    }

    /** `LokiReader.query`: budget, transport, window and size checks, then the rows in order. */
    method Query(sel: Selector, prefix: string, a: int, b: int) returns (page: Page)
      requires Valid()
      modifies this`queries, this`expired, this`tooLong, transport
      ensures Valid() && transport.failures >= old(transport.failures)
      ensures page.NoPage? ==> Explained(page.reason, sel, a, b, old(transport.failures))
      ensures page.Rows? ==> transport.failures == old(transport.failures)
      ensures page.Rows? ==> IsPage(page.rows, Matching(transport.store, sel, prefix, a, b), pageSize)
      ensures page.Rows? ==> Ascending(page.rows)
      ensures page.Rows? && page.rows != [] ==> a <= page.rows[|page.rows| - 1].ts < b
      ensures page.Rows? ==> Labelled(page.rows) && AllAsked(page.rows, transport.store, sel, a, b)
    {
      var o := Budgeted();
      if o.Failed? {
        return NoPage(o.reason);
      }
      queries := queries + 1;
      page := transport.Ask(sel, prefix, a, b, pageSize);
      if page.NoPage? {
        return;
      }
      page := CheckRows(page.rows, sel, prefix, a, b);
    }

    /** The checks on an answer: window, digest labels and length; then the rows in order. */
    method CheckRows(answer: seq<Row>, sel: Selector, prefix: string, a: int, b: int) returns (page: Page)
      requires Hashed(transport.store) && IsPage(answer, Matching(transport.store, sel, prefix, a, b), pageSize)
      ensures page.NoPage? ==> page.reason == InvalidResponse &&
                               exists r :: Asked(r, transport.store, sel, a, b) && r.sha != r.body.digest
      ensures page.Rows? ==> IsPage(page.rows, Matching(transport.store, sel, prefix, a, b), pageSize)
      ensures page.Rows? ==> Ascending(page.rows)
      ensures page.Rows? && page.rows != [] ==> a <= page.rows[|page.rows| - 1].ts < b
      ensures page.Rows? ==> Labelled(page.rows) && AllAsked(page.rows, transport.store, sel, a, b)
    {
      PageIsAsked(answer, transport.store, sel, prefix, a, b, pageSize);
      if exists r :: r in answer && !(a <= r.ts < b && r.sha == r.body.digest) {
        return NoPage(InvalidResponse);
      }
      if |answer| > pageSize {
        return NoPage(PageOverflow);
      }
      RowOrder();
      SortContents(answer, RowLeq);
      SortIsSorted(answer, RowLeq);
      var rows := SortBy(answer, RowLeq);
      assert |rows| == |answer| by { assert |multiset(rows)| == |multiset(answer)|; }
      SortedIsAscending(rows);
      return Rows(rows);
    }

    /** `add_rows`: parse, check against the filter, record. */
    method AddRows(rows: seq<Row>, sel: Selector, ghost a: int, ghost b: int) returns (o: Outcome)
      requires Valid() && Labelled(rows) && AllAsked(rows, transport.store, sel, a, b)
      modifies this`handed, evidence
      ensures o.Failed? ==> Explained(o.reason, sel, a, b, transport.failures)
      ensures o.Done? ==> Valid() && handed == old(handed) + rows
    {
      for i := 0 to |rows|
        invariant Valid() && handed == old(handed) + rows[..i]
      {
        TakeSnoc(old(handed), rows, i);
        assert rows[i] in rows;
        o := AddRow(rows[i], sel, a, b);
        if o.Failed? {
          return;
        }
      }
      assert rows[..|rows|] == rows;
      return Done;
    }

    method AddRow(row: Row, sel: Selector, ghost a: int, ghost b: int) returns (o: Outcome)
      requires Valid() && row.sha == row.body.digest && IsDigest(row.sha) && Asked(row, transport.store, sel, a, b)
      modifies this`handed, evidence
      ensures o.Failed? ==> Explained(o.reason, sel, a, b, transport.failures)
      ensures o.Done? ==> Valid() && handed == old(handed) + [row]
      ensures o.Done? ==> row.body.event.Some? && !Disagrees(sel, row.body.event.value)
    {
      var body := row.body;
      if body.event.None? {
        return Failed(InvalidBody);
      }
      AcceptsMeans(sel, body.event.value);
      if !Accepts(sel, body.event.value) {
        return Failed(LabelMismatch);
      }
      BodiesSnoc(handed, row);
      LedgerSnoc(evidence.Contents(), Bodies(handed), body);
      var ok := evidence.Add(body, body.event.value);
      if !ok {
        assert TooMuch(row.body, evidence.records, evidence.bodyBytes);
        return Failed(EvidenceBudget);
      }
      handed := handed + [row];
      return Done;
    }

    /** `tied`, with each yielded row added as the generator's consumer does. It terminates because the
        prefix grows to at most 64 digits; it gives up exactly on a (timestamp, digest) pair that
        fills a page, and otherwise hands over exactly the tied rows under the prefix whose label is a
        digest. */
    method Tied(sel: Selector, ts: int, prefix: string) returns (o: Outcome)
      requires Valid() && |prefix| <= 64 && IsHex(prefix)
      modifies this`queries, this`expired, this`tooLong, this`handed, evidence, transport
      ensures transport.failures >= old(transport.failures)
      ensures o.Done? ==> transport.failures == old(transport.failures)
      ensures o.Failed? ==> Explained(o.reason, sel, ts, ts + 1, old(transport.failures))
      ensures o.Done? ==> Valid() && HandedOver(old(handed), handed, transport.store, sel, prefix, ts, ts + 1)
      ensures o.Done? ==> !HeavyTie(transport.store, sel, prefix, ts, ts + 1, pageSize)
      decreases 64 - |prefix|, 1
    {
      var page := Query(sel, prefix, ts, ts + 1);
      if page.NoPage? {
        return Failed(page.reason);
      }
      if |page.rows| < pageSize {
        o := ShortTie(page.rows, sel, ts, prefix);
        return;
      }
      if |prefix| >= 64 {
        FullLeafIsTie(page.rows, transport.store, sel, prefix, ts, pageSize);
        return Failed(UnresolvableTie);
      }
      o := Branches(sel, ts, prefix);
    }

    /** The sixteen branches under a prefix. */
    method Branches(sel: Selector, ts: int, prefix: string) returns (o: Outcome)
      requires Valid() && |prefix| < 64 && IsHex(prefix)
      modifies this`queries, this`expired, this`tooLong, this`handed, evidence, transport
      ensures transport.failures >= old(transport.failures)
      ensures o.Done? ==> transport.failures == old(transport.failures)
      ensures o.Failed? ==> Explained(o.reason, sel, ts, ts + 1, old(transport.failures))
      ensures o.Done? ==> Valid() && HandedOver(old(handed), handed, transport.store, sel, prefix, ts, ts + 1)
      ensures o.Done? ==> !HeavyTie(transport.store, sel, prefix, ts, ts + 1, pageSize)
      decreases 64 - |prefix|, 0
    {
      ghost var store, h0 := transport.store, handed;
      for n := 0 to 16
        invariant Valid() && transport.failures == old(transport.failures)
        invariant HandedBranches(h0, handed, store, sel, prefix, ts, n)
        invariant LightBranches(store, sel, prefix, ts, pageSize, n)
      {
        ghost var h1 := handed;
        o := Tied(sel, ts, prefix + [HEX[n]]);
        if o.Failed? {
          return;
        }
        BranchStep(h0, h1, handed, store, sel, prefix, ts, n);
      }
      BranchesDone(h0, handed, store, sel, prefix, ts);
      LightBranchesDone(store, sel, prefix, ts, pageSize);
      return Done;
    }

    /** A tied page that is not full is everything under its prefix. */
    method ShortTie(rows: seq<Row>, sel: Selector, ts: int, ghost prefix: string) returns (o: Outcome)
      requires Valid() && |rows| < pageSize && Labelled(rows) && AllAsked(rows, transport.store, sel, ts, ts + 1)
      requires IsPage(rows, Matching(transport.store, sel, prefix, ts, ts + 1), pageSize)
      modifies this`handed, evidence
      ensures o.Failed? ==> Explained(o.reason, sel, ts, ts + 1, transport.failures)
      ensures o.Done? ==> Valid() && HandedOver(old(handed), handed, transport.store, sel, prefix, ts, ts + 1)
      ensures o.Done? ==> !HeavyTie(transport.store, sel, prefix, ts, ts + 1, pageSize)
    {
      ghost var all := Matching(transport.store, sel, prefix, ts, ts + 1);
      ShortPageIsAll(rows, all, pageSize);
      assert |rows| == |all| by { assert |multiset(rows)| == |multiset(all)|; }
      FewMatchesNoTie(transport.store, sel, prefix, ts, ts + 1, pageSize);
      HandedAll(handed, rows, transport.store, sel, prefix, ts, ts + 1);
      o := AddRows(rows, sel, ts, ts + 1);
    }

    /** Since the history was `h0`, exactly the matching rows from `start` up to `upTo` were handed over, and no
        pair among them fills a page. */
    ghost predicate Retrieved(h0: seq<Row>, sel: Selector, start: int, upTo: int)
      reads this, evidence, transport
    {
      && Valid()
      && HandedOver(h0, handed, transport.store, sel, "", start, upTo)
      && !HeavyTie(transport.store, sel, "", start, upTo, pageSize)
    }

    /** `retrieve`: on normal return exactly the matching rows of the window whose label is a digest were handed
        over, none lost and none repeated, so nothing at all was lost exactly when every matching label
        is a digest. It returns normally only if no pair fills a page and the transport never failed, and
        every failure it reports is explained. */
    method Retrieve(sel: Selector, start: int, end: int) returns (o: Outcome)
      requires Valid()
      modifies this`queries, this`expired, this`tooLong, this`handed, evidence, transport
      ensures transport.failures >= old(transport.failures)
      ensures o.Done? ==> transport.failures == old(transport.failures)
      ensures o.Failed? ==> Explained(o.reason, sel, start, end, old(transport.failures))
      ensures o.Done? ==> Valid() && HandedOver(old(handed), handed, transport.store, sel, "", start, end)
      ensures o.Done? ==>
                (NothingLost(old(handed), handed, transport.store, sel, start, end) <==>
                 DigestLabels(transport.store, sel, start, end))
      ensures o.Done? ==> !HeavyTie(transport.store, sel, "", start, end, pageSize)
    {
      var cursor := start;
      ghost var h0 := handed;
      while cursor < end
        invariant start <= cursor && (cursor == start || cursor <= end)
        invariant h0 == old(handed) && Retrieved(h0, sel, start, cursor)
        invariant transport.failures == old(transport.failures)
        decreases end - cursor
      {
        var page := QueryFrom(sel, h0, start, cursor, end);
        if page.NoPage? {
          return Failed(page.reason);
        }
        var last;
        o, cursor, last := TakePage(page.rows, sel, h0, start, cursor, end);
        if o.Failed? {
          return;
        }
        if last {
          break;
        }
      }
      o := Done;
      LossExact(h0, handed, transport.store, sel, start, end);
    }

    /** The loop's query, from the cursor to the end of the window. */
    method QueryFrom(sel: Selector, ghost h0: seq<Row>, ghost start: int, cursor: int, end: int) returns (page: Page)
      requires Retrieved(h0, sel, start, cursor) && start <= cursor < end
      modifies this`queries, this`expired, this`tooLong, transport
      ensures Retrieved(h0, sel, start, cursor) && transport.failures >= old(transport.failures)
      ensures page.NoPage? ==> Explained(page.reason, sel, start, end, old(transport.failures))
      ensures page.Rows? ==> transport.failures == old(transport.failures)
      ensures page.Rows? ==> IsPage(page.rows, Matching(transport.store, sel, "", cursor, end), pageSize)
      ensures page.Rows? && page.rows != [] ==> cursor <= page.rows[|page.rows| - 1].ts < end
      ensures page.Rows? ==> Labelled(page.rows) && AllAsked(page.rows, transport.store, sel, cursor, end)
    {
      page := Query(sel, "", cursor, end);
      if page.NoPage? {
        BlamesWider(page.reason, transport.store, sel, cursor, end, start, end, pageSize,
                    evidence.records, evidence.bodyBytes);
      }
    }

    /** What the loop does with a page: the cursor after it, and whether the page was the last. */
    method TakePage(rows: seq<Row>, sel: Selector, ghost h0: seq<Row>, ghost start: int, ghost cursor: int, end: int)
      returns (o: Outcome, next: int, last: bool)
      requires Retrieved(h0, sel, start, cursor) && start <= cursor < end
      requires IsPage(rows, Matching(transport.store, sel, "", cursor, end), pageSize)
      requires Labelled(rows) && AllAsked(rows, transport.store, sel, cursor, end)
      requires rows != [] ==> cursor <= rows[|rows| - 1].ts < end
      modifies this`queries, this`expired, this`tooLong, this`handed, evidence, transport
      ensures transport.failures >= old(transport.failures)
      ensures o.Done? ==> transport.failures == old(transport.failures)
      ensures o.Done? ==> cursor < next <= end && (last ==> next == end) && Retrieved(h0, sel, start, next)
      ensures o.Failed? ==> Explained(o.reason, sel, start, end, old(transport.failures))
    {
      if rows == [] || |rows| < pageSize {
        o := LastPage(rows, sel, h0, start, cursor, end);
        return o, end, true;
      }
      var boundary := rows[|rows| - 1].ts;
      o := FullPage(rows, sel, h0, start, cursor, boundary, end);
      return o, boundary + 1, false;
    }

    /** A page that is not full ends the retrieval. */
    method LastPage(rows: seq<Row>, sel: Selector, ghost h0: seq<Row>, ghost start: int, ghost cursor: int,
                    ghost end: int)
      returns (o: Outcome)
      requires Retrieved(h0, sel, start, cursor) && start <= cursor < end && |rows| < pageSize
      requires IsPage(rows, Matching(transport.store, sel, "", cursor, end), pageSize)
      requires Labelled(rows) && AllAsked(rows, transport.store, sel, cursor, end)
      modifies this`handed, evidence
      ensures o.Failed? ==> Explained(o.reason, sel, start, end, transport.failures)
      ensures o.Done? ==> Retrieved(h0, sel, start, end)
    {
      ghost var store, h1, all := transport.store, handed, Matching(transport.store, sel, "", cursor, end);
      ShortPageIsAll(rows, all, pageSize);
      assert |rows| == |all| by { assert |multiset(rows)| == |multiset(all)|; }
      FewMatchesNoTie(store, sel, "", cursor, end, pageSize);
      HandedAll(h1, rows, store, sel, "", cursor, end);
      AskedWider(rows, store, sel, cursor, end, start, end);
      o := AddRows(rows, sel, start, end);
      if o.Done? {
        HandedJoin(h0, h1, handed, store, sel, start, cursor, end);
        NoTieJoin(store, sel, start, cursor, end, pageSize);
      }
    }

    /** A full page: everything below its last timestamp, then that timestamp's ties. */
    method FullPage(rows: seq<Row>, sel: Selector, ghost h0: seq<Row>, ghost start: int, ghost cursor: int,
                    boundary: int, ghost end: int)
      returns (o: Outcome)
      requires Retrieved(h0, sel, start, cursor)
      requires start <= cursor <= boundary < end && rows != [] && rows[|rows| - 1].ts == boundary
      requires IsPage(rows, Matching(transport.store, sel, "", cursor, end), pageSize)
      requires Labelled(rows) && AllAsked(rows, transport.store, sel, cursor, end)
      modifies this`queries, this`expired, this`tooLong, this`handed, evidence, transport
      ensures transport.failures >= old(transport.failures)
      ensures o.Done? ==> transport.failures == old(transport.failures)
      ensures o.Done? ==> Retrieved(h0, sel, start, boundary + 1)
      ensures o.Failed? ==> Explained(o.reason, sel, start, end, old(transport.failures))
    {
      ghost var store, h1 := transport.store, handed;
      HandedBelowBoundary(h1, rows, store, sel, cursor, end, pageSize, boundary);
      AskedWider(rows, store, sel, cursor, end, start, end);
      AskedBelow(rows, store, sel, start, end, boundary);
      o := AddRows(Before(rows, boundary), sel, start, end);
      if o.Failed? {
        return;
      }
      ghost var h2 := handed;
      HandedJoin(h0, h1, h2, store, sel, start, cursor, boundary);
      NoTieJoin(store, sel, start, cursor, boundary, pageSize);
      o := Tied(sel, boundary, "");
      if o.Failed? {
        BlamesWider(o.reason, store, sel, boundary, boundary + 1, start, end, pageSize,
                    evidence.records, evidence.bodyBytes);
        return;
      }
      HandedJoin(h0, h2, handed, store, sel, start, boundary, boundary + 1);
      NoTieJoin(store, sel, start, boundary, boundary + 1, pageSize);
    }
  }
}
