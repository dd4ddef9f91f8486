/** The two-phase investigation: the group's own rows first, then the groupless rows of the complete
    recorder sessions they name; compared with loading the whole window and selecting afterwards
    (forensics/investigation_reader.py). */
module Investigation {
  import opened Orders
  import opened EvidenceLedger
  import opened LokiReader

  // ---------------------------------------------------------------- the reference

  predicate InWindow(r: Row, a: int, b: int) { a <= r.ts < b }

  function Window(store: seq<Row>, a: int, b: int): seq<Row> { Filter(store, (r: Row) => InWindow(r, a, b)) }

  function Parsed(rows: seq<Row>): seq<Row> { Filter(rows, (r: Row) => r.body.event.Some?) }

  /** Every valid record of the window, as a ledger. */
  ghost function LoadAll(store: seq<Row>, a: int, b: int): Ledger {
    LoadAllParses(store, a, b);
    LedgerOf(Bodies(Parsed(Window(store, a, b))))
  }

  lemma {:induction false} LoadAllParses(store: seq<Row>, a: int, b: int)
    ensures AllParse(Bodies(Parsed(Window(store, a, b))))
  {
    FilterMembers(Window(store, a, b), (r: Row) => r.body.event.Some?);
    BodiesMembers(Parsed(Window(store, a, b)));
  }

  lemma {:induction false} BodiesMembers(rows: seq<Row>)
    ensures forall b :: b in Bodies(rows) <==> exists r :: r in rows && r.body == b
  {
    if rows != [] {
      var n := |rows| - 1;
      BodiesMembers(rows[..n]);
      assert forall r :: r in rows <==> r in rows[..n] || r == rows[n] by { assert rows == rows[..n] + [rows[n]]; }
    }
  }

  // ------------------------------------------------------------- faithful stores

  /** The partition of (group, engine, account): a hash of the group, or of the engine and account when there is
      no group. Nothing is assumed of it: partitions may be shared. */
  type Partition = (string, string, string) -> nat

  function GroupBucket(bucket: Partition, group: string): nat { bucket(group, "", "") }

  function ContextBucket(bucket: Partition, engine: string, account: string): nat { bucket("", engine, account) }

  function LabelsOf(e: Event, bucket: Partition): Labels {
    Labels(if e.group != "" then GroupBucket(bucket, e.group) else ContextBucket(bucket, e.engine, e.account),
           e.group, e.engine, e.account, e.session)
  }

  /** Labels were derived from the body, and digests do not collide. */
  ghost predicate Faithful(store: seq<Row>, bucket: Partition) {
    && (forall r :: r in store ==> r.sha == r.body.digest)
    && (forall r :: r in store && r.body.event.Some? ==> r.labels == LabelsOf(r.body.event.value, bucket))
    && CollisionFree(set r | r in store :: r.body)
  }

  ghost predicate InPlay(r: Row, store: seq<Row>, a: int, b: int) {
    r in store && InWindow(r, a, b) && r.body.event.Some?
  }

  /** The complete sessions that the window's rows of this group name. */
  ghost predicate NamesSession(store: seq<Row>, a: int, b: int, group: string, s: Session) {
    exists r :: InPlay(r, store, a, b) && r.body.event.value.group == group && SessionOf(r.body.event.value) == s
  }

  /** What the two phases ask for. */
  predicate Wanted(l: Labels, bucket: Partition, group: string, sessions: set<Session>) {
    if l.group == group then l.bucket == GroupBucket(bucket, group)
    else
      && l.group == "" && (l.engine, l.account, l.session) in sessions
      && l.bucket == ContextBucket(bucket, l.engine, l.account)
  }

  /** Exactly the wanted rows of the window have been handed over. */
  ghost predicate Gathered(handed: seq<Row>, store: seq<Row>, bucket: Partition, a: int, b: int, group: string,
                           sessions: set<Session>) {
    forall r :: multiset(handed)[r] ==
      if InWindow(r, a, b) && Wanted(r.labels, bucket, group, sessions) then multiset(store)[r] else 0
  }

  /** Under faithful labels a retrieval loses nothing. */
  lemma {:induction false} FaithfulLabels(store: seq<Row>, bucket: Partition, sel: Selector, a: int, b: int)
    requires Hashed(store) && Faithful(store, bucket)
    ensures DigestLabels(store, sel, a, b)
  {
  }

  lemma {:induction false} GatherGroup(handed: seq<Row>, store: seq<Row>, bucket: Partition, a: int, b: int,
                                       group: string)
    requires NothingLost([], handed, store, GroupSelector(GroupBucket(bucket, group), group), a, b)
    ensures Gathered(handed, store, bucket, a, b, group, {})
  {
    forall r
      ensures InQuery(r, GroupSelector(GroupBucket(bucket, group), group), "", a, b) <==>
              InWindow(r, a, b) && Wanted(r.labels, bucket, group, {}) {
      assert "" <= r.sha;
    }
  }

  lemma {:induction false} GatherSession(before: seq<Row>, after: seq<Row>, store: seq<Row>, bucket: Partition,
                                         a: int, b: int, group: string,
                      sessions: set<Session>, s: Session)
    requires group != "" && s !in sessions
    requires Gathered(before, store, bucket, a, b, group, sessions)
    requires NothingLost(before, after, store, ContextSelector(ContextBucket(bucket, s.0, s.1), s), a, b)
    ensures Gathered(after, store, bucket, a, b, group, sessions + {s})
  {
    forall r ensures multiset(after)[r] ==
              if InWindow(r, a, b) && Wanted(r.labels, bucket, group, sessions + {s}) then multiset(store)[r] else 0 {
      assert "" <= r.sha;
    }
  }

  // ------------------------------------------------------- gathered against loaded

  /** Is this body one the two phases gather? */
  ghost predicate Relevant(b: Body, bucket: Partition, group: string, sessions: set<Session>) {
    b.event.Some? && Wanted(LabelsOf(b.event.value, bucket), bucket, group, sessions)
  }

  lemma {:induction false} GatheredMembers(handed: seq<Row>, store: seq<Row>, bucket: Partition, a: int, b: int,
                                           group: string, sessions: set<Session>)
    requires Gathered(handed, store, bucket, a, b, group, sessions) && Faithful(store, bucket) &&
             AllParse(Bodies(handed))
    ensures forall r :: r in handed <==> InPlay(r, store, a, b) && Relevant(r.body, bucket, group, sessions)
  {
    BodiesMembers(handed);
    forall r ensures r in handed <==> InPlay(r, store, a, b) && Relevant(r.body, bucket, group, sessions) {
      assert r in handed <==> multiset(handed)[r] > 0;
      assert r in store <==> multiset(store)[r] > 0;
      if r in handed { assert r.body in Bodies(handed); }
    }
  }

  lemma {:induction false} LoadedMembers(store: seq<Row>, a: int, b: int)
    ensures forall r :: r in Parsed(Window(store, a, b)) <==> InPlay(r, store, a, b)
  {
    FilterMembers(store, (r: Row) => InWindow(r, a, b));
    FilterMembers(Window(store, a, b), (r: Row) => r.body.event.Some?);
  }

  /** In a collision-free store, a ledger of some of its rows holds exactly their bodies. */
  ghost predicate HoldsExactly(l: Ledger, rows: seq<Row>) {
    && l.records.Keys == l.events.Keys
    && (forall r :: r in rows ==>
          && r.body.digest in l.records && l.records[r.body.digest] == r.body
          && Some(l.events[r.body.digest]) == r.body.event)
    && (forall d :: d in l.records ==> exists r :: r in rows && r.body.digest == d)
  }

  lemma {:induction false} RowInLedger(rows: seq<Row>, store: seq<Row>, bucket: Partition, r: Row)
    requires Faithful(store, bucket) && (forall q :: q in rows ==> q in store) && AllParse(Bodies(rows)) && r in rows
    ensures var l := LedgerOf(Bodies(rows)); var d := r.body.digest;
      d in l.records && d in l.events && l.records[d] == r.body && Some(l.events[d]) == r.body.event
  {
    LedgerRecords(Bodies(rows));
    BodiesMembers(rows);
    assert r.body in Bodies(rows);
    assert HasDigest(Bodies(rows), r.body.digest);
    var q :| q in rows && q.body == LedgerOf(Bodies(rows)).records[r.body.digest];
    SameDigestSameBody(store, bucket, q, r);
  }

  lemma {:induction false} SameDigestSameBody(store: seq<Row>, bucket: Partition, q: Row, r: Row)
    requires Faithful(store, bucket) && q in store && r in store && q.body.digest == r.body.digest
    ensures q.body == r.body
  {
  }

  lemma {:induction false} LedgerHoldsExactly(rows: seq<Row>, store: seq<Row>, bucket: Partition)
    requires Faithful(store, bucket) && (forall r :: r in rows ==> r in store) && AllParse(Bodies(rows))
    ensures HoldsExactly(LedgerOf(Bodies(rows)), rows)
  {
    var l := LedgerOf(Bodies(rows));
    LedgerRecords(Bodies(rows));
    BodiesMembers(rows);
    forall r | r in rows
      ensures r.body.digest in l.records && l.records[r.body.digest] == r.body &&
              Some(l.events[r.body.digest]) == r.body.event
    {
      RowInLedger(rows, store, bucket, r);
    }
    forall d | d in l.records ensures exists r :: r in rows && r.body.digest == d {
      var b :| b in Bodies(rows) && b.digest == d;
      var r :| r in rows && r.body == b;
    }
  }

  lemma {:induction false} SessionsAgree(l: Ledger, rows: seq<Row>, store: seq<Row>, a: int, b: int, group: string)
    requires HoldsExactly(l, rows)
    requires forall r :: r in rows ==> InPlay(r, store, a, b)
    requires forall r :: InPlay(r, store, a, b) && r.body.event.value.group == group ==> r in rows
    ensures forall s :: s in SessionsOf(l.events, group) <==> NamesSession(store, a, b, group, s)
  {
    forall s ensures s in SessionsOf(l.events, group) <==> NamesSession(store, a, b, group, s) {
      if s in SessionsOf(l.events, group) {
        var d :| d in l.events && l.events[d].group == group && SessionOf(l.events[d]) == s;
        var r :| r in rows && r.body.digest == d;
        assert InPlay(r, store, a, b);
      }
      if NamesSession(store, a, b, group, s) {
        var r :| InPlay(r, store, a, b) && r.body.event.value.group == group && SessionOf(r.body.event.value) == s;
        assert r in rows;
        assert l.events[r.body.digest] == r.body.event.value;
      }
    }
  }

  ghost predicate SessionsComplete(sessions: set<Session>, store: seq<Row>, a: int, b: int, group: string) {
    forall s :: s in sessions <==> Complete(s) && NamesSession(store, a, b, group, s)
  }

  lemma {:induction false} SelectedAlsoLoaded(l: Ledger, handed: seq<Row>, m: Ledger, all: seq<Row>, group: string,
                                              d: Digest)
    requires HoldsExactly(l, handed) && HoldsExactly(m, all) && forall r :: r in handed ==> r in all
    requires SessionsOf(l.events, group) == SessionsOf(m.events, group)
    requires d in l.events
    ensures d in m.events && m.events[d] == l.events[d] && m.records[d] == l.records[d]
    ensures IsSelected(l.events, group, d) <==> IsSelected(m.events, group, d)
  {
    var r :| r in handed && r.body.digest == d;
    assert r in all;
  }

  lemma {:induction false} SelectedAlsoGathered(l: Ledger, handed: seq<Row>, m: Ledger, all: seq<Row>,
                                                bucket: Partition, group: string,
                             sessions: set<Session>, d: Digest)
    requires HoldsExactly(l, handed) && HoldsExactly(m, all)
    requires forall r :: r in all && Relevant(r.body, bucket, group, sessions) ==> r in handed
    requires forall s :: s in SessionsOf(m.events, group) && Complete(s) ==> s in sessions
    requires group != "" && d in m.events && IsSelected(m.events, group, d)
    ensures d in l.events && exists r :: r in handed && r.body == m.records[d] && r.body.digest == d
  {
    var r :| r in all && r.body.digest == d;
    assert m.events[d] == r.body.event.value;
    assert Relevant(r.body, bucket, group, sessions);
    assert r in handed;
  }

  lemma {:induction false} SelectionsEqual(l: Ledger, m: Ledger, group: string)
    requires l.records.Keys == l.events.Keys && m.records.Keys == m.events.Keys
    requires SessionsOf(l.events, group) == SessionsOf(m.events, group)
    requires forall d :: d in l.events ==>
      && d in m.events && m.records[d] == l.records[d]
      && (IsSelected(l.events, group, d) <==> IsSelected(m.events, group, d))
    requires forall d :: d in m.events && IsSelected(m.events, group, d) ==> d in l.events
    ensures Select(l.records, l.events, group) == Select(m.records, m.events, group)
  {
    assert Select(l.records, l.events, group).rows == Select(m.records, m.events, group).rows;
  }

  lemma {:induction false} SameSessions(l: Ledger, handed: seq<Row>, m: Ledger, all: seq<Row>, store: seq<Row>,
                                        bucket: Partition, a: int, b: int, group: string, sessions: set<Session>)
    requires group != "" && HoldsExactly(l, handed) && HoldsExactly(m, all)
    requires forall r :: r in handed <==> InPlay(r, store, a, b) && Relevant(r.body, bucket, group, sessions)
    requires forall r :: r in all <==> InPlay(r, store, a, b)
    requires SessionsComplete(sessions, store, a, b, group)
    ensures SessionsOf(l.events, group) == SessionsOf(m.events, group)
    ensures forall s :: s in SessionsOf(m.events, group) && Complete(s) ==> s in sessions
  {
    GroupRowsGathered(handed, store, bucket, a, b, group, sessions);
    SessionsAgree(l, handed, store, a, b, group);
    SessionsAgree(m, all, store, a, b, group);
  }

  /** Every row of the group in play was gathered. */
  lemma {:induction false} GroupRowsGathered(handed: seq<Row>, store: seq<Row>, bucket: Partition, a: int, b: int,
                                             group: string, sessions: set<Session>)
    requires group != ""
    requires forall r :: r in handed <==> InPlay(r, store, a, b) && Relevant(r.body, bucket, group, sessions)
    ensures forall r :: InPlay(r, store, a, b) && r.body.event.value.group == group ==> r in handed
  {
    forall r | InPlay(r, store, a, b) && r.body.event.value.group == group ensures r in handed {
      assert Relevant(r.body, bucket, group, sessions);
    }
  }

  /** Both ledgers select the same bodies and agree on context completeness. */
  lemma {:induction false} SelectionsAgree(l: Ledger, handed: seq<Row>, m: Ledger, all: seq<Row>, store: seq<Row>,
                                           bucket: Partition,
                        a: int, b: int, group: string, sessions: set<Session>)
    requires group != "" && HoldsExactly(l, handed) && HoldsExactly(m, all)
    requires forall r :: r in handed <==> InPlay(r, store, a, b) && Relevant(r.body, bucket, group, sessions)
    requires forall r :: r in all <==> InPlay(r, store, a, b)
    requires SessionsComplete(sessions, store, a, b, group)
    ensures Select(l.records, l.events, group) == Select(m.records, m.events, group)
    ensures forall d :: d in Select(m.records, m.events, group).rows ==>
              exists r :: r in handed && r.body == m.records[d] && r.body.digest == d
  {
    SameSessions(l, handed, m, all, store, bucket, a, b, group, sessions);
    forall d | d in l.events
      ensures d in m.events && m.records[d] == l.records[d]
      ensures IsSelected(l.events, group, d) <==> IsSelected(m.events, group, d)
    {
      SelectedAlsoLoaded(l, handed, m, all, group, d);
    }
    forall d | d in m.events && IsSelected(m.events, group, d)
      ensures d in l.events && exists r :: r in handed && r.body == m.records[d] && r.body.digest == d
    {
      SelectedAlsoGathered(l, handed, m, all, bucket, group, sessions, d);
    }
    SelectionsEqual(l, m, group);
  }

  // ----------------------------------------------------------------- occurrences

  function RowsOf(rows: seq<Row>, d: Digest): seq<Row> { Filter(rows, (r: Row) => r.body.digest == d) }

  lemma {:induction false} OccurrencesAreRows(rows: seq<Row>, d: Digest)
    ensures Occurrences(Bodies(rows), d) == |RowsOf(rows, d)|
  {
    if rows != [] {
      var n := |rows| - 1;
      OccurrencesAreRows(rows[..n], d);
      var bs := Bodies(rows[..n]);
      assert (bs + [rows[n].body])[..|bs|] == bs;
    }
  }

  lemma {:induction false} LoadedCopies(store: seq<Row>, a: int, b: int, r: Row)
    ensures multiset(Parsed(Window(store, a, b)))[r] ==
            if InWindow(r, a, b) && r.body.event.Some? then multiset(store)[r] else 0
  {
    FilterCount(Window(store, a, b), (r: Row) => r.body.event.Some?, r);
    FilterCount(store, (r: Row) => InWindow(r, a, b), r);
  }

  /** A row with the digest of a relevant body is that body, so it was gathered as often as it is stored. */
  lemma {:induction false} CopiesAgree(handed: seq<Row>, store: seq<Row>, bucket: Partition, a: int, b: int,
                                       group: string, sessions: set<Session>, r0: Row, r: Row)
    requires Gathered(handed, store, bucket, a, b, group, sessions) && Faithful(store, bucket)
    requires r0 in store && Relevant(r0.body, bucket, group, sessions)
    ensures multiset(RowsOf(handed, r0.body.digest))[r] ==
            multiset(RowsOf(Parsed(Window(store, a, b)), r0.body.digest))[r]
  {
    var d := r0.body.digest;
    FilterCount(handed, (r: Row) => r.body.digest == d, r);
    FilterCount(Parsed(Window(store, a, b)), (r: Row) => r.body.digest == d, r);
    LoadedCopies(store, a, b, r);
    if r.body.digest == d && r in store {
      assert r.body == r0.body;
      assert r.labels == LabelsOf(r0.body.event.value, bucket);
    } else {
      assert r !in store ==> multiset(store)[r] == 0;
    }
  }

  lemma {:induction false} OccurrencesAgree(handed: seq<Row>, store: seq<Row>, bucket: Partition, a: int, b: int,
                                            group: string, sessions: set<Session>, r0: Row)
    requires Gathered(handed, store, bucket, a, b, group, sessions) && Faithful(store, bucket)
    requires r0 in store && Relevant(r0.body, bucket, group, sessions)
    ensures Occurrences(Bodies(handed), r0.body.digest) ==
            Occurrences(Bodies(Parsed(Window(store, a, b))), r0.body.digest)
  {
    var d := r0.body.digest;
    var all := Parsed(Window(store, a, b));
    OccurrencesAreRows(handed, d);
    OccurrencesAreRows(all, d);
    forall r ensures multiset(RowsOf(handed, d))[r] == multiset(RowsOf(all, d))[r] {
      CopiesAgree(handed, store, bucket, a, b, group, sessions, r0, r);
    }
    assert multiset(RowsOf(handed, d)) == multiset(RowsOf(all, d));
    assert |multiset(RowsOf(handed, d))| == |multiset(RowsOf(all, d))|;
  }

  // -------------------------------------------------------------- the investigation

  datatype Answer = Rejected | Incomplete(reason: Reason) | Answer(selection: Selection)

  predicate IsHexRef(group: string) {
    group != "" && forall i :: 0 <= i < |group| ==>
      '0' <= group[i] <= '9' || 'a' <= group[i] <= 'f' || 'A' <= group[i] <= 'F'
  }

  lemma {:induction false} HexRefMeans(group: string)
    ensures IsHexRef(group) <==> group != "" && forall c :: c in group ==> c in "0123456789abcdefABCDEF"
  {
    forall i | 0 <= i < |group|
      ensures group[i] in group
      ensures group[i] in "0123456789abcdefABCDEF" <==>
              '0' <= group[i] <= '9' || 'a' <= group[i] <= 'f' || 'A' <= group[i] <= 'F'
    {
      HexChar(group[i]);
    }
    if group != "" && (forall c :: c in group ==> c in "0123456789abcdefABCDEF") {
      assert IsHexRef(group);
    }
  }

  lemma {:induction false} HexChar(c: char)
    ensures c in "0123456789abcdefABCDEF" <==> '0' <= c <= '9' || 'a' <= c <= 'f' || 'A' <= c <= 'F'
  {
    var digits := "0123456789abcdefABCDEF";
    if '0' <= c <= '9' { assert digits[c as int - '0' as int] == c; }
    if 'a' <= c <= 'f' { assert digits[10 + c as int - 'a' as int] == c; }
    if 'A' <= c <= 'F' { assert digits[16 + c as int - 'A' as int] == c; }
  }

  /** The bounded answer is the answer that loading everything would give. */
  ghost predicate SameAsLoadingAll(selection: Selection, occurrences: map<Digest, nat>, store: seq<Row>,
                                   a: int, b: int, group: string) {
    var all := LoadAll(store, a, b);
    && all.records.Keys == all.events.Keys
    && selection == Select(all.records, all.events, group)
    && (forall d :: d in selection.rows ==> CountOf(occurrences, d) == CountOf(all.occurrences, d))
  }

  /** A record of the window that belongs to the group. */
  ghost predicate OfGroup(r: Row, store: seq<Row>, a: int, b: int, group: string) {
    r in store && a <= r.ts < b && r.body.event.Some? && r.body.event.value.group == group
  }

  /** A record of the window without a group, from a whole session that some record of the group names. */
  ghost predicate Supports(r: Row, store: seq<Row>, a: int, b: int, group: string) {
    && r in store && a <= r.ts < b && r.body.event.Some? && r.body.event.value.group == ""
    && WholeSession(r.body.event.value)
    && exists q :: OfGroup(q, store, a, b, group) && SameSession(q.body.event.value, r.body.event.value)
  }

  ghost predicate Belongs(r: Row, store: seq<Row>, a: int, b: int, group: string) {
    OfGroup(r, store, a, b, group) || Supports(r, store, a, b, group)
  }

  /** What an answer says about the store, in the store's own terms. */
  ghost predicate AnswerMeans(selection: Selection, store: seq<Row>, a: int, b: int, group: string) {
    && (forall d :: d in selection.rows <==> exists r :: Belongs(r, store, a, b, group) && r.body.digest == d)
    && (forall r :: Belongs(r, store, a, b, group) && r.body.digest in selection.rows ==>
          selection.rows[r.body.digest] == r.body)
    && (selection.contextIncomplete <==>
          exists r :: OfGroup(r, store, a, b, group) && !WholeSession(r.body.event.value))
  }

  lemma {:induction false} AnswerFromLedger(m: Ledger, all: seq<Row>, store: seq<Row>, a: int, b: int, group: string)
    requires HoldsExactly(m, all) && forall r :: r in all <==> InPlay(r, store, a, b)
    ensures AnswerMeans(Select(m.records, m.events, group), store, a, b, group)
  {
    var s := Select(m.records, m.events, group);
    SelectMeans(m.records, m.events, group);
    forall d ensures d in s.rows <==> exists r :: Belongs(r, store, a, b, group) && r.body.digest == d {
      if d in s.rows { var r := SelectedBelongs(m, all, store, a, b, group, d); }
      if r :| Belongs(r, store, a, b, group) && r.body.digest == d {
        BelongingIsSelected(m, all, store, a, b, group, r);
      }
    }
    forall r | Belongs(r, store, a, b, group) && r.body.digest in s.rows ensures s.rows[r.body.digest] == r.body {
      assert r in all;
    }
    if s.contextIncomplete {
      var q :| q in m.events && m.events[q].group == group && !WholeSession(m.events[q]);
      var r :| r in all && r.body.digest == q;
      assert OfGroup(r, store, a, b, group);
    }
    if r :| OfGroup(r, store, a, b, group) && !WholeSession(r.body.event.value) {
      assert r in all;
      assert m.events[r.body.digest] == r.body.event.value;
    }
  }

  lemma {:induction false} SelectedBelongs(m: Ledger, all: seq<Row>, store: seq<Row>, a: int, b: int, group: string,
                                           d: Digest)
    returns (r: Row)
    requires HoldsExactly(m, all) && (forall r :: r in all <==> InPlay(r, store, a, b))
    requires SelectionMeans(Select(m.records, m.events, group), m.records, m.events, group)
    requires d in Select(m.records, m.events, group).rows
    ensures Belongs(r, store, a, b, group) && r.body.digest == d
  {
    r :| r in all && r.body.digest == d;
    assert m.events[d] == r.body.event.value;
    if m.events[d].group != group {
      var q :| q in m.events && m.events[q].group == group && SameSession(m.events[q], m.events[d]);
      var p :| p in all && p.body.digest == q;
      assert OfGroup(p, store, a, b, group);
    }
  }

  lemma {:induction false} BelongingIsSelected(m: Ledger, all: seq<Row>, store: seq<Row>, a: int, b: int, group: string,
                                               r: Row)
    requires HoldsExactly(m, all) && (forall r :: r in all <==> InPlay(r, store, a, b))
    requires SelectionMeans(Select(m.records, m.events, group), m.records, m.events, group)
    requires Belongs(r, store, a, b, group)
    ensures r.body.digest in Select(m.records, m.events, group).rows
  {
    assert r in all;
    assert m.events[r.body.digest] == r.body.event.value;
    if Supports(r, store, a, b, group) {
      var q :| OfGroup(q, store, a, b, group) && SameSession(q.body.event.value, r.body.event.value);
      assert q in all;
      assert m.events[q.body.digest] == q.body.event.value;
    }
  }

  lemma {:induction false} InvestigationExact(handed: seq<Row>, store: seq<Row>, bucket: Partition, a: int, b: int,
                                              group: string, sessions: set<Session>)
    requires group != "" && Faithful(store, bucket) && AllParse(Bodies(handed))
    requires Gathered(handed, store, bucket, a, b, group, sessions) && SessionsComplete(sessions, store, a, b, group)
    ensures var l := LedgerOf(Bodies(handed));
      && l.records.Keys == l.events.Keys
      && SameAsLoadingAll(Select(l.records, l.events, group), l.occurrences, store, a, b, group)
      && AnswerMeans(Select(l.records, l.events, group), store, a, b, group)
  {
    var all := Parsed(Window(store, a, b));
    var l := LedgerOf(Bodies(handed));
    LoadAllParses(store, a, b);
    var m := LedgerOf(Bodies(all));
    GatheredMembers(handed, store, bucket, a, b, group, sessions);
    LoadedMembers(store, a, b);
    LedgerHoldsExactly(handed, store, bucket);
    LedgerHoldsExactly(all, store, bucket);
    SelectionsAgree(l, handed, m, all, store, bucket, a, b, group, sessions);
    AnswerFromLedger(m, all, store, a, b, group);
    var selection := Select(l.records, l.events, group);
    forall d | d in selection.rows ensures CountOf(l.occurrences, d) == CountOf(m.occurrences, d) {
      var r :| r in handed && r.body == m.records[d] && r.body.digest == d;
      OccurrencesAgree(handed, store, bucket, a, b, group, sessions, r);
      LedgerOccurrences(Bodies(handed), d);
      LedgerOccurrences(Bodies(all), d);
    }
  }

  lemma {:induction false} PhaseOneSessions(handed: seq<Row>, store: seq<Row>, bucket: Partition, a: int, b: int,
                                            group: string)
    requires group != "" && Faithful(store, bucket) && AllParse(Bodies(handed)) &&
             Gathered(handed, store, bucket, a, b, group, {})
    ensures forall s :: s in SessionsOf(LedgerOf(Bodies(handed)).events, group) <==> NamesSession(store, a, b, group, s)
  {
    GatheredMembers(handed, store, bucket, a, b, group, {});
    LedgerHoldsExactly(handed, store, bucket);
    SessionsAgree(LedgerOf(Bodies(handed)), handed, store, a, b, group);
  }

  /** Why a run under faithful labels may fail: a spent budget, a transport failure, a record of the window that does
      not parse or does not fit, or a pair that fills a page; never a label, and never a long page. */
  ghost predicate Excused(reason: Reason, reader: Reader, a: int, b: int, failures: nat)
    reads reader, reader.evidence, reader.transport
  {
    var store := reader.transport.store;
    match reason
    case QueryBudget => reader.transport.asked >= 2_000 || reader.expired
    case ExpressionBudget => reader.tooLong
    case TransportFailed => reader.transport.failures > failures
    case InvalidBody => exists r :: r in store && a <= r.ts < b && r.body.event.None?
    case EvidenceBudget =>
      exists r :: r in store && a <= r.ts < b && TooMuch(r.body, reader.evidence.records, reader.evidence.bodyBytes)
    case UnresolvableTie => SomeHeavyTie(reader, a, b)
    case _ => false
  }

  /** Under faithful labels no matching row has a wrong digest label or an event that disagrees with its labels. */
  lemma {:induction false} FaithfulNeverBlamed(store: seq<Row>, bucket: Partition, sel: Selector, a: int, b: int)
    requires Faithful(store, bucket)
    ensures forall r :: Asked(r, store, sel, a, b) ==>
              r.sha == r.body.digest && (r.body.event.Some? ==> !Disagrees(sel, r.body.event.value))
  {
    forall r | Asked(r, store, sel, a, b)
      ensures r.sha == r.body.digest && (r.body.event.Some? ==> !Disagrees(sel, r.body.event.value))
    {
      if r.body.event.Some? { assert r.labels == LabelsOf(r.body.event.value, bucket); }
    }
  }

  lemma {:induction false} ExplainedIsExcused(reader: Reader, bucket: Partition, reason: Reason, sel: Selector,
                                              a: int, b: int, failures: nat)
    requires Faithful(reader.transport.store, bucket) && reader.Explained(reason, sel, a, b, failures)
    ensures Excused(reason, reader, a, b, failures)
  {
    var store := reader.transport.store;
    FaithfulNeverBlamed(store, bucket, sel, a, b);
    match reason
    case InvalidBody => var r :| Asked(r, store, sel, a, b) && r.body.event.None?;
    case EvidenceBudget =>
      var r :| Asked(r, store, sel, a, b) && TooMuch(r.body, reader.evidence.records, reader.evidence.bodyBytes);
    case _ =>
  }

  /** `investigate`. An answer is what loading the whole effective window would give, stated both against that load and
      in the store's own terms; a failure is excused; nothing else is rejected. */
  method Investigate(reader: Reader, bucket: Partition, group: string, startNs: int, endNs: int, cutoff: int)
    returns (answer: Answer)
    requires reader.Valid() && reader.handed == [] && Faithful(reader.transport.store, bucket)
    modifies reader, reader.evidence, reader.transport
    ensures answer.Rejected? <==>
              endNs <= startNs || group == "" || exists c :: c in group && c !in "0123456789abcdefABCDEF"
    ensures answer.Answer? ==>
      var start := if startNs < cutoff then cutoff else startNs;
      && SameAsLoadingAll(answer.selection, reader.evidence.occurrences, reader.transport.store, start, endNs, group)
      && AnswerMeans(answer.selection, reader.transport.store, start, endNs, group)
    ensures answer.Incomplete? ==>
      var start := if startNs < cutoff then cutoff else startNs;
      Excused(answer.reason, reader, start, endNs, old(reader.transport.failures))
  {
    HexRefMeans(group);
    if !IsHexRef(group) || endNs <= startNs {
      return Rejected;
    }
    var start := if startNs < cutoff then cutoff else startNs;
    var o := Gather(reader, bucket, group, start, endNs);
    if o.Failed? {
      return Incomplete(o.reason);
    }
    var selection := reader.evidence.Reconstruct(group);
    return Answer(selection);
  }

  /** Both phases over the effective window. */
  method Gather(reader: Reader, bucket: Partition, group: string, start: int, end: int) returns (o: Outcome)
    requires reader.Valid() && reader.handed == [] && Faithful(reader.transport.store, bucket) && group != ""
    modifies reader, reader.evidence, reader.transport
    ensures o.Done? ==> reader.evidence.Valid()
    ensures o.Done? ==>
      SameAsLoadingAll(Select(reader.evidence.records, reader.evidence.events, group), reader.evidence.occurrences,
                       reader.transport.store, start, end, group)
    ensures o.Done? ==>
      AnswerMeans(Select(reader.evidence.records, reader.evidence.events, group),
                  reader.transport.store, start, end, group)
    ensures o.Failed? ==> Excused(o.reason, reader, start, end, old(reader.transport.failures))
  {
    var sel := GroupSelector(GroupBucket(bucket, group), group);
    o := reader.Retrieve(sel, start, end);
    if o.Failed? {
      ExplainedIsExcused(reader, bucket, o.reason, sel, start, end, old(reader.transport.failures));
      return;
    }
    FaithfulLabels(reader.transport.store, bucket, sel, start, end);
    GatherGroup(reader.handed, reader.transport.store, bucket, start, end, group);
    PhaseOneSessions(reader.handed, reader.transport.store, bucket, start, end, group);
    var complete := set s | s in SessionsOf(reader.evidence.events, group) && Complete(s);
    assert SessionsComplete(complete, reader.transport.store, start, end, group);
    o := GatherContext(reader, bucket, group, start, end, complete);
    if o.Done? {
      InvestigationExact(reader.handed, reader.transport.store, bucket, start, end, group, complete);
    }
  }

  /** The reader is usable and holds exactly the wanted rows for these sessions. */
  ghost predicate HasGathered(reader: Reader, bucket: Partition, group: string, a: int, b: int, sessions: set<Session>)
    reads reader, reader.evidence, reader.transport
  {
    reader.Valid() && Gathered(reader.handed, reader.transport.store, bucket, a, b, group, sessions)
  }

  /** Phase two: one retrieval for each complete session. */
  method GatherContext(reader: Reader, bucket: Partition, group: string, start: int, end: int, complete: set<Session>)
    returns (o: Outcome)
    requires HasGathered(reader, bucket, group, start, end, {}) && group != ""
    requires Faithful(reader.transport.store, bucket)
    modifies reader`queries, reader`expired, reader`tooLong, reader`handed, reader.evidence, reader.transport
    ensures reader.transport.failures >= old(reader.transport.failures)
    ensures o.Done? ==> reader.transport.failures == old(reader.transport.failures)
    ensures o.Done? ==> HasGathered(reader, bucket, group, start, end, complete)
    ensures o.Failed? ==> Excused(o.reason, reader, start, end, old(reader.transport.failures))
  {
    var todo := complete;
    ghost var had: set<Session> := {};
    while todo != {}
      invariant had + todo == complete && had !! todo
      invariant HasGathered(reader, bucket, group, start, end, had)
      invariant reader.transport.failures == old(reader.transport.failures)
      decreases todo
    {
      var s :| s in todo;
      o := GatherOne(reader, bucket, group, start, end, had, s);
      if o.Failed? {
        return;
      }
      todo, had := todo - {s}, had + {s};
    }
    assert had == complete;
    return Done;
  }

  ghost predicate SomeHeavyTie(reader: Reader, a: int, b: int) {
    exists sel :: HeavyTie(reader.transport.store, sel, "", a, b, reader.pageSize)
  }

  method GatherOne(reader: Reader, bucket: Partition, group: string, start: int, end: int, ghost had: set<Session>,
                   s: Session)
    returns (o: Outcome)
    requires HasGathered(reader, bucket, group, start, end, had) && Faithful(reader.transport.store, bucket)
    requires group != "" && s !in had
    modifies reader`queries, reader`expired, reader`tooLong, reader`handed, reader.evidence, reader.transport
    ensures reader.transport.failures >= old(reader.transport.failures)
    ensures o.Done? ==> reader.transport.failures == old(reader.transport.failures)
    ensures o.Done? ==> HasGathered(reader, bucket, group, start, end, had + {s})
    ensures o.Failed? ==> Excused(o.reason, reader, start, end, old(reader.transport.failures))
  {
    ghost var before := reader.handed;
    var sel := ContextSelector(ContextBucket(bucket, s.0, s.1), s);
    o := reader.Retrieve(sel, start, end);
    if o.Done? {
      FaithfulLabels(reader.transport.store, bucket, sel, start, end);
      GatherSession(before, reader.handed, reader.transport.store, bucket, start, end, group, had, s);
    } else {
      ExplainedIsExcused(reader, bucket, o.reason, sel, start, end, old(reader.transport.failures));
    }
  }
}
