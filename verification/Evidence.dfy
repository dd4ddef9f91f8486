/** The reader's evidence ledger: distinct bodies by digest, occurrence counts, byte budget and the
    cached reconstruction (forensics/investigation_reader.py). */
module EvidenceLedger {
  import opened Orders

  type Digest = string

  /** The parts of a v4 event the reader looks at; absent optional fields are "". */
  datatype Event = Event(group: string, engine: string, account: string, session: string)

  /** A record body. Its SHA-256 digest and the event it parses to, if it does, are functions of the
      bytes and travel with them. */
  datatype Body = Body(bytes: string, digest: Digest, event: Option<Event>)

  /** No two of these bodies share a digest. */
  ghost predicate CollisionFree(bodies: set<Body>) {
    forall a, b :: a in bodies && b in bodies && a.digest == b.digest ==> a == b
  }

  type Session = (string, string, string)

  function SessionOf(e: Event): Session { (e.engine, e.account, e.session) }

  predicate Complete(s: Session) { s.0 != "" && s.1 != "" && s.2 != "" }

  const MAX_EVIDENCE_BYTES := 67_108_864  // 64 MiB
  const MAX_RECORDS := 262_144            // one for each 256 bytes of 64 MiB of source

  /** What `selected` returns: bodies by digest and whether some session identity is incomplete. */
  datatype Selection = Selection(rows: map<Digest, Body>, contextIncomplete: bool)

  function SessionsOf(events: map<Digest, Event>, group: string): set<Session> {
    set d | d in events && events[d].group == group :: SessionOf(events[d])
  }

  predicate IsSelected(events: map<Digest, Event>, group: string, d: Digest)
    requires d in events
  {
    || events[d].group == group
    || (events[d].group == "" && Complete(SessionOf(events[d])) && SessionOf(events[d]) in SessionsOf(events, group))
  }

  /** `Evidence.selected` */
  function Select(records: map<Digest, Body>, events: map<Digest, Event>, group: string): Selection
    requires records.Keys == events.Keys
  {
    Selection(
      map d | d in events && IsSelected(events, group, d) :: records[d],
      exists s :: s in SessionsOf(events, group) && !Complete(s))
  }

  /** Two events come from the same recorder session. */
  predicate SameSession(e: Event, f: Event) { e.engine == f.engine && e.account == f.account && e.session == f.session }

  /** All three parts of the session identity are there. */
  predicate WholeSession(e: Event) { e.engine != "" && e.account != "" && e.session != "" }

  /** What a selection says: the group's own bodies, the groupless bodies of whole sessions the group names, and
      whether the group names a session with a part missing. */
  ghost predicate SelectionMeans(s: Selection, records: map<Digest, Body>, events: map<Digest, Event>, group: string) {
    && (forall d :: d in s.rows <==>
          d in events &&
          (|| events[d].group == group
           || (&& events[d].group == "" && WholeSession(events[d])
               && exists q :: q in events && events[q].group == group && SameSession(events[q], events[d]))))
    && (forall d :: d in s.rows ==> d in records && s.rows[d] == records[d])
    && (s.contextIncomplete <==> exists q :: q in events && events[q].group == group && !WholeSession(events[q]))
  }

  lemma {:induction false} SelectMeans(records: map<Digest, Body>, events: map<Digest, Event>, group: string)
    requires records.Keys == events.Keys
    ensures SelectionMeans(Select(records, events, group), records, events, group)
  {
    var s := Select(records, events, group);
    forall d | d in events && events[d].group == "" && WholeSession(events[d])
      ensures SessionOf(events[d]) in SessionsOf(events, group) <==>
              exists q :: q in events && events[q].group == group && SameSession(events[q], events[d])
    {
      if SessionOf(events[d]) in SessionsOf(events, group) {
        var q :| q in events && events[q].group == group && SessionOf(events[q]) == SessionOf(events[d]);
        assert SameSession(events[q], events[d]);
      }
    }
    if s.contextIncomplete {
      var t :| t in SessionsOf(events, group) && !Complete(t);
      var q :| q in events && events[q].group == group && SessionOf(events[q]) == t;
      assert !WholeSession(events[q]);
    }
    if q :| q in events && events[q].group == group && !WholeSession(events[q]) {
      assert SessionOf(events[q]) in SessionsOf(events, group) && !Complete(SessionOf(events[q]));
    }
  }

  function TotalBytes(bodies: seq<Body>): nat {
    if bodies == [] then 0 else TotalBytes(bodies[..|bodies| - 1]) + |bodies[|bodies| - 1].bytes|
  }

  // ------------------------------------------------------- the ledger as a function of the adds

  /** The evidence fields, with the distinct bodies in arrival order. */
  datatype Ledger = Ledger(
    records: map<Digest, Body>,
    events: map<Digest, Event>,
    occurrences: map<Digest, nat>,
    bytes: nat,
    firsts: seq<Body>)

  const EMPTY_LEDGER := Ledger(map[], map[], map[], 0, [])

  function CountOf(occurrences: map<Digest, nat>, d: Digest): nat { if d in occurrences then occurrences[d] else 0 }

  function Enter(l: Ledger, body: Body): Ledger
    requires body.event.Some?
  {
    var d := body.digest;
    var occurrences := l.occurrences[d := CountOf(l.occurrences, d) + 1];
    if d in l.records then l.(occurrences := occurrences)
    else
      Ledger(l.records[d := body], l.events[d := body.event.value], occurrences,
             l.bytes + |body.bytes|, l.firsts + [body])
  }

  ghost predicate AllParse(bodies: seq<Body>) { forall b :: b in bodies ==> b.event.Some? }

  ghost function LedgerOf(added: seq<Body>): Ledger
    requires AllParse(added)
  {
    if added == [] then EMPTY_LEDGER
    else
      var n := |added| - 1;
      assert added[n] in added && forall b :: b in added[..n] ==> b in added;
      Enter(LedgerOf(added[..n]), added[n])
  }

  /** These are the fields after adding exactly these bodies. */
  ghost predicate IsLedger(l: Ledger, added: seq<Body>) { AllParse(added) && LedgerOf(added) == l }

  lemma {:induction false} LedgerSnoc(l: Ledger, added: seq<Body>, body: Body)
    requires IsLedger(l, added) && body.event.Some?
    ensures IsLedger(Enter(l, body), added + [body])
  {
    assert (added + [body])[..|added|] == added;
  }

  class Evidence {
    var records: map<Digest, Body>
    var events: map<Digest, Event>
    var occurrences: map<Digest, nat>
    var bodyBytes: nat
    var cache: Option<(string, Selection)>

    /** The distinct bodies in arrival order. */
    ghost var firsts: seq<Body>

    ghost function Contents(): Ledger
      reads this
    {
      Ledger(records, events, occurrences, bodyBytes, firsts)
    }

    ghost predicate WithinBudgets()
      reads this
    {
      records.Keys == events.Keys && |records| <= MAX_RECORDS && bodyBytes <= MAX_EVIDENCE_BYTES
    }

    /** Within both budgets, and the cached reconstruction is empty or equal to recomputing it. */
    ghost predicate Valid()
      reads this
    {
      WithinBudgets() && (cache.Some? ==> cache.value.1 == Select(records, events, cache.value.0))
    }

    constructor ()
      ensures Valid() && Contents() == EMPTY_LEDGER
    {
      records, events, occurrences, bodyBytes, cache := map[], map[], map[], 0, None;
      firsts := [];
    }

    /** `Evidence.add` of a body whose event the caller already parsed. */
    method Add(body: Body, event: Event) returns (ok: bool)
      requires WithinBudgets() && body.event == Some(event)
      modifies this
      ensures ok ==> Valid() && cache.None? && Contents() == Enter(old(Contents()), body)
      ensures ok <==> body.digest in old(records) ||
                      (|old(records)| < 262_144 && old(bodyBytes) + |body.bytes| <= 67_108_864)
      ensures !ok ==> records == old(records) && bodyBytes == old(bodyBytes)
    {
      cache := None;
      var d := body.digest;
      occurrences := occurrences[d := CountOf(occurrences, d) + 1];
      if d in records {
        return true;
      }
      if |records| >= MAX_RECORDS || bodyBytes + |body.bytes| > MAX_EVIDENCE_BYTES {
        return false;
      }
      records := records[d := body];
      events := events[d := event];
      bodyBytes := bodyBytes + |body.bytes|;
      firsts := firsts + [body];
      return true;
    }

    /** `Evidence.reconstruct`: the cached answer is the recomputed one. */
    method Reconstruct(group: string) returns (s: Selection)
      requires Valid()
      modifies this`cache
      ensures Valid() && s == Select(records, events, group)
      ensures SelectionMeans(s, records, events, group)
      ensures cache == Some((group, s))
    {
      SelectMeans(records, events, group);
      if cache.Some? && cache.value.0 == group {
        return cache.value.1;
      }
      s := Select(records, events, group);
      cache := Some((group, s));
    }
  }

  // ----------------------------------------------------------------- what the ledger means

  ghost predicate HasDigest(bodies: seq<Body>, d: Digest) { exists b :: b in bodies && b.digest == d }

  ghost predicate DistinctDigests(bodies: seq<Body>) {
    forall i, j :: 0 <= i < j < |bodies| ==> bodies[i].digest != bodies[j].digest
  }

  /** The three maps share one key set; a digest is a key exactly when some added body has it; its
      record and event come from such a body. */
  ghost predicate RecordsMeaning(l: Ledger, added: seq<Body>) {
    && l.records.Keys == l.events.Keys == l.occurrences.Keys
    && (forall d :: d in l.records <==> HasDigest(added, d))
    && (forall d :: d in l.records ==>
          l.records[d] in added && l.records[d].digest == d && l.records[d].event == Some(l.events[d]))
  }

  /** The distinct bodies, one for each record, and their exact total size. */
  ghost predicate BytesMeaning(l: Ledger) {
    && |l.firsts| == |l.records| && DistinctDigests(l.firsts)
    && (forall b :: b in l.firsts ==> b.digest in l.records && l.records[b.digest] == b)
    && l.bytes == TotalBytes(l.firsts)
  }

  lemma {:induction false} LedgerRecords(added: seq<Body>)
    requires AllParse(added)
    ensures RecordsMeaning(LedgerOf(added), added)
  {
    if added != [] {
      var n := |added| - 1;
      assert added == added[..n] + [added[n]];
      LedgerRecords(added[..n]);
      assert LedgerOf(added) == Enter(LedgerOf(added[..n]), added[n]);
      RecordsStep(LedgerOf(added[..n]), added[..n], added[n]);
    }
  }

  lemma {:induction false} RecordsStep(l: Ledger, added: seq<Body>, body: Body)
    requires RecordsMeaning(l, added) && body.event.Some?
    ensures RecordsMeaning(Enter(l, body), added + [body])
  {
    assert forall b :: b in added + [body] <==> b in added || b == body;
    forall d ensures HasDigest(added + [body], d) <==> HasDigest(added, d) || d == body.digest {}
  }

  lemma {:induction false} LedgerBytes(added: seq<Body>)
    requires AllParse(added)
    ensures BytesMeaning(LedgerOf(added))
  {
    if added != [] {
      var n := |added| - 1;
      assert forall b :: b in added[..n] ==> b in added;
      LedgerBytes(added[..n]);
      var l := LedgerOf(added[..n]);
      assert LedgerOf(added) == Enter(l, added[n]);
      if added[n].digest !in l.records {
        FirstsSnoc(l, added[n]);
      }
    }
  }

  lemma {:induction false} DistinctSnoc(bodies: seq<Body>, body: Body)
    requires DistinctDigests(bodies) && forall b :: b in bodies ==> b.digest != body.digest
    ensures DistinctDigests(bodies + [body])
  {
    forall i | 0 <= i < |bodies| ensures bodies[i].digest != body.digest { assert bodies[i] in bodies; }
  }

  lemma {:induction false} TotalBytesSnoc(bodies: seq<Body>, body: Body)
    ensures TotalBytes(bodies + [body]) == TotalBytes(bodies) + |body.bytes|
  {
    assert (bodies + [body])[..|bodies|] == bodies;
  }

  lemma {:induction false} FirstsSnoc(l: Ledger, body: Body)
    requires BytesMeaning(l) && body.event.Some? && body.digest !in l.records
    ensures BytesMeaning(Enter(l, body))
  {
    var l' := Enter(l, body);
    forall b | b in l.firsts ensures b.digest != body.digest && l'.records[b.digest] == b {}
    DistinctSnoc(l.firsts, body);
    TotalBytesSnoc(l.firsts, body);
    assert forall b :: b in l'.firsts <==> b in l.firsts || b == body;
    assert |l'.records| == |l.records| + 1;
  }

  function Occurrences(added: seq<Body>, d: Digest): nat { |Filter(added, (b: Body) => b.digest == d)| }

  lemma {:induction false} LedgerOccurrences(added: seq<Body>, d: Digest)
    requires AllParse(added)
    ensures CountOf(LedgerOf(added).occurrences, d) == Occurrences(added, d)
  {
    if added != [] {
      var n := |added| - 1;
      assert forall b :: b in added[..n] ==> b in added;
      LedgerOccurrences(added[..n], d);
      assert LedgerOf(added) == Enter(LedgerOf(added[..n]), added[n]);
    }
  }

  function SumOver(bodies: seq<Body>, occurrences: map<Digest, nat>): nat {
    if bodies == [] then 0
    else
      var n := |bodies| - 1;
      SumOver(bodies[..n], occurrences) + CountOf(occurrences, bodies[n].digest)
  }

  lemma {:induction false} SumKeeps(bodies: seq<Body>, m: map<Digest, nat>, d: Digest, n: nat)
    requires forall i :: 0 <= i < |bodies| ==> bodies[i].digest != d
    ensures SumOver(bodies, m[d := n]) == SumOver(bodies, m)
  {
    if bodies != [] { SumKeeps(bodies[..|bodies| - 1], m, d, n); }
  }

  lemma {:induction false} SumBump(bodies: seq<Body>, m: map<Digest, nat>, d: Digest, i: nat)
    requires i < |bodies| && bodies[i].digest == d && DistinctDigests(bodies)
    ensures SumOver(bodies, m[d := CountOf(m, d) + 1]) == SumOver(bodies, m) + 1
  {
    var n := |bodies| - 1;
    if i == n {
      SumKeeps(bodies[..n], m, d, CountOf(m, d) + 1);
    } else {
      SumBump(bodies[..n], m, d, i);
    }
  }

  lemma {:induction false} RecordedHasIndex(l: Ledger, d: Digest) returns (i: nat)
    requires l.records.Keys == (set b | b in l.firsts :: b.digest) && d in l.records
    ensures i < |l.firsts| && l.firsts[i].digest == d
  {
    var b :| b in l.firsts && b.digest == d;
    i :| 0 <= i < |l.firsts| && l.firsts[i] == b;
  }

  lemma {:induction false} FirstsCoverRecords(added: seq<Body>)
    requires AllParse(added)
    ensures var l := LedgerOf(added); l.records.Keys == set b | b in l.firsts :: b.digest
  {
    if added != [] {
      var n := |added| - 1;
      assert forall b :: b in added[..n] ==> b in added;
      FirstsCoverRecords(added[..n]);
      var l, l' := LedgerOf(added[..n]), LedgerOf(added);
      assert l' == Enter(l, added[n]);
      if added[n].digest !in l.records {
        assert forall b :: b in l'.firsts <==> b in l.firsts || b == added[n];
        forall d ensures d in l'.records <==> exists b :: b in l'.firsts && b.digest == d {
          assert d in l.records <==> exists b :: b in l.firsts && b.digest == d;
        }
      }
    }
  }

  /** Occurrences total the number of adds. */
  lemma {:induction false} OccurrencesTotal(added: seq<Body>)
    requires AllParse(added)
    ensures SumOver(LedgerOf(added).firsts, LedgerOf(added).occurrences) == |added|
  {
    if added != [] {
      var n := |added| - 1;
      var body := added[n];
      assert forall b :: b in added[..n] ==> b in added;
      OccurrencesTotal(added[..n]);
      var l := LedgerOf(added[..n]);
      assert LedgerOf(added) == Enter(l, body);
      LedgerBytes(added[..n]);
      LedgerRecords(added[..n]);
      FirstsCoverRecords(added[..n]);
      TotalStep(l, body);
    }
  }

  /** One more add raises the total of the occurrences by one. */
  lemma {:induction false} TotalStep(l: Ledger, body: Body)
    requires BytesMeaning(l) && l.records.Keys == l.occurrences.Keys && body.event.Some?
    requires l.records.Keys == (set b | b in l.firsts :: b.digest)
    ensures var l' := Enter(l, body); SumOver(l'.firsts, l'.occurrences) == SumOver(l.firsts, l.occurrences) + 1
  {
    if body.digest in l.records { TotalRepeats(l, body); } else { TotalGrows(l, body); }
  }

  lemma {:induction false} TotalRepeats(l: Ledger, body: Body)
    requires DistinctDigests(l.firsts) && body.event.Some? && body.digest in l.records
    requires l.records.Keys == (set b | b in l.firsts :: b.digest)
    ensures var l' := Enter(l, body); SumOver(l'.firsts, l'.occurrences) == SumOver(l.firsts, l.occurrences) + 1
  {
    var i := RecordedHasIndex(l, body.digest);
    SumBump(l.firsts, l.occurrences, body.digest, i);
  }

  lemma {:induction false} TotalGrows(l: Ledger, body: Body)
    requires l.records.Keys == l.occurrences.Keys && body.event.Some? && body.digest !in l.records
    requires l.records.Keys == (set b | b in l.firsts :: b.digest)
    ensures var l' := Enter(l, body); SumOver(l'.firsts, l'.occurrences) == SumOver(l.firsts, l.occurrences) + 1
  {
    NewIsNotFirst(l, body.digest);
    SumNew(l.firsts, l.occurrences, body);
  }

  lemma {:induction false} SumNew(firsts: seq<Body>, m: map<Digest, nat>, body: Body)
    requires (forall i :: 0 <= i < |firsts| ==> firsts[i].digest != body.digest) && body.digest !in m
    ensures SumOver(firsts + [body], m[body.digest := CountOf(m, body.digest) + 1]) == SumOver(firsts, m) + 1
  {
    SumKeeps(firsts, m, body.digest, 1);
    SumSnoc(firsts, body, m[body.digest := 1]);
  }

  lemma {:induction false} NewIsNotFirst(l: Ledger, d: Digest)
    requires l.records.Keys == (set b | b in l.firsts :: b.digest) && d !in l.records
    ensures forall i :: 0 <= i < |l.firsts| ==> l.firsts[i].digest != d
  {
    forall i | 0 <= i < |l.firsts| ensures l.firsts[i].digest != d { assert l.firsts[i] in l.firsts; }
  }

  lemma {:induction false} SumSnoc(bodies: seq<Body>, body: Body, m: map<Digest, nat>)
    ensures SumOver(bodies + [body], m) == SumOver(bodies, m) + CountOf(m, body.digest)
  {
    assert (bodies + [body])[..|bodies|] == bodies;
  }
}
