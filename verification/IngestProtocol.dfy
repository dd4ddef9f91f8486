/** Concurrent uploads as interleaved transaction steps over one committed database: recorder
    try-locks, group NOWAIT locks, the unique file row, the duplicate read, the insert, the rollup
    read and the commit are separate steps, each reading what is committed at that moment
    (forensics/ingestion_limits.py and forensics/ingest.py). */
module IngestProtocol {
  import opened Orders
  import opened Divergence
  import opened Ingest
  import opened DivergenceCounts

  /** An upload with the recorders and groups it resolves to, in locking order. */
  datatype Job = Job(up: Upload, engines: seq<string>, groups: seq<nat>)

  datatype Phase =
    | LockRecorders(next: nat)
    | LockGroups(next: nat)
    | CreateFile
    | ReadDuplicates
    | InsertRows(known: Duplicates)
    | RefreshRollups(work: Prepared)
    | Commit(work: Prepared, counts: map<nat, nat>)
    | Committed
    | Aborted

  /** `locks` holds advisory keys, `groupLocks` row locks, `claims` the uncommitted unique file row. */
  datatype Tx = Tx(job: Job, phase: Phase, locks: set<int>, groupLocks: set<nat>, claims: bool)

  /** `order` records the uploads in commit order. */
  datatype System = System(db: Db, txs: map<nat, Tx>, order: seq<Upload>)

  datatype Step = Begin(id: nat, job: Job) | Act(id: nat) | Fail(id: nat)

  /** The 64-bit advisory key of an engine id. Nothing is assumed of it: engines may collide. */
  type LockKey = string -> int

  const IDLE := System(EMPTY_DB, map[], [])

  // -------------------------------------------------------------------- the steps

  ghost predicate LockHeldByOther(s: System, id: nat, k: int) {
    exists u :: u in s.txs && u != id && k in s.txs[u].locks
  }

  ghost predicate GroupHeldByOther(s: System, id: nat, g: nat) {
    exists u :: u in s.txs && u != id && g in s.txs[u].groupLocks
  }

  ghost predicate FileClaimedByOther(s: System, id: nat, sha: string) {
    exists u :: u in s.txs && u != id && s.txs[u].claims && s.txs[u].job.up.sha == sha
  }

  /** Rollback or connection loss: everything pending is dropped and every lock released at once. */
  function Abort(t: Tx): Tx { Tx(t.job, Aborted, {}, {}, false) }

  /** The transaction's next statement. */
  ghost function Advance(s: System, id: nat, key: LockKey): Tx
    requires id in s.txs
  {
    var t := s.txs[id];
    var lines := t.job.up.lines;
    match t.phase
    case LockRecorders(i) =>
      if i >= |t.job.engines| then t.(phase := LockGroups(0))
      else if LockHeldByOther(s, id, key(t.job.engines[i])) then Abort(t)
      else t.(phase := LockRecorders(i + 1), locks := t.locks + {key(t.job.engines[i])})
    case LockGroups(i) =>
      if i >= |t.job.groups| then t.(phase := CreateFile)
      else if GroupHeldByOther(s, id, t.job.groups[i]) then Abort(t)
      else t.(phase := LockGroups(i + 1), groupLocks := t.groupLocks + {t.job.groups[i]})
    case CreateFile =>
      if t.job.up.sha in s.db.files then Abort(t)
      else if FileClaimedByOther(s, id, t.job.up.sha) then t
      else t.(phase := ReadDuplicates, claims := true)
    case ReadDuplicates => t.(phase := InsertRows(Existing(s.db.Events(), lines)))
    case InsertRows(known) => t.(phase := RefreshRollups(Prepare(known, lines)))
    case RefreshRollups(work) => t.(phase := Commit(work, Rollups(s.db.Events() + work.rows, lines)))
    case Commit(_, _) => Tx(t.job, Committed, {}, {}, false)
    case Committed => t
    case Aborted => t
  }

  ghost function Next(s: System, step: Step, key: LockKey): System {
    match step
    case Begin(id, job) =>
      // a known file hash returns before any transaction opens
      if id in s.txs || job.up.sha in s.db.files then s
      else s.(txs := s.txs[id := Tx(job, LockRecorders(0), {}, {}, false)])
    case Fail(id) =>
      if id !in s.txs || s.txs[id].phase.Committed? then s else s.(txs := s.txs[id := Abort(s.txs[id])])
    case Act(id) =>
      if id !in s.txs then s
      else
        var t := s.txs[id];
        var txs := s.txs[id := Advance(s, id, key)];
        if t.phase.Commit? then System(CommitDb(s.db, t), txs, s.order + [t.job.up]) else s.(txs := txs)
  }

  /** What a commit makes visible: precisely what the transaction prepared. */
  ghost function CommitDb(db: Db, t: Tx): Db
    requires t.phase.Commit?
  {
    Written(db, t.job.up, t.phase.work, t.phase.counts)
  }

  ghost function Run(steps: seq<Step>, key: LockKey): System {
    if steps == [] then IDLE else Next(Run(steps[..|steps| - 1], key), steps[|steps| - 1], key)
  }

  // --------------------------------------------------------------- the invariant

  /** Every line names an engine whose recorder is locked and every group it resolves to is locked. */
  ghost predicate WellFormed(job: Job) {
    && (forall l :: l in job.up.lines ==> l.engine != "" && l.engine in job.engines)
    && (forall g :: g in GroupsOf(job.up.lines) ==> g in job.groups)
  }

  ghost predicate NamesEngines(lines: seq<Line>) { forall l :: l in lines ==> l.engine != "" }

  ghost predicate JobsWellFormed(steps: seq<Step>) {
    forall k :: 0 <= k < |steps| && steps[k].Begin? ==> WellFormed(steps[k].job)
  }

  predicate HoldsRecorders(p: Phase) { !p.LockRecorders? && !p.Committed? && !p.Aborted? }
  predicate HoldsGroups(p: Phase) { HoldsRecorders(p) && !p.LockGroups? }
  predicate HoldsFile(p: Phase) { HoldsGroups(p) && !p.CreateFile? }

  ghost predicate LocksOk(t: Tx, key: LockKey) {
    && (t.phase.LockRecorders? ==>
          forall j :: 0 <= j < t.phase.next && j < |t.job.engines| ==> key(t.job.engines[j]) in t.locks)
    && (HoldsRecorders(t.phase) ==> forall en :: en in t.job.engines ==> key(en) in t.locks)
    && (t.phase.LockGroups? ==>
          forall j :: 0 <= j < t.phase.next && j < |t.job.groups| ==> t.job.groups[j] in t.groupLocks)
    && (HoldsGroups(t.phase) ==> forall g :: g in t.job.groups ==> g in t.groupLocks)
  }

  /** The duplicate answers a transaction has read are still true of what is committed now. */
  ghost predicate AnswersHold(known: Duplicates, events: seq<Line>, lines: seq<Line>) {
    forall l :: l in lines ==> (Knows(known, KeyOf(l)) <==> KeyOf(l) in Keys(events))
  }

  /** What a transaction has read or prepared is true of these committed events. */
  ghost predicate ReadsOk(t: Tx, events: seq<Line>) {
    var lines := t.job.up.lines;
    && (t.phase.InsertRows? ==> AnswersHold(t.phase.known, events, lines))
    && (t.phase.RefreshRollups? || t.phase.Commit? ==> t.phase.work == ToInsert(events, lines))
    && (t.phase.Commit? ==> t.phase.counts == Rollups(events + t.phase.work.rows, lines))
  }

  ghost predicate WorkOk(t: Tx, db: Db) {
    (HoldsFile(t.phase) ==> t.claims && t.job.up.sha !in db.files) && ReadsOk(t, db.Events())
  }

  ghost predicate TxOk(t: Tx, db: Db, key: LockKey) {
    WellFormed(t.job) && LocksOk(t, key) && WorkOk(t, db)
  }

  ghost predicate Apart(t: Tx, u: Tx) {
    t.locks !! u.locks && t.groupLocks !! u.groupLocks && (t.claims && u.claims ==> t.job.up.sha != u.job.up.sha)
  }

  ghost predicate AllApart(txs: map<nat, Tx>) {
    forall t, u :: t in txs && u in txs && t != u ==> Apart(txs[t], txs[u])
  }

  ghost predicate AllOk(txs: map<nat, Tx>, db: Db, key: LockKey) {
    forall id :: id in txs ==> TxOk(txs[id], db, key)
  }

  ghost predicate Inv(s: System, key: LockKey) {
    && s.db == StoreAll(s.order)
    && (forall up :: up in s.order ==> NamesEngines(up.lines))
    && AllOk(s.txs, s.db, key)
    && AllApart(s.txs)
  }

  // ------------------------------------------------------------ one commit, seen by another

  /** A committing transaction shares no recorder and no group with one that holds its locks. */
  lemma {:induction false} CommitIsElsewhere(t: Tx, u: Tx, db: Db, key: LockKey)
    requires TxOk(t, db, key) && TxOk(u, db, key) && Apart(t, u)
    requires HoldsGroups(t.phase) && u.phase.Commit?
    ensures forall l :: l in t.job.up.lines ==> KeyOf(l) !in Keys(u.phase.work.rows)
    ensures forall g :: g in GroupsOf(t.job.up.lines) ==> g !in GroupsOf(u.phase.work.rows)
  {
    KeptIsNew(db.Events(), u.job.up.lines);
    forall l | l in t.job.up.lines ensures key(l.engine) in t.locks {}
    forall r | r in u.phase.work.rows
      ensures key(r.engine) in u.locks
      ensures r.group.Some? ==> r.group.value in u.groupLocks
    {
      assert r in u.job.up.lines;
      assert r.group.Some? ==> r.group.value in GroupsOf(u.job.up.lines);
    }
  }

  lemma {:induction false} PrepareDependsOnOwnKeys(d: Duplicates, e: Duplicates, lines: seq<Line>)
    requires forall l :: l in lines ==> l.engine != "" && (Knows(d, KeyOf(l)) <==> Knows(e, KeyOf(l)))
    ensures Prepare(d, lines) == Prepare(e, lines)
  {
    KeepDependsOnOwnKeys(d, e, lines);
    KeepBalance(d, lines);
    KeepBalance(e, lines);
  }

  /** What a transaction would insert depends only on its own keys. */
  lemma {:induction false} RowsUndisturbed(events: seq<Line>, rows: seq<Line>, lines: seq<Line>)
    requires forall l :: l in lines ==> l.engine != "" && KeyOf(l) !in Keys(rows)
    ensures ToInsert(events + rows, lines) == ToInsert(events, lines)
  {
    var d, e := Existing(events + rows, lines), Existing(events, lines);
    ExistingIsExact(events + rows, lines);
    ExistingIsExact(events, lines);
    KeysConcat(events, rows);
    forall l | l in lines ensures Knows(d, KeyOf(l)) <==> Knows(e, KeyOf(l)) {
      assert Knows(d, KeyOf(l)) <==> KeyOf(l) in Keys(events + rows);
      assert Knows(e, KeyOf(l)) <==> KeyOf(l) in Keys(events);
    }
    PrepareDependsOnOwnKeys(d, e, lines);
  }

  lemma {:induction false} RollupsUndisturbed(events: seq<Line>, others: seq<Line>, rows: seq<Line>, lines: seq<Line>)
    requires forall g :: g in GroupsOf(lines) ==> g !in GroupsOf(others)
    ensures Rollups(events + others + rows, lines) == Rollups(events + rows, lines)
  {
    forall g | g in GroupsOf(lines) ensures SightingsIn(events + others + rows, g) == SightingsIn(events + rows, g) {
      SightingsConcat(events + others, rows, g);
      SightingsConcat(events, others, g);
      SightingsConcat(events, rows, g);
      SightingsElsewhere(others, g);
      assert SightingsIn(events, g) + [] == SightingsIn(events, g);
    }
  }

  lemma {:induction false} ReadsSurvive(t: Tx, events: seq<Line>, rows: seq<Line>)
    requires ReadsOk(t, events)
    requires forall l :: l in t.job.up.lines ==> l.engine != "" && KeyOf(l) !in Keys(rows)
    requires forall g :: g in GroupsOf(t.job.up.lines) ==> g !in GroupsOf(rows)
    ensures ReadsOk(t, events + rows)
  {
    KeysConcat(events, rows);
    RowsUndisturbed(events, rows, t.job.up.lines);
    if t.phase.Commit? {
      RollupsUndisturbed(events, rows, t.phase.work.rows, t.job.up.lines);
    }
  }

  lemma {:induction false} NothingRead(t: Tx, events: seq<Line>)
    requires !HoldsFile(t.phase)
    ensures ReadsOk(t, events)
  {
  }

  /** Another transaction's commit leaves what this one has read or prepared true. */
  lemma {:induction false} WorkSurvivesCommit(t: Tx, u: Tx, db: Db, key: LockKey)
    requires TxOk(t, db, key) && TxOk(u, db, key) && Apart(t, u) && u.phase.Commit?
    ensures WorkOk(t, CommitDb(db, u))
  {
    InsertedLines(db.rows, u.job.up.sha, u.phase.work.rows);
    if HoldsFile(t.phase) {
      CommitIsElsewhere(t, u, db, key);
      ReadsSurvive(t, db.Events(), u.phase.work.rows);
    } else {
      NothingRead(t, CommitDb(db, u).Events());
    }
  }

  /** A commit is one serial store. */
  lemma {:induction false} CommitIsStore(t: Tx, db: Db)
    requires t.phase.Commit? && t.job.up.sha !in db.files && ReadsOk(t, db.Events())
    ensures CommitDb(db, t) == Store(db, t.job.up)
  {
    assert t.phase.work == ToInsert(db.Events(), t.job.up.lines);
  }
}
