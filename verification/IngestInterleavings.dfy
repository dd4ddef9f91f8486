/** Every interleaving of upload transactions keeps the protocol's invariant, so what is committed is a
    serial history of uploads (forensics/ingestion_limits.py and forensics/ingest.py). */
module IngestInterleavings {
  import opened Orders
  import opened Divergence
  import opened Ingest
  import opened DivergenceCounts
  import opened IngestProtocol

  // ----------------------------------------------------------------- preservation

  /** A statement that commits nothing keeps the transaction's own obligations. */
  lemma {:induction false} AdvanceOk(s: System, id: nat, key: LockKey)
    requires Inv(s, key) && id in s.txs && !s.txs[id].phase.Commit?
    ensures TxOk(Advance(s, id, key), s.db, key)
  {
    assert TxOk(s.txs[id], s.db, key);
    AdvanceLocks(s, id, key);
    AdvanceWork(s, id, key);
  }

  lemma {:induction false} AdvanceLocks(s: System, id: nat, key: LockKey)
    requires id in s.txs && LocksOk(s.txs[id], key)
    ensures LocksOk(Advance(s, id, key), key)
  {
    var t := s.txs[id];
    match t.phase
    case LockRecorders(i) => if i >= |t.job.engines| { RecordersDone(t, key); }
    case LockGroups(i) => if i >= |t.job.groups| { GroupsDone(t, key); }
    case _ =>
  }

  lemma {:induction false} AdvanceWork(s: System, id: nat, key: LockKey)
    requires id in s.txs && WellFormed(s.txs[id].job) && WorkOk(s.txs[id], s.db) && !s.txs[id].phase.Commit?
    ensures WorkOk(Advance(s, id, key), s.db)
  {
    var t := s.txs[id];
    match t.phase
    case ReadDuplicates => ExistingAnswers(s.db.Events(), t.job.up.lines);
    case InsertRows(known) => AnsweredRows(known, s.db.Events(), t.job.up.lines);
    case _ =>
  }

  lemma {:induction false} RecordersDone(t: Tx, key: LockKey)
    requires LocksOk(t, key) && t.phase.LockRecorders? && t.phase.next >= |t.job.engines|
    ensures forall en :: en in t.job.engines ==> key(en) in t.locks
  {
    forall en | en in t.job.engines ensures key(en) in t.locks {
      var j :| 0 <= j < |t.job.engines| && t.job.engines[j] == en;
    }
  }

  lemma {:induction false} GroupsDone(t: Tx, key: LockKey)
    requires LocksOk(t, key) && t.phase.LockGroups? && t.phase.next >= |t.job.groups|
    ensures forall g :: g in t.job.groups ==> g in t.groupLocks
  {
    forall g | g in t.job.groups ensures g in t.groupLocks {
      var j :| 0 <= j < |t.job.groups| && t.job.groups[j] == g;
    }
  }

  lemma {:induction false} ExistingAnswers(events: seq<Line>, lines: seq<Line>)
    ensures AnswersHold(Existing(events, lines), events, lines)
  {
    ExistingIsExact(events, lines);
  }

  lemma {:induction false} AnsweredRows(known: Duplicates, events: seq<Line>, lines: seq<Line>)
    requires AnswersHold(known, events, lines) && forall l :: l in lines ==> l.engine != ""
    ensures Prepare(known, lines) == ToInsert(events, lines)
  {
    ExistingAnswers(events, lines);
    PrepareDependsOnOwnKeys(known, Existing(events, lines), lines);
  }

  /** A statement takes only what no other transaction holds. */
  lemma {:induction false} AdvanceApart(s: System, id: nat, other: nat, key: LockKey)
    requires AllApart(s.txs) && id in s.txs && other in s.txs && id != other
    ensures Apart(Advance(s, id, key), s.txs[other])
  {
    assert Apart(s.txs[id], s.txs[other]);
  }

  lemma {:induction false} ActKeepsApart(s: System, id: nat, key: LockKey)
    requires AllApart(s.txs) && id in s.txs
    ensures AllApart(s.txs[id := Advance(s, id, key)])
  {
    var txs := s.txs[id := Advance(s, id, key)];
    forall x, y | x in txs && y in txs && x != y ensures Apart(txs[x], txs[y]) {
      if x == id { AdvanceApart(s, id, y, key); }
      else if y == id { AdvanceApart(s, id, x, key); }
      else { assert Apart(s.txs[x], s.txs[y]); }
    }
  }

  /** After a commit every transaction's obligations hold of the new database. */
  lemma {:induction false} CommitKeepsOk(s: System, id: nat, key: LockKey)
    requires AllOk(s.txs, s.db, key) && AllApart(s.txs) && id in s.txs && s.txs[id].phase.Commit?
    ensures AllOk(s.txs[id := Advance(s, id, key)], CommitDb(s.db, s.txs[id]), key)
  {
    var t := s.txs[id];
    assert TxOk(t, s.db, key);
    forall x | x in s.txs && x != id ensures TxOk(s.txs[x], CommitDb(s.db, t), key) {
      assert TxOk(s.txs[x], s.db, key) && Apart(s.txs[x], t);
      WorkSurvivesCommit(s.txs[x], t, s.db, key);
    }
  }

  lemma {:induction false} CommitIsOneMoreStore(s: System, id: nat, key: LockKey)
    requires Inv(s, key) && id in s.txs && s.txs[id].phase.Commit?
    ensures CommitDb(s.db, s.txs[id]) == StoreAll(s.order + [s.txs[id].job.up])
    ensures NamesEngines(s.txs[id].job.up.lines)
  {
    var t := s.txs[id];
    assert TxOk(t, s.db, key);
    CommitIsStore(t, s.db);
    assert (s.order + [t.job.up])[..|s.order|] == s.order;
  }

  lemma {:induction false} ActKeepsInv(s: System, id: nat, key: LockKey)
    requires Inv(s, key) && id in s.txs
    ensures Inv(Next(s, Act(id), key), key)
  {
    ActKeepsApart(s, id, key);
    if s.txs[id].phase.Commit? {
      CommitKeepsOk(s, id, key);
      CommitIsOneMoreStore(s, id, key);
    } else {
      AdvanceOk(s, id, key);
    }
  }

  lemma {:induction false} NextKeepsInv(s: System, step: Step, key: LockKey)
    requires Inv(s, key) && (step.Begin? ==> WellFormed(step.job))
    ensures Inv(Next(s, step, key), key)
  {
    if step.Act? && step.id in s.txs {
      ActKeepsInv(s, step.id, key);
    } else if step.Fail? && step.id in s.txs && !s.txs[step.id].phase.Committed? {
      assert TxOk(s.txs[step.id], s.db, key);
      BeginOrAbortKeepsInv(s, step.id, Abort(s.txs[step.id]), key);
    } else if step.Begin? && step.id !in s.txs && step.job.up.sha !in s.db.files {
      BeginOrAbortKeepsInv(s, step.id, Tx(step.job, LockRecorders(0), {}, {}, false), key);
    }
  }

  /** Beginning or aborting a transaction touches nothing another one relies on. */
  lemma {:induction false} BeginOrAbortKeepsInv(s: System, id: nat, t: Tx, key: LockKey)
    requires Inv(s, key) && WellFormed(t.job) && t.locks == {} && t.groupLocks == {} && !t.claims
    requires t.phase == LockRecorders(0) || t.phase.Aborted?
    ensures Inv(s.(txs := s.txs[id := t]), key)
  {
    var txs := s.txs[id := t];
    forall x, y | x in txs && y in txs && x != y ensures Apart(txs[x], txs[y]) {
      if x != id && y != id { assert Apart(s.txs[x], s.txs[y]); }
    }
    forall x | x in txs ensures TxOk(txs[x], s.db, key) {
      if x != id { assert TxOk(s.txs[x], s.db, key); }
    }
  }

  lemma {:induction false} RunInv(steps: seq<Step>, key: LockKey)
    requires JobsWellFormed(steps)
    ensures Inv(Run(steps, key), key)
  {
    if steps != [] {
      var n := |steps| - 1;
      assert forall k :: 0 <= k < n ==> steps[..n][k] == steps[k];
      RunInv(steps[..n], key);
      NextKeepsInv(Run(steps[..n], key), steps[n], key);
    }
  }

  /** EVERY INTERLEAVING IS SERIAL: whatever is committed equals storing the committed uploads one
      at a time in commit order, for any lock-key function, collisions included. */
  lemma {:induction false} InterleavingIsSerial(steps: seq<Step>, key: LockKey)
    requires JobsWellFormed(steps)
    ensures var s := Run(steps, key); s.db == StoreAll(s.order)
  {
    RunInv(steps, key);
  }

  /** EVERY INTERLEAVING IS SOUND: no two committed rows share (line_hash, engine_id), every group's
      persisted count is the divergence rule applied to its committed events, every file row
      balances, and exactly the accepted lines are stored. */
  lemma {:induction false} InterleavingIsSound(steps: seq<Step>, key: LockKey)
    requires JobsWellFormed(steps)
    ensures var db := Run(steps, key).db;
      DistinctKeys(db.Events()) && CountsExact(db) && FilesBalance(db) && StoredExactly(db)
  {
    InterleavingIsSerial(steps, key);
    StoreAllSound(Run(steps, key).order);
  }

  lemma {:induction false} StoredNamesEngines(ups: seq<Upload>)
    requires forall up :: up in ups ==> NamesEngines(up.lines)
    ensures NamesEngines(StoreAll(ups).Events())
  {
    if ups != [] {
      var n := |ups| - 1;
      assert ups[n] in ups && forall up :: up in ups[..n] ==> up in ups;
      StoredNamesEngines(ups[..n]);
      var db := StoreAll(ups[..n]);
      KeptIsNew(db.Events(), ups[n].lines);
      InsertedLines(db.rows, ups[n].sha, RowsToInsert(db.Events(), ups[n].lines));
    }
  }

  lemma {:induction false} NamedAreAttributed(events: seq<Line>, g: nat)
    requires NamesEngines(events)
    ensures Attributed(SightingsIn(events, g))
  {
    if events != [] {
      var n := |events| - 1;
      assert events[n] in events && forall l :: l in events[..n] ==> l in events;
      NamedAreAttributed(events[..n], g);
    }
  }

  /** In every state that interleaved ingests reach, each group's events are attributed, which is all the
      trace computation needs to agree: its persisted count is the number of divergent messages that
      both the streaming pass and the traces report. */
  lemma {:induction false} PersistedCountIsRule(steps: seq<Step>, key: LockKey, g: nat)
    requires JobsWellFormed(steps)
    ensures var db := Run(steps, key).db;
      var es := SightingsIn(db.Events(), g);
      Attributed(es) && CountIn(db, g) == |DivergentMessages(es)|
  {
    RunInv(steps, key);
    InterleavingIsSound(steps, key);
    var s := Run(steps, key);
    StoredNamesEngines(s.order);
    NamedAreAttributed(s.db.Events(), g);
    assert CountIn(s.db, g) == DivergentCount(s.db.Events(), g);
  }

  // ------------------------------------------------------------- a lone upload gets through

  /** No other transaction holds anything. */
  ghost predicate Quiet(s: System, id: nat) {
    forall u :: u in s.txs && u != id ==> s.txs[u].locks == {} && s.txs[u].groupLocks == {} && !s.txs[u].claims
  }

  ghost function Acts(s: System, id: nat, key: LockKey, n: nat): System
    decreases n
  {
    if n == 0 then s else Acts(Next(s, Act(id), key), id, key, n - 1)
  }

  lemma {:induction false} ActsAdd(s: System, id: nat, key: LockKey, m: nat, n: nat)
    ensures Acts(s, id, key, m + n) == Acts(Acts(s, id, key, m), id, key, n)
    decreases m
  {
    if m > 0 { ActsAdd(Next(s, Act(id), key), id, key, m - 1, n); }
  }

  /** This transaction has this job and nobody else holds anything; nothing was committed meanwhile. */
  ghost predicate Going(s: System, id: nat, job: Job, db: Db, order: seq<Upload>) {
    id in s.txs && s.txs[id].job == job && Quiet(s, id) && s.db == db && s.order == order
  }

  lemma {:induction false} LockAllRecorders(s: System, id: nat, key: LockKey, job: Job, db: Db, order: seq<Upload>)
    requires Going(s, id, job, db, order) && s.txs[id].phase.LockRecorders? && s.txs[id].phase.next <= |job.engines|
    ensures var s' := Acts(s, id, key, |job.engines| - s.txs[id].phase.next + 1);
      Going(s', id, job, db, order) && s'.txs[id].phase == LockGroups(0)
    decreases |job.engines| - s.txs[id].phase.next
  {
    var s' := Next(s, Act(id), key);
    assert Going(s', id, job, db, order);
    if s.txs[id].phase.next < |job.engines| {
      LockAllRecorders(s', id, key, job, db, order);
    } else {
      assert Acts(s', id, key, 0) == s';
    }
  }

  lemma {:induction false} LockAllGroups(s: System, id: nat, key: LockKey, job: Job, db: Db, order: seq<Upload>)
    requires Going(s, id, job, db, order) && s.txs[id].phase.LockGroups? && s.txs[id].phase.next <= |job.groups|
    ensures var s' := Acts(s, id, key, |job.groups| - s.txs[id].phase.next + 1);
      Going(s', id, job, db, order) && s'.txs[id].phase == CreateFile
    decreases |job.groups| - s.txs[id].phase.next
  {
    var s' := Next(s, Act(id), key);
    assert Going(s', id, job, db, order);
    if s.txs[id].phase.next < |job.groups| {
      LockAllGroups(s', id, key, job, db, order);
    } else {
      assert Acts(s', id, key, 0) == s';
    }
  }

  lemma {:induction false} WriteAndCommit(s: System, id: nat, key: LockKey, job: Job, db: Db, order: seq<Upload>)
    requires Going(s, id, job, db, order) && s.txs[id].phase == CreateFile && job.up.sha !in db.files
    ensures var s' := Acts(s, id, key, 5);
      id in s'.txs && s'.txs[id].phase.Committed? && s'.order == order + [job.up]
  {
    var s1 := Next(s, Act(id), key);
    assert Going(s1, id, job, db, order) && s1.txs[id].phase == ReadDuplicates;
    var s2 := Next(s1, Act(id), key);
    assert Going(s2, id, job, db, order) && s2.txs[id].phase.InsertRows?;
    var s3 := Next(s2, Act(id), key);
    assert Going(s3, id, job, db, order) && s3.txs[id].phase.RefreshRollups?;
    var s4 := Next(s3, Act(id), key);
    assert Going(s4, id, job, db, order) && s4.txs[id].phase.Commit?;
    var s5 := Next(s4, Act(id), key);
    assert s5.txs[id].phase.Committed? && s5.order == order + [job.up];
    FiveActs(s, id, key, s1, s2, s3, s4, s5);
  }

  lemma {:induction false} FiveActs(s: System, id: nat, key: LockKey, s1: System, s2: System, s3: System, s4: System,
                                    s5: System)
    requires s1 == Next(s, Act(id), key) && s2 == Next(s1, Act(id), key) && s3 == Next(s2, Act(id), key)
    requires s4 == Next(s3, Act(id), key) && s5 == Next(s4, Act(id), key)
    ensures Acts(s, id, key, 5) == s5
  {
    assert Acts(s5, id, key, 0) == s5;
    assert Acts(s4, id, key, 1) == Acts(s5, id, key, 0);
    assert Acts(s3, id, key, 2) == Acts(s4, id, key, 1);
    assert Acts(s2, id, key, 3) == Acts(s3, id, key, 2);
    assert Acts(s1, id, key, 4) == Acts(s2, id, key, 3);
  }

  /** AN UPLOAD THAT MEETS NO LOCK IS COMMITTED: from any state in which nobody holds anything, a new upload of an
      unknown file run on its own commits, and is the next in the serial order. */
  lemma {:induction false} LoneUploadCommits(s: System, id: nat, job: Job, key: LockKey) returns (n: nat)
    requires id !in s.txs && job.up.sha !in s.db.files && Quiet(s, id)
    ensures n == |job.engines| + |job.groups| + 7
    ensures var s' := Acts(Next(s, Begin(id, job), key), id, key, n);
      id in s'.txs && s'.txs[id].phase.Committed? && s'.order == s.order + [job.up]
  {
    var s0 := Next(s, Begin(id, job), key);
    assert Going(s0, id, job, s.db, s.order);
    var a, b := |job.engines| + 1, |job.groups| + 1;
    LockAllRecorders(s0, id, key, job, s.db, s.order);
    var s1 := Acts(s0, id, key, a);
    LockAllGroups(s1, id, key, job, s.db, s.order);
    var s2 := Acts(s1, id, key, b);
    WriteAndCommit(s2, id, key, job, s.db, s.order);
    n := JoinActs(s0, s1, s2, id, key, a, b, 5);
  }

  lemma {:induction false} JoinActs(s0: System, s1: System, s2: System, id: nat, key: LockKey, a: nat, b: nat, c: nat)
    returns (n: nat)
    requires s1 == Acts(s0, id, key, a) && s2 == Acts(s1, id, key, b)
    ensures n == a + b + c && Acts(s0, id, key, n) == Acts(s2, id, key, c)
  {
    n := a + b + c;
    ActsAdd(s0, id, key, a, b + c);
    ActsAdd(s1, id, key, b, c);
  }

  /** A failed transaction releases everything and leaves nothing behind. */
  lemma {:induction false} FailLeavesNothing(s: System, id: nat, key: LockKey)
    requires id in s.txs && !s.txs[id].phase.Committed?
    ensures var s' := Next(s, Fail(id), key);
      && s'.txs[id].locks == {} && s'.txs[id].groupLocks == {} && !s'.txs[id].claims && s'.txs[id].phase.Aborted?
      && s'.db == s.db && s'.order == s.order
  {
  }
}
