/** Concurrent uploads and rebuilds as interleaved transaction turns, seen by the projection: group locks, row
    ids drawn one at a time from a shared sequence, projection of each locked group from what is
    committed at that moment, commit (forensics/ingest.py and forensics/projections.py). */
module ProjectionProtocol {
  import opened Orders
  import opened Convergence
  import opened Projection
  import opened ProjectionHistory
  import opened ProjectionStore

  /** The groups in locking order and the lines to insert, whose ids are still unset; or a full rebuild of the
      groups. */
  datatype Job = Job(groups: seq<nat>, lines: seq<Event>, rebuild: bool)

  datatype Phase =
    | Locking(next: nat)
    | Inserting(events: seq<Event>)
    | Projecting(events: seq<Event>, rows: map<nat, GroupRows>, next: nat)
    | Ended

  datatype Tx = Tx(job: Job, phase: Phase, held: set<nat>)

  /** `lives` is the committed log and rows of each group, `past` the actions committed to it, and `done` the
      committed jobs, in commit order. */
  datatype System = System(
    nextId: nat,
    lives: map<nat, Life>,
    past: map<nat, seq<Action>>,
    done: seq<Job>,
    txs: map<nat, Tx>)

  datatype Turn = Begin(id: nat, job: Job) | Act(id: nat) | Fail(id: nat)

  const IDLE := System(0, map[], map[], [], map[])

  const NO_LIFE := Life([], NO_ROWS)

  function LifeAt(lives: map<nat, Life>, g: nat): Life { if g in lives then lives[g] else NO_LIFE }

  function PastAt(past: map<nat, seq<Action>>, g: nat): seq<Action> { if g in past then past[g] else [] }

  // -------------------------------------------------------------------- the turns

  ghost predicate HeldByOther(s: System, id: nat, g: nat) {
    exists u :: u in s.txs && u != id && g in s.txs[u].held
  }

  function End(t: Tx): Tx { Tx(t.job, Ended, {}) }

  /** What the transaction writes for one of its groups. */
  ghost function NextRows(life: Life, job: Job, events: seq<Event>, g: nat): GroupRows {
    if job.rebuild then Rebuild(life.log) else UploadRows(life.rows, life.log, InGroup(events, g))
  }

  ghost function ActionFor(job: Job, events: seq<Event>, g: nat): Action {
    if job.rebuild then RebuildGroup else Upload(InGroup(events, g))
  }

  ghost function ProjectGroup(t: Tx, lives: map<nat, Life>, g: nat): Tx
    requires t.phase.Projecting?
  {
    var rows := t.phase.rows[g := NextRows(LifeAt(lives, g), t.job, t.phase.events, g)];
    t.(phase := Projecting(t.phase.events, rows, t.phase.next + 1))
  }

  ghost function Advance(s: System, id: nat): System
    requires id in s.txs
  {
    var t := s.txs[id];
    match t.phase
    case Locking(i) =>
      if i >= |t.job.groups| then s.(txs := s.txs[id := t.(phase := Inserting([]))])
      else if HeldByOther(s, id, t.job.groups[i]) then
        // an upload asks with NOWAIT and aborts; a rebuild waits
        if t.job.rebuild then s else s.(txs := s.txs[id := End(t)])
      else s.(txs := s.txs[id := t.(phase := Locking(i + 1), held := t.held + {t.job.groups[i]})])
    case Inserting(es) =>
      if |es| >= |t.job.lines| then s.(txs := s.txs[id := t.(phase := Projecting(es, map[], 0))])
      else
        var e := t.job.lines[|es|].(id := s.nextId);
        s.(nextId := s.nextId + 1, txs := s.txs[id := t.(phase := Inserting(es + [e]))])
    case Projecting(_, _, k) =>
      if k >= |t.job.groups| then Commit(s, id)
      else
        s.(txs := s.txs[id := ProjectGroup(t, s.lives, t.job.groups[k])])
    case Ended => s
  }

  ghost function RowsAt(rows: map<nat, GroupRows>, g: nat): GroupRows { if g in rows then rows[g] else NO_ROWS }

  ghost function Commit(s: System, id: nat): System
    requires id in s.txs && s.txs[id].phase.Projecting?
  {
    var t := s.txs[id];
    var es := t.phase.events;
    s.(lives := s.lives + map g | g in t.job.groups ::
                  Life(LifeAt(s.lives, g).log + InGroup(es, g), RowsAt(t.phase.rows, g)),
       past := s.past + map g | g in t.job.groups :: PastAt(s.past, g) + [ActionFor(t.job, es, g)],
       done := s.done + [t.job],
       txs := s.txs[id := End(t)])
  }

  ghost function Next(s: System, turn: Turn): System {
    match turn
    case Begin(id, job) => if id in s.txs then s else s.(txs := s.txs[id := Tx(job, Locking(0), {})])
    case Fail(id) => if id !in s.txs then s else s.(txs := s.txs[id := End(s.txs[id])])
    case Act(id) => if id !in s.txs then s else Advance(s, id)
  }

  ghost function Reached(turns: seq<Turn>): System {
    if turns == [] then IDLE else Next(Reached(turns[..|turns| - 1]), turns[|turns| - 1])
  }

  // --------------------------------------------------------------- the invariant

  /** Every line resolves to one of the groups; a rebuild inserts nothing. */
  ghost predicate JobOk(job: Job) {
    (forall e :: e in job.lines ==> e.group in job.groups) && (job.rebuild ==> job.lines == [])
  }

  ghost predicate JobsOk(turns: seq<Turn>) {
    forall k :: 0 <= k < |turns| && turns[k].Begin? ==> JobOk(turns[k].job)
  }

  ghost predicate IdsBelow(es: seq<Event>, n: nat) { forall e :: e in es ==> e.id < n }

  /** What is committed for a group is its serial history, and its row ids are used up. */
  ghost predicate GroupOk(s: System, g: nat) {
    && LifeAt(s.lives, g) == Live(PastAt(s.past, g)) && WellFormed(PastAt(s.past, g))
    && IdsBelow(LifeAt(s.lives, g).log, s.nextId)
  }

  function EventsOf(p: Phase): seq<Event> {
    match p
    case Inserting(es) => es
    case Projecting(es, _, _) => es
    case _ => []
  }

  predicate HoldsAll(p: Phase) { p.Inserting? || p.Projecting? }

  ghost predicate LocksOk(t: Tx) {
    && (t.phase.Locking? ==> forall j :: 0 <= j < t.phase.next && j < |t.job.groups| ==> t.job.groups[j] in t.held)
    && (HoldsAll(t.phase) ==> forall g :: g in t.job.groups ==> g in t.held)
  }

  /** The rows inserted so far were numbered after everything committed to the transaction's groups. */
  ghost predicate InsertedOk(t: Tx, lives: map<nat, Life>, nextId: nat) {
    var es := EventsOf(t.phase);
    && IdsBelow(es, nextId) && |es| <= |t.job.lines|
    && (forall g :: g in t.job.groups ==> IdsAppend(LifeAt(lives, g).log, es))
  }

  /** The rows computed so far are still what the committed state prescribes. */
  ghost predicate ProjectedOk(t: Tx, lives: map<nat, Life>) {
    t.phase.Projecting? ==>
      forall j :: 0 <= j < t.phase.next && j < |t.job.groups| ==> RowOk(t, lives, t.job.groups[j])
  }

  ghost predicate RowOk(t: Tx, lives: map<nat, Life>, g: nat)
    requires t.phase.Projecting?
  {
    g in t.phase.rows && t.phase.rows[g] == NextRows(LifeAt(lives, g), t.job, t.phase.events, g)
  }

  ghost predicate TxOk(t: Tx, lives: map<nat, Life>, nextId: nat) {
    JobOk(t.job) && LocksOk(t) && InsertedOk(t, lives, nextId) && ProjectedOk(t, lives)
  }

  ghost predicate AllOk(s: System) { forall id :: id in s.txs ==> TxOk(s.txs[id], s.lives, s.nextId) }

  ghost predicate AllApart(txs: map<nat, Tx>) {
    forall t, u :: t in txs && u in txs && t != u ==> txs[t].held !! txs[u].held
  }

  ghost predicate GroupsOk(s: System) { forall g :: GroupOk(s, g) }

  ghost predicate Inv(s: System) { GroupsOk(s) && AllOk(s) && AllApart(s.txs) }

  // ----------------------------------------------------------------- preservation

  /** A transaction's obligations look only at the groups it has locked, and at ids already drawn. */
  lemma {:induction false} TxOkFrame(t: Tx, lives: map<nat, Life>, lives': map<nat, Life>, n: nat, n': nat)
    requires TxOk(t, lives, n) && n <= n'
    requires HoldsAll(t.phase) ==> forall g :: g in t.job.groups ==> LifeAt(lives', g) == LifeAt(lives, g)
    ensures TxOk(t, lives', n')
  {
    if !HoldsAll(t.phase) { assert EventsOf(t.phase) == []; }
    if t.phase.Projecting? {
      forall j | 0 <= j < t.phase.next && j < |t.job.groups| ensures RowOk(t, lives', t.job.groups[j]) {
        assert t.job.groups[j] in t.job.groups && RowOk(t, lives, t.job.groups[j]);
      }
    }
  }

  lemma {:induction false} LocksDone(t: Tx)
    requires LocksOk(t) && t.phase.Locking? && t.phase.next >= |t.job.groups|
    ensures LocksOk(t.(phase := Inserting([])))
  {
    forall g | g in t.job.groups ensures g in t.held {
      var j :| 0 <= j < |t.job.groups| && t.job.groups[j] == g;
    }
  }

  /** A fresh id is above everything committed. */
  lemma {:induction false} InsertOk(s: System, id: nat)
    requires Inv(s) && id in s.txs && s.txs[id].phase.Inserting? && |s.txs[id].phase.events| < |s.txs[id].job.lines|
    ensures TxOk(Advance(s, id).txs[id], s.lives, s.nextId + 1)
  {
    var t := s.txs[id];
    assert TxOk(t, s.lives, s.nextId);
    var es := t.phase.events;
    var e := t.job.lines[|es|].(id := s.nextId);
    forall g | g in t.job.groups ensures IdsAppend(LifeAt(s.lives, g).log, es + [e]) {
      assert GroupOk(s, g) && IdsAppend(LifeAt(s.lives, g).log, es);
    }
  }

  lemma {:induction false} RowStays(t: Tx, lives: map<nat, Life>, g: nat, h: nat)
    requires t.phase.Projecting? && (h == g || RowOk(t, lives, h))
    ensures RowOk(ProjectGroup(t, lives, g), lives, h)
  {
  }

  lemma {:induction false} ProjectOk(t: Tx, lives: map<nat, Life>, n: nat)
    requires TxOk(t, lives, n) && t.phase.Projecting? && t.phase.next < |t.job.groups|
    ensures TxOk(ProjectGroup(t, lives, t.job.groups[t.phase.next]), lives, n)
  {
    var g := t.job.groups[t.phase.next];
    var t' := ProjectGroup(t, lives, g);
    assert EventsOf(t'.phase) == EventsOf(t.phase);
    forall j | 0 <= j < t'.phase.next && j < |t.job.groups| ensures RowOk(t', lives, t.job.groups[j]) {
      RowStays(t, lives, g, t.job.groups[j]);
    }
  }

  lemma {:induction false} LockOk(s: System, id: nat)
    requires Inv(s) && id in s.txs && s.txs[id].phase.Locking?
    ensures TxOk(Advance(s, id).txs[id], s.lives, s.nextId)
  {
    var t := s.txs[id];
    assert TxOk(t, s.lives, s.nextId);
    if t.phase.next >= |t.job.groups| { LocksDone(t); }
  }

  /** Statements other than a commit leave what is committed alone. */
  lemma {:induction false} OwnTxOk(s: System, id: nat)
    requires Inv(s) && id in s.txs && !Commits(s, id)
    ensures var s' := Advance(s, id); TxOk(s'.txs[id], s'.lives, s'.nextId)
  {
    var t := s.txs[id];
    assert TxOk(t, s.lives, s.nextId);
    match t.phase
    case Locking(_) => LockOk(s, id);
    case Inserting(es) => if |es| < |t.job.lines| { InsertOk(s, id); }
    case Projecting(_, _, _) => ProjectOk(t, s.lives, s.nextId);
    case Ended =>
  }

  ghost predicate Commits(s: System, id: nat)
    requires id in s.txs
  {
    s.txs[id].phase.Projecting? && s.txs[id].phase.next >= |s.txs[id].job.groups|
  }

  lemma {:induction false} AdvanceFrame(s: System, id: nat)
    requires id in s.txs && !Commits(s, id)
    ensures var s' := Advance(s, id);
      && s'.lives == s.lives && s'.past == s.past && s'.done == s.done
      && s.nextId <= s'.nextId && s'.txs.Keys == s.txs.Keys
      && (forall u :: u in s.txs && u != id ==> s'.txs[u] == s.txs[u])
  {
  }

  /** Only what nobody else holds is taken. */
  lemma {:induction false} AdvanceApart(s: System, id: nat)
    requires AllApart(s.txs) && id in s.txs
    ensures AllApart(Advance(s, id).txs)
  {
    var txs := Advance(s, id).txs;
    forall t, u | t in txs && u in txs && t != u ensures txs[t].held !! txs[u].held {
      assert s.txs[t].held !! s.txs[u].held;
    }
  }

  lemma {:induction false} PlainKeepsInv(s: System, id: nat)
    requires Inv(s) && id in s.txs && !Commits(s, id)
    ensures Inv(Advance(s, id))
  {
    var s' := Advance(s, id);
    AdvanceFrame(s, id);
    AdvanceApart(s, id);
    OwnTxOk(s, id);
    forall u | u in s'.txs ensures TxOk(s'.txs[u], s'.lives, s'.nextId) {
      if u != id {
        assert TxOk(s.txs[u], s.lives, s.nextId);
        TxOkFrame(s.txs[u], s.lives, s'.lives, s.nextId, s'.nextId);
      }
    }
    forall g ensures GroupOk(s', g) { assert GroupOk(s, g); }
  }

  lemma {:induction false} LiveAfter(past: seq<Action>, a: Action)
    ensures Live(past + [a]) ==
            match a
            case Upload(events) =>
              Life(Live(past).log + events, UploadRows(Live(past).rows, Live(past).log, events))
            case RebuildGroup => Life(Live(past).log, Rebuild(Live(past).log))
  {
    assert (past + [a])[..|past|] == past;
  }

  lemma {:induction false} WellFormedAfter(past: seq<Action>, a: Action)
    requires WellFormed(past) && (a.Upload? ==> IdsAppend(Live(past).log, a.events))
    ensures WellFormed(past + [a])
  {
    var all := past + [a];
    forall k | 0 <= k < |all| && all[k].Upload? ensures IdsAppend(Live(all[..k]).log, all[k].events) {
      if k < |past| { assert all[..k] == past[..k]; } else { assert all[..k] == past; }
    }
  }

  lemma {:induction false} OneMoreAction(past: seq<Action>, job: Job, es: seq<Event>, g: nat)
    requires WellFormed(past) && IdsAppend(Live(past).log, es) && (job.rebuild ==> es == [])
    ensures var life := Live(past);
      && Live(past + [ActionFor(job, es, g)]) == Life(life.log + InGroup(es, g), NextRows(life, job, es, g))
      && WellFormed(past + [ActionFor(job, es, g)])
  {
    FilterMembers(es, OfGroup(g));
    LiveAfter(past, ActionFor(job, es, g));
    WellFormedAfter(past, ActionFor(job, es, g));
    if job.rebuild { assert Live(past).log + InGroup(es, g) == Live(past).log; }
  }

  /** A commit is one more action of each of its groups. */
  lemma {:induction false} CommitGroup(s: System, id: nat, g: nat)
    requires Inv(s) && id in s.txs && Commits(s, id) && g in s.txs[id].job.groups
    ensures GroupOk(Commit(s, id), g)
  {
    var t := s.txs[id];
    assert TxOk(t, s.lives, s.nextId) && GroupOk(s, g);
    var j :| 0 <= j < |t.job.groups| && t.job.groups[j] == g;
    assert RowOk(t, s.lives, t.job.groups[j]);
    OneMoreAction(PastAt(s.past, g), t.job, t.phase.events, g);
    FilterMembers(t.phase.events, OfGroup(g));
    CommitHere(s, id, g);
  }

  lemma {:induction false} CommitHere(s: System, id: nat, g: nat)
    requires id in s.txs && s.txs[id].phase.Projecting? && g in s.txs[id].job.groups && g in s.txs[id].phase.rows
    ensures var t, s' := s.txs[id], Commit(s, id);
      && LifeAt(s'.lives, g) == Life(LifeAt(s.lives, g).log + InGroup(t.phase.events, g), t.phase.rows[g])
      && PastAt(s'.past, g) == PastAt(s.past, g) + [ActionFor(t.job, t.phase.events, g)] && s'.nextId == s.nextId
  {
  }

  lemma {:induction false} CommitElsewhere(s: System, id: nat, g: nat)
    requires id in s.txs && s.txs[id].phase.Projecting? && g !in s.txs[id].job.groups
    ensures LifeAt(Commit(s, id).lives, g) == LifeAt(s.lives, g) && PastAt(Commit(s, id).past, g) == PastAt(s.past, g)
  {
  }

  /** The locks keep a commit away from the groups of every other transaction that reads or writes. */
  lemma {:induction false} CommitKeepsOther(s: System, id: nat, u: nat)
    requires Inv(s) && id in s.txs && u in s.txs && u != id && Commits(s, id)
    ensures TxOk(s.txs[u], Commit(s, id).lives, s.nextId)
  {
    var t, other := s.txs[id], s.txs[u];
    assert TxOk(t, s.lives, s.nextId) && TxOk(other, s.lives, s.nextId) && t.held !! other.held;
    if HoldsAll(other.phase) {
      forall g | g in other.job.groups ensures LifeAt(Commit(s, id).lives, g) == LifeAt(s.lives, g) {
        assert g in other.held && g !in t.held;
        CommitElsewhere(s, id, g);
      }
    }
    TxOkFrame(other, s.lives, Commit(s, id).lives, s.nextId, s.nextId);
  }

  lemma {:induction false} EndedOk(t: Tx, lives: map<nat, Life>, n: nat)
    requires JobOk(t.job)
    ensures TxOk(End(t), lives, n)
  {
  }
}
