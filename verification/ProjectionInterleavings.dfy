/** Every interleaving of uploads and rebuilds keeps the projection protocol's invariant, so each group's rows
    are those of its serial history (forensics/ingest.py and forensics/projections.py). */
module ProjectionInterleavings {
  import opened Orders
  import opened Convergence
  import opened Projection
  import opened ProjectionHistory
  import opened ProjectionStore
  import opened ProjectionProtocol

  lemma {:induction false} CommitKeepsInv(s: System, id: nat)
    requires Inv(s) && id in s.txs && Commits(s, id)
    ensures Inv(Commit(s, id))
  {
    var s' := Commit(s, id);
    AdvanceApart(s, id);
    forall g ensures GroupOk(s', g) {
      assert GroupOk(s, g);
      if g in s.txs[id].job.groups { CommitGroup(s, id, g); } else { CommitElsewhere(s, id, g); }
    }
    forall u | u in s'.txs ensures TxOk(s'.txs[u], s'.lives, s'.nextId) {
      if u == id {
        assert TxOk(s.txs[id], s.lives, s.nextId);
        EndedOk(s.txs[id], s'.lives, s'.nextId);
      } else {
        CommitKeepsOther(s, id, u);
      }
    }
  }

  /** Beginning or ending a transaction touches nothing committed. */
  lemma {:induction false} OutsideKeepsInv(s: System, id: nat, t: Tx)
    requires Inv(s) && JobOk(t.job) && t.held == {} && (t.phase == Locking(0) || t.phase.Ended?)
    ensures Inv(s.(txs := s.txs[id := t]))
  {
    var s' := s.(txs := s.txs[id := t]);
    forall g ensures GroupOk(s', g) { assert GroupOk(s, g); }
    forall u | u in s'.txs ensures TxOk(s'.txs[u], s'.lives, s'.nextId) {
      if u != id { assert TxOk(s.txs[u], s.lives, s.nextId); }
    }
    forall x, y | x in s'.txs && y in s'.txs && x != y ensures s'.txs[x].held !! s'.txs[y].held {
      if x != id && y != id { assert s.txs[x].held !! s.txs[y].held; }
    }
  }

  lemma {:induction false} NextKeepsInv(s: System, turn: Turn)
    requires Inv(s) && (turn.Begin? ==> JobOk(turn.job))
    ensures Inv(Next(s, turn))
  {
    match turn
    case Begin(id, job) => if id !in s.txs { OutsideKeepsInv(s, id, Tx(job, Locking(0), {})); }
    case Fail(id) =>
      if id in s.txs {
        assert TxOk(s.txs[id], s.lives, s.nextId);
        OutsideKeepsInv(s, id, End(s.txs[id]));
      }
    case Act(id) =>
      if id in s.txs {
        if Commits(s, id) { CommitKeepsInv(s, id); } else { PlainKeepsInv(s, id); }
      }
  }

  lemma {:induction false} RunInv(turns: seq<Turn>)
    requires JobsOk(turns)
    ensures Inv(Reached(turns))
  {
    if turns == [] {
      forall g ensures GroupOk(IDLE, g) {}
    } else {
      var n := |turns| - 1;
      assert forall k :: 0 <= k < n ==> turns[..n][k] == turns[k];
      RunInv(turns[..n]);
      NextKeepsInv(Reached(turns[..n]), turns[n]);
    }
  }

  // ------------------------------------------------------------------ consequences

  /** EVERY INTERLEAVING IS A SERIAL HISTORY OF EACH GROUP: its committed log and rows are those of its uploads and
      rebuilds one after another in commit order, and its row ids ascend over them although the
      sequence is shared and drawn from without any order between groups. */
  lemma {:induction false} ProjectionsAreSerial(turns: seq<Turn>, g: nat)
    requires JobsOk(turns)
    ensures var s := Reached(turns);
      LifeAt(s.lives, g) == Live(PastAt(s.past, g)) && WellFormed(PastAt(s.past, g))
  {
    RunInv(turns);
    assert GroupOk(Reached(turns), g);
  }

  ghost predicate Plain(es: seq<Event>) { NoExplicit(es) && NoOverrides(es) }

  ghost predicate JobsPlain(turns: seq<Turn>) {
    forall k :: 0 <= k < |turns| && turns[k].Begin? ==> Plain(turns[k].job.lines)
  }

  ghost predicate PlainInv(s: System) {
    && (forall g :: FreeOfRunIds(PastAt(s.past, g)))
    && (forall id :: id in s.txs ==> Plain(s.txs[id].job.lines) && Plain(EventsOf(s.txs[id].phase)))
  }

  lemma {:induction false} PlainCommit(s: System, id: nat, g: nat)
    requires PlainInv(s) && id in s.txs && s.txs[id].phase.Projecting?
    ensures FreeOfRunIds(PastAt(Commit(s, id).past, g))
  {
    var t := s.txs[id];
    assert FreeOfRunIds(PastAt(s.past, g)) && Plain(EventsOf(t.phase));
    if g in t.job.groups {
      FreeAfter(PastAt(s.past, g), t.job, t.phase.events, g);
    }
  }

  lemma {:induction false} FreeAfter(past: seq<Action>, job: Job, es: seq<Event>, g: nat)
    requires FreeOfRunIds(past) && Plain(es)
    ensures FreeOfRunIds(past + [ActionFor(job, es, g)])
  {
    FilterMembers(es, OfGroup(g));
  }

  lemma {:induction false} PlainNext(s: System, turn: Turn)
    requires PlainInv(s) && (turn.Begin? ==> Plain(turn.job.lines))
    ensures PlainInv(Next(s, turn))
  {
    if turn.Act? && turn.id in s.txs && Commits(s, turn.id) {
      forall g ensures FreeOfRunIds(PastAt(Commit(s, turn.id).past, g)) { PlainCommit(s, turn.id, g); }
    } else if turn.Act? && turn.id in s.txs {
      AdvanceFrame(s, turn.id);
      PlainAdvance(s, turn.id);
    }
  }

  lemma {:induction false} PlainAdvance(s: System, id: nat)
    requires PlainInv(s) && id in s.txs && !Commits(s, id)
    ensures var t := Advance(s, id).txs[id]; Plain(t.job.lines) && Plain(EventsOf(t.phase))
  {
    var t := s.txs[id];
    assert Plain(t.job.lines) && Plain(EventsOf(t.phase));
    if t.phase.Inserting? && |t.phase.events| < |t.job.lines| {
      assert t.job.lines[|t.phase.events|] in t.job.lines;
    }
  }

  lemma {:induction false} PlainRun(turns: seq<Turn>)
    requires JobsPlain(turns)
    ensures PlainInv(Reached(turns))
  {
    if turns != [] {
      var n := |turns| - 1;
      assert forall k :: 0 <= k < n ==> turns[..n][k] == turns[k];
      PlainRun(turns[..n]);
      PlainNext(Reached(turns[..n]), turns[n]);
    }
  }

  /** EVERY INTERLEAVING IS FAITHFUL when no uploaded event names a run: every group's rows are those of one full
      rebuild of its committed log, whichever path each upload took. */
  lemma {:induction false} InterleavingIsFaithful(turns: seq<Turn>, g: nat)
    requires JobsOk(turns) && JobsPlain(turns)
    ensures var life := LifeAt(Reached(turns).lives, g); Faithful(life.rows, life.log)
  {
    ProjectionsAreSerial(turns, g);
    PlainRun(turns);
    assert FreeOfRunIds(PastAt(Reached(turns).past, g));
    RunIdFreeHistory(PastAt(Reached(turns).past, g));
  }

  // ------------------------------------------------------- what is committed is what was uploaded

  /** The event as it was uploaded, before it was numbered. */
  function Blank(e: Event): Event { e.(id := 0) }

  function Blanks(es: seq<Event>): seq<Event> {
    if es == [] then [] else Blanks(es[..|es| - 1]) + [Blank(es[|es| - 1])]
  }

  /** The lines of the committed jobs that resolve to the group, in commit order. */
  function Uploaded(done: seq<Job>, g: nat): seq<Event> {
    if done == [] then [] else Uploaded(done[..|done| - 1], g) + InGroup(done[|done| - 1].lines, g)
  }

  lemma {:induction false} BlanksConcat(a: seq<Event>, b: seq<Event>)
    ensures Blanks(a + b) == Blanks(a) + Blanks(b)
  {
    if b == [] {
      assert a + b == a;
    } else {
      assert (a + b)[..|a + b| - 1] == a + b[..|b| - 1];
      BlanksConcat(a, b[..|b| - 1]);
    }
  }

  lemma {:induction false} BlanksSize(es: seq<Event>)
    ensures |Blanks(es)| == |es|
  {
    if es != [] { BlanksSize(es[..|es| - 1]); }
  }

  /** Numbering moves no event to another group. */
  lemma {:induction false} BlanksInGroup(a: seq<Event>, b: seq<Event>, g: nat)
    requires Blanks(a) == Blanks(b)
    ensures Blanks(InGroup(a, g)) == Blanks(InGroup(b, g))
  {
    BlanksSize(a);
    BlanksSize(b);
    if a != [] {
      var n := |a| - 1;
      assert Blanks(a)[..n] == Blanks(a[..n]) && Blanks(b)[..n] == Blanks(b[..n]) by {
        BlanksSize(a[..n]);
        BlanksSize(b[..n]);
      }
      BlanksInGroup(a[..n], b[..n], g);
      BlanksSame(a, b);
      BlanksGroupLast(a, g);
      BlanksGroupLast(b, g);
    }
  }

  lemma {:induction false} BlanksSame(a: seq<Event>, b: seq<Event>)
    requires Blanks(a) == Blanks(b) && a != [] && |a| == |b|
    ensures Blank(a[|a| - 1]) == Blank(b[|b| - 1]) && a[|a| - 1].group == b[|b| - 1].group
  {
    BlanksSize(a[..|a| - 1]);
    BlanksSize(b[..|b| - 1]);
    assert Blanks(a)[|a| - 1] == Blank(a[|a| - 1]) && Blanks(b)[|b| - 1] == Blank(b[|b| - 1]);
    assert Blank(a[|a| - 1]).group == a[|a| - 1].group && Blank(b[|b| - 1]).group == b[|b| - 1].group;
  }

  lemma {:induction false} BlanksGroupLast(a: seq<Event>, g: nat)
    requires a != []
    ensures var n := |a| - 1;
      Blanks(InGroup(a, g)) == Blanks(InGroup(a[..n], g)) + if a[n].group == g then [Blank(a[n])] else []
  {
    var n := |a| - 1;
    InGroupSnoc(a, n, g);
    assert a[..n + 1] == a;
    if a[n].group == g {
      BlanksConcat(InGroup(a[..n], g), [a[n]]);
      assert [a[n]][..0] == [];
      assert Blanks([a[n]]) == Blanks([a[n]][..0]) + [Blank(a[n])];
    } else {
      assert Blanks(InGroup(a[..n], g)) + [] == Blanks(InGroup(a[..n], g));
    }
  }

  /** The rows a transaction has inserted are its lines so far, and all of them once it projects. */
  ghost predicate LinesOk(t: Tx) {
    && |EventsOf(t.phase)| <= |t.job.lines|
    && (HoldsAll(t.phase) ==> Blanks(EventsOf(t.phase)) == Blanks(t.job.lines[..|EventsOf(t.phase)|]))
    && (t.phase.Projecting? ==> |EventsOf(t.phase)| == |t.job.lines|)
  }

  ghost predicate LogOk(s: System, g: nat) { Blanks(LifeAt(s.lives, g).log) == Blanks(Uploaded(s.done, g)) }

  ghost predicate LineInv(s: System) {
    (forall g :: LogOk(s, g)) && forall id :: id in s.txs ==> LinesOk(s.txs[id]) && JobOk(s.txs[id].job)
  }

  lemma {:induction false} InsertedLine(t: Tx, e: Event)
    requires LinesOk(t) && t.phase.Inserting? && |t.phase.events| < |t.job.lines|
    requires Blank(e) == Blank(t.job.lines[|t.phase.events|])
    ensures LinesOk(t.(phase := Inserting(t.phase.events + [e])))
  {
    var es := t.phase.events;
    var lines := t.job.lines;
    assert lines[..|es| + 1] == lines[..|es|] + [lines[|es|]];
    BlanksConcat(es, [e]);
    BlanksConcat(lines[..|es|], [lines[|es|]]);
    BlanksOne(e);
    BlanksOne(lines[|es|]);
  }

  lemma {:induction false} BlanksOne(e: Event)
    ensures Blanks([e]) == [Blank(e)]
  {
    assert [e][..0] == [];
    assert Blanks([e]) == Blanks([e][..0]) + [Blank(e)];
  }

  lemma {:induction false} AdvanceLines(s: System, id: nat)
    requires LineInv(s) && id in s.txs && !Commits(s, id)
    ensures var t := Advance(s, id).txs[id]; LinesOk(t) && JobOk(t.job)
  {
    var t := s.txs[id];
    assert LinesOk(t) && JobOk(t.job);
    if t.phase.Inserting? {
      InsertLines(s, id);
    } else {
      OtherLines(s, id);
    }
  }

  lemma {:induction false} InsertLines(s: System, id: nat)
    requires id in s.txs && s.txs[id].phase.Inserting? && LinesOk(s.txs[id])
    ensures var t := Advance(s, id).txs[id]; LinesOk(t) && t.job == s.txs[id].job
  {
    var t := s.txs[id];
    if |t.phase.events| < |t.job.lines| {
      InsertedLine(t, t.job.lines[|t.phase.events|].(id := s.nextId));
    }
  }

  lemma {:induction false} OtherLines(s: System, id: nat)
    requires id in s.txs && !s.txs[id].phase.Inserting? && !Commits(s, id) && LinesOk(s.txs[id])
    ensures var t := Advance(s, id).txs[id]; LinesOk(t) && t.job == s.txs[id].job
  {
  }

  /** A commit adds to each group exactly the job's lines that resolve to it. */
  lemma {:induction false} CommitLog(s: System, id: nat, g: nat)
    requires LineInv(s) && id in s.txs && Commits(s, id)
    ensures LogOk(Commit(s, id), g)
  {
    var t := s.txs[id];
    assert LinesOk(t) && JobOk(t.job) && LogOk(s, g);
    var es, lines := t.phase.events, t.job.lines;
    assert lines[..|es|] == lines;
    assert (s.done + [t.job])[..|s.done|] == s.done;
    BlanksInGroup(es, lines, g);
    BlanksConcat(LifeAt(s.lives, g).log, InGroup(es, g));
    BlanksConcat(Uploaded(s.done, g), InGroup(lines, g));
    if g !in t.job.groups {
      CommitElsewhere(s, id, g);
      FilterNone(lines, OfGroup(g));
      assert Uploaded(s.done, g) + [] == Uploaded(s.done, g);
    }
  }

  lemma {:induction false} NextLines(s: System, turn: Turn)
    requires LineInv(s) && (turn.Begin? ==> JobOk(turn.job))
    ensures LineInv(Next(s, turn))
  {
    if turn.Act? && turn.id in s.txs && Commits(s, turn.id) {
      CommitLines(s, turn.id);
    } else if turn.Act? && turn.id in s.txs {
      AdvanceFrame(s, turn.id);
      AdvanceLines(s, turn.id);
      SameLogs(s, Advance(s, turn.id));
    } else {
      SameLogs(s, Next(s, turn));
    }
  }

  lemma {:induction false} CommitLines(s: System, id: nat)
    requires LineInv(s) && id in s.txs && Commits(s, id)
    ensures LineInv(Commit(s, id))
  {
    var s' := Commit(s, id);
    forall g ensures LogOk(s', g) { CommitLog(s, id, g); }
    forall u | u in s'.txs ensures LinesOk(s'.txs[u]) && JobOk(s'.txs[u].job) {
      assert u in s.txs && LinesOk(s.txs[u]) && JobOk(s.txs[u].job);
      EndLines(s.txs[id]);
    }
  }

  lemma {:induction false} EndLines(t: Tx)
    ensures LinesOk(End(t)) && End(t).job == t.job
  {
  }

  lemma {:induction false} SameLogs(s: System, s': System)
    requires LineInv(s) && s'.lives == s.lives && s'.done == s.done
    ensures forall g :: LogOk(s', g)
  {
    forall g ensures LogOk(s', g) { assert LogOk(s, g); }
  }

  lemma {:induction false} RunLines(turns: seq<Turn>)
    requires JobsOk(turns)
    ensures LineInv(Reached(turns))
  {
    if turns != [] {
      var n := |turns| - 1;
      assert forall k :: 0 <= k < n ==> turns[..n][k] == turns[k];
      RunLines(turns[..n]);
      NextLines(Reached(turns[..n]), turns[n]);
    }
  }

  /** WHAT IS COMMITTED IS WHAT WAS UPLOADED: in every interleaving each group's log is the lines of the committed
      jobs that resolve to it, in commit order, equal in every column but the number they drew. */
  lemma {:induction false} LogIsUploaded(turns: seq<Turn>, g: nat)
    requires JobsOk(turns)
    ensures var s := Reached(turns); Blanks(LifeAt(s.lives, g).log) == Blanks(Uploaded(s.done, g))
  {
    RunLines(turns);
    assert LogOk(Reached(turns), g);
  }

  // --------------------------------------------------------------- a lone job gets through

  ghost predicate Alone(s: System, id: nat) {
    id in s.txs && forall u :: u in s.txs && u != id ==> s.txs[u].held == {}
  }

  ghost function Acts(s: System, id: nat, n: nat): System
    decreases n
  {
    if n == 0 then s else Acts(Next(s, Act(id)), id, n - 1)
  }

  /** The same transactions and committed state, with this one further on. */
  ghost predicate Onward(s: System, s': System, id: nat) {
    id in s.txs && Alone(s', id) && s'.txs[id].job == s.txs[id].job && s'.done == s.done
  }

  lemma {:induction false} LockOne(s: System, id: nat)
    requires Alone(s, id) && s.txs[id].phase.Locking?
    ensures var t, s' := s.txs[id], Next(s, Act(id));
      && Onward(s, s', id)
      && s'.txs[id].phase == if t.phase.next < |t.job.groups| then Locking(t.phase.next + 1) else Inserting([])
  {
  }

  lemma {:induction false} InsertOne(s: System, id: nat)
    requires Alone(s, id) && s.txs[id].phase.Inserting?
    ensures var t, s' := s.txs[id], Next(s, Act(id));
      && Onward(s, s', id)
      && (|t.phase.events| < |t.job.lines| ==>
            s'.txs[id].phase.Inserting? && |s'.txs[id].phase.events| == |t.phase.events| + 1)
      && (|t.phase.events| >= |t.job.lines| ==> s'.txs[id].phase.Projecting? && s'.txs[id].phase.next == 0)
  {
  }

  lemma {:induction false} ProjectOne(s: System, id: nat)
    requires Alone(s, id) && s.txs[id].phase.Projecting?
    ensures var t, s' := s.txs[id], Next(s, Act(id));
      && (t.phase.next < |t.job.groups| ==>
            Onward(s, s', id) && s'.txs[id].phase.Projecting? && s'.txs[id].phase.next == t.phase.next + 1)
      && (t.phase.next >= |t.job.groups| ==>
            id in s'.txs && s'.txs[id].phase.Ended? && s'.done == s.done + [t.job])
  {
  }

  lemma {:induction false} ActsOne(s: System, id: nat, n: nat)
    ensures Acts(s, id, n + 1) == Acts(Next(s, Act(id)), id, n) && Acts(s, id, 0) == s
  {
  }

  /** The turns a lone transaction still needs; a commit is one. */
  function TurnsLeft(t: Tx): int {
    match t.phase
    case Locking(i) => (|t.job.groups| - i + 1) + (|t.job.lines| + 1) + (|t.job.groups| + 1)
    case Inserting(es) => (|t.job.lines| - |es| + 1) + (|t.job.groups| + 1)
    case Projecting(_, _, k) => |t.job.groups| - k + 1
    case Ended => 0
  }

  /** It has not overshot any of its loops. */
  predicate Underway(t: Tx) {
    match t.phase
    case Locking(i) => i <= |t.job.groups|
    case Inserting(es) => |es| <= |t.job.lines|
    case Projecting(_, _, k) => k <= |t.job.groups|
    case Ended => false
  }

  lemma {:induction false} OneTurn(s: System, id: nat)
    requires Alone(s, id) && Underway(s.txs[id])
    ensures var t, s' := s.txs[id], Next(s, Act(id));
      && id in s'.txs && TurnsLeft(s'.txs[id]) == TurnsLeft(t) - 1
      && (TurnsLeft(t) == 1 ==> s'.txs[id].phase.Ended? && s'.done == s.done + [t.job])
      && (TurnsLeft(t) > 1 ==> Onward(s, s', id) && Underway(s'.txs[id]))
  {
    match s.txs[id].phase
    case Locking(_) => LockOne(s, id);
    case Inserting(_) => InsertOne(s, id);
    case Projecting(_, _, _) => ProjectOne(s, id);
  }

  lemma {:induction false} LoneRun(s: System, id: nat) returns (s': System)
    requires Alone(s, id) && Underway(s.txs[id])
    ensures TurnsLeft(s.txs[id]) >= 1 && s' == Acts(s, id, TurnsLeft(s.txs[id]))
    ensures id in s'.txs && s'.txs[id].phase.Ended? && s'.done == s.done + [s.txs[id].job]
    decreases TurnsLeft(s.txs[id])
  {
    var n := TurnsLeft(s.txs[id]);
    OneTurn(s, id);
    ActsOne(s, id, n - 1);
    s' := Next(s, Act(id));
    ActsOne(s', id, 0);
    if n > 1 { s' := LoneRun(s', id); }
  }

  lemma {:induction false} BeganAlone(s: System, id: nat, job: Job)
    requires id !in s.txs && forall u :: u in s.txs ==> s.txs[u].held == {}
    ensures var s0 := Next(s, Begin(id, job));
      Alone(s0, id) && s0.txs[id].job == job && s0.txs[id].phase == Locking(0) && s0.done == s.done
  {
  }

  /** A JOB THAT MEETS NO LOCK IS COMMITTED: from any state in which nobody else holds a group, a new job run on its own
      ends, and is the next committed one. */
  lemma {:induction false} LoneJobCommits(s: System, id: nat, job: Job) returns (s': System)
    requires id !in s.txs && forall u :: u in s.txs ==> s.txs[u].held == {}
    ensures s' == Acts(Next(s, Begin(id, job)), id, 2 * |job.groups| + |job.lines| + 3)
    ensures id in s'.txs && s'.txs[id].phase.Ended? && s'.done == s.done + [job]
  {
    BeganAlone(s, id, job);
    s' := LoneRun(Next(s, Begin(id, job)), id);
  }

  /** A failed transaction releases its locks and leaves nothing behind. */
  lemma {:induction false} FailLeavesNothing(s: System, id: nat)
    requires id in s.txs
    ensures var s' := Next(s, Fail(id));
      && s'.txs[id].held == {} && s'.txs[id].phase.Ended?
      && s'.lives == s.lives && s'.past == s.past && s'.done == s.done
  {
  }
}
