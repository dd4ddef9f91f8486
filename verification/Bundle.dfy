/** Publishing an investigation bundle once, under any pattern of operating-system failures and with
    other processes free to create the target name at any moment before the link
    (forensics/investigation_bundle.py). */
module Bundle {

  type Name = string

  datatype Inode = Inode(bytes: string, synced: bool)

  const MAX_BUNDLE_BYTES := 128 * 1024 * 1024

  function Concat(pieces: seq<string>): string {
    if pieces == [] then "" else Concat(pieces[..|pieces| - 1]) + pieces[|pieces| - 1]
  }

  lemma {:induction false} ConcatSnoc(pieces: seq<string>, i: nat)
    requires i < |pieces|
    ensures Concat(pieces[..i + 1]) == Concat(pieces[..i]) + pieces[i]
  {
    assert pieces[..i + 1][..i] == pieces[..i];
  }

  lemma {:induction false} ConcatGrows(pieces: seq<string>, i: nat)
    requires i <= |pieces|
    ensures |Concat(pieces[..i])| <= |Concat(pieces)|
    decreases |pieces| - i
  {
    if i == |pieces| {
      assert pieces[..i] == pieces;
    } else {
      ConcatSnoc(pieces, i);
      ConcatGrows(pieces, i + 1);
    }
  }

  /** A number above a finite set, and a name longer than any of a finite set. */
  lemma {:induction false} AboveAll(s: set<nat>) returns (i: nat)
    ensures i !in s && forall k :: k in s ==> k < i
  {
    i := 0;
    var todo := s;
    while todo != {}
      invariant todo <= s && forall k :: k in s && k !in todo ==> k < i
      decreases todo
    {
      var k :| k in todo;
      if k >= i { i := k + 1; }
      todo := todo - {k};
    }
  }

  lemma {:induction false} LongerThanAll(s: set<Name>) returns (name: Name)
    ensures name !in s && forall k :: k in s ==> |k| < |name|
  {
    var lengths: set<nat> := set k | k in s :: |k|;
    var n := AboveAll(lengths);
    name := seq(n, i => 'x');
    forall k | k in s ensures |k| < n { assert |k| in lengths; }
  }

  ghost predicate WrotePart(before: map<nat, Inode>, after: map<nat, Inode>, inode: nat, piece: string)
    requires inode in before
  {
    exists n :: 0 <= n <= |piece| && after == before[inode := Inode(before[inode].bytes + piece[..n], false)]
  }

  /** One directory: names bound to inodes, and whether the bindings have reached the disk. Every
      operation may report an error; a failed write may have written any part of its piece, and any
      other failed operation changed nothing. */
  class Directory {
    var entries: map<Name, nat>
    var inodes: map<nat, Inode>
    var durable: bool

    /** How many operations the system has failed. */
    var faults: nat

    ghost predicate Valid()
      reads this
    {
      forall n :: n in entries ==> entries[n] in inodes
    }

    /** Another process may bind a name that is still free. */
    method Interfere(name: Name)
      requires Valid()
      modifies this`entries, this`inodes
      ensures Valid() && inodes.Keys >= old(inodes.Keys)
      ensures forall i :: i in old(inodes) ==> inodes[i] == old(inodes)[i]
      ensures entries == old(entries) ||
              (name !in old(entries) && name in entries && entries[name] !in old(inodes) &&
                entries == old(entries)[name := entries[name]])
    {
      if * {
        if name !in entries {
          ghost var bound := AboveAll(inodes.Keys);
          var i :| i !in inodes;
          inodes := inodes[i := Inode("", false)];
          entries := entries[name := i];
        }
      }
    }

    /** `mkstemp`: a new name bound to a new empty file. */
    method MakeTemp(taken: Name) returns (ok: bool, temp: Name, inode: nat)
      requires Valid()
      modifies this
      ensures Valid()
      ensures ok ==> temp !in old(entries) && temp != taken && inode !in old(inodes)
      ensures ok ==> entries == old(entries)[temp := inode] && inodes == old(inodes)[inode := Inode("", false)]
      ensures !ok ==> entries == old(entries) && inodes == old(inodes) && durable == old(durable)
      ensures faults == old(faults) + if ok then 0 else 1
    {
      if * {
        faults := faults + 1;
        return false, "", 0;
      }
      ghost var bound := AboveAll(inodes.Keys);
      inode :| inode !in inodes;
      ghost var name := LongerThanAll(entries.Keys + {taken});
      temp :| temp !in entries && temp != taken;
      entries, inodes, durable := entries[temp := inode], inodes[inode := Inode("", false)], false;
      ok := true;
    }

    /** `write`: the whole piece, or an error after any prefix of it. */
    method Append(inode: nat, piece: string) returns (ok: bool)
      requires Valid() && inode in inodes
      modifies this`inodes, this`faults
      ensures faults == old(faults) + if ok then 0 else 1
      ensures Valid() && inode in inodes
      ensures ok ==> inodes == old(inodes)[inode := Inode(old(inodes)[inode].bytes + piece, false)]
      ensures !ok ==> WrotePart(old(inodes), inodes, inode, piece)
    {
      var n: nat :| n <= |piece|;
      inodes := inodes[inode := Inode(inodes[inode].bytes + piece[..n], false)];
      ok := n == |piece|;
      if ok { assert piece[..n] == piece; }
      if * { ok := false; }
      if !ok { faults := faults + 1; }
    }

    /** `flush`, `fsync` and the implicit `close`. */
    method SyncFile(inode: nat) returns (ok: bool)
      requires Valid() && inode in inodes
      modifies this`inodes, this`faults
      ensures faults == old(faults) + if ok then 0 else 1
      ensures Valid()
      ensures ok ==> inodes == old(inodes)[inode := Inode(old(inodes)[inode].bytes, true)]
      ensures !ok ==> inodes == old(inodes)
    {
      if * {
        faults := faults + 1;
        return false;
      }
      inodes := inodes[inode := inodes[inode].(synced := true)];
      return true;
    }

    /** `link`: never replaces. */
    method Link(source: Name, target: Name) returns (ok: bool)
      requires Valid() && source in entries
      modifies this`entries, this`durable, this`faults
      ensures faults == old(faults) + if ok || target in old(entries) then 0 else 1
      ensures Valid()
      ensures ok ==> target !in old(entries) && entries == old(entries)[target := old(entries)[source]] && !durable
      ensures !ok ==> entries == old(entries) && durable == old(durable)
    {
      if target in entries { return false; }
      if * {
        faults := faults + 1;
        return false;
      }
      entries, durable := entries[target := entries[source]], false;
      return true;
    }

    /** `unlink` followed by the directory sync; the sync can fail after the name is gone. */
    method UnlinkAndSync(name: Name) returns (ok: bool)
      requires Valid()
      modifies this`entries, this`durable, this`faults
      ensures faults == old(faults) + if ok then 0 else 1
      ensures Valid()
      ensures ok ==> entries == old(entries) - {name} && durable
      ensures !ok ==> entries == old(entries) || entries == old(entries) - {name}
    {
      if * {
        faults := faults + 1;
        return false;
      }
      entries, durable := entries - {name}, false;
      ok := SyncDirectory();
    }

    method SyncDirectory() returns (ok: bool)
      modifies this`durable, this`faults
      ensures faults == old(faults) + if ok then 0 else 1
      ensures ok ==> durable
      ensures !ok ==> durable == old(durable)
    {
      if * {
        faults := faults + 1;
        return false;
      }
      durable := true;
      return true;
    }
  }

  datatype Outcome = Published | Refused(reason: Reason) | Uncertain

  datatype Reason = TargetExists | BudgetExceeded | WriteFailed

  /** Names other than the target are bound as before, and no inode that existed has changed. */
  ghost predicate OthersUntouched(before: map<Name, nat>, after: map<Name, nat>, target: Name) {
    forall n :: n != target ==> (n in before <==> n in after) && (n in before ==> after[n] == before[n])
  }

  ghost predicate Preserved(before: map<nat, Inode>, after: map<nat, Inode>) {
    forall i :: i in before ==> i in after && after[i] == before[i]
  }

  /** The write loop: `written` counts before each write, so the file never exceeds the budget. */
  method Emit(dir: Directory, inode: nat, pieces: seq<string>) returns (failure: Outcome)
    requires dir.Valid() && inode in dir.inodes && dir.inodes[inode].bytes == ""
    modifies dir`inodes, dir`faults
    ensures dir.faults == old(dir.faults) + if failure == Refused(WriteFailed) then 1 else 0
    ensures dir.Valid() && inode in dir.inodes && |dir.inodes[inode].bytes| <= MAX_BUNDLE_BYTES
    ensures dir.inodes - {inode} == old(dir.inodes) - {inode}
    ensures failure.Published? ==> dir.inodes[inode].bytes == Concat(pieces)
    ensures failure.Refused? ==> failure.reason == BudgetExceeded || failure.reason == WriteFailed
    ensures failure == Refused(BudgetExceeded) ==> |Concat(pieces)| > MAX_BUNDLE_BYTES
    ensures !failure.Uncertain?
  {
    var written := 0;
    for i := 0 to |pieces|
      invariant dir.Valid() && inode in dir.inodes
      invariant dir.inodes[inode].bytes == Concat(pieces[..i]) && written == |Concat(pieces[..i])| <= MAX_BUNDLE_BYTES
      invariant dir.inodes - {inode} == old(dir.inodes) - {inode} && dir.faults == old(dir.faults)
    {
      ConcatSnoc(pieces, i);
      written := written + |pieces[i]|;
      if written > MAX_BUNDLE_BYTES {
        ConcatGrows(pieces, i + 1);
        return Refused(BudgetExceeded);
      }
      var ok := dir.Append(inode, pieces[i]);
      if !ok { return Refused(WriteFailed); }
    }
    assert pieces[..|pieces|] == pieces;
    return Published;
  }

  /** A failed write or an uncertain end needs at least one failed operation, and nothing else has any. */
  ghost predicate FaultsAccountFor(o: Outcome, before: nat, after: nat) {
    if o == Refused(WriteFailed) || o.Uncertain? then after > before else after == before
  }

  /** Our inode is complete and on disk. */
  ghost predicate Complete(dir: Directory, inode: nat, pieces: seq<string>)
    reads dir
  {
    inode in dir.inodes && dir.inodes[inode] == Inode(Concat(pieces), true)
  }

  /** Write, sync and link, rolling the link back if the directory cannot be synced. */
  method PublishTemp(dir: Directory, target: Name, temp: Name, inode: nat, pieces: seq<string>) returns (o: Outcome)
    requires dir.Valid() && temp != target && temp in dir.entries && dir.entries[temp] == inode
    requires dir.inodes[inode] == Inode("", false)
    modifies dir
    ensures dir.Valid() && temp in dir.entries
    ensures OthersUntouched(old(dir.entries), dir.entries, target)
    ensures Preserved(old(dir.inodes) - {inode}, dir.inodes)
    ensures inode in dir.inodes && |dir.inodes[inode].bytes| <= MAX_BUNDLE_BYTES
    ensures target in old(dir.entries) ==> target in dir.entries && dir.entries[target] == old(dir.entries)[target]
    ensures o.Published? ==>
            Complete(dir, inode, pieces) && target in dir.entries && dir.entries[target] == inode && dir.durable
    ensures o.Refused? && target in dir.entries && target !in old(dir.entries) ==> dir.entries[target] != inode
    ensures o == Refused(BudgetExceeded) ==> |Concat(pieces)| > MAX_BUNDLE_BYTES
    ensures FaultsAccountFor(o, old(dir.faults), dir.faults)
    ensures o == Refused(TargetExists) ==> target in dir.entries
  {
    o := Emit(dir, inode, pieces);
    if !o.Published? { return; }
    var ok := dir.SyncFile(inode);
    if !ok { return Refused(WriteFailed); }
    dir.Interfere(target);
    var taken := target in dir.entries;
    ok := dir.Link(temp, target);
    if !ok {
      return Refused(if taken then TargetExists else WriteFailed);
    }
    ok := dir.SyncDirectory();
    if ok { return Published; }
    ok := dir.UnlinkAndSync(target);
    return if ok then Refused(WriteFailed) else Uncertain;
  }

  /** `write_bundle`. Normal return: the target names the complete synced file and the temporary name
      is gone. Any error but uncertainty: neither name of ours is left. In every case a target that
      existed keeps its file, no other name changes, and no file of ours exceeds the budget. */
  method WriteBundle(dir: Directory, target: Name, pieces: seq<string>) returns (o: Outcome, ghost inode: nat)
    requires dir.Valid()
    modifies dir
    ensures dir.Valid()
    ensures Preserved(old(dir.inodes), dir.inodes)
    ensures target in old(dir.entries) ==>
              o == Refused(TargetExists) && dir.entries == old(dir.entries) && dir.inodes == old(dir.inodes)
    ensures o.Published? ==>
              && target !in old(dir.entries) && inode !in old(dir.inodes) && inode in dir.inodes
              && dir.entries == old(dir.entries)[target := inode]
              && dir.inodes[inode] == Inode(Concat(pieces), true) && dir.durable
              && |Concat(pieces)| <= 134_217_728
    ensures o.Refused? ==>
              && OthersUntouched(old(dir.entries), dir.entries, target)
              && (target in dir.entries ==> target in old(dir.entries) || dir.entries[target] != inode)
    ensures o == Refused(BudgetExceeded) ==> |Concat(pieces)| > 134_217_728
    ensures o == Refused(TargetExists) ==> target in dir.entries
    ensures FaultsAccountFor(o, old(dir.faults), dir.faults)
    ensures inode in dir.inodes && inode !in old(dir.inodes) ==> |dir.inodes[inode].bytes| <= 134_217_728
  {
    inode := 0;
    if target in dir.entries {
      return Refused(TargetExists), inode;
    }
    var ok, temp, file := dir.MakeTemp(target);
    if !ok {
      inode := AboveAll(dir.inodes.Keys);
      return Refused(WriteFailed), inode;
    }
    inode := file;
    label Made:
    o := PublishTemp(dir, target, temp, file, pieces);
    ghost var entries := dir.entries;
    ok := dir.UnlinkAndSync(temp);
    if !ok {
      o := Uncertain;
      return;
    }
    TempGone(old(dir.entries), old@Made(dir.entries), entries, temp, target, file);
  }

  lemma {:induction false} TempGone(before: map<Name, nat>, made: map<Name, nat>, after: map<Name, nat>, temp: Name,
                                    target: Name, inode: nat)
    requires temp !in before && temp != target && made == before[temp := inode] && target !in before
    requires OthersUntouched(made, after, target)
    ensures OthersUntouched(before, after - {temp}, target)
    ensures target in after ==> after - {temp} == before[target := after[target]]
  {
    forall n ensures n != target ==> (n in before <==> n in after - {temp}) {}
    if target in after {
      assert (after - {temp}).Keys == before[target := after[target]].Keys;
    }
  }
}
