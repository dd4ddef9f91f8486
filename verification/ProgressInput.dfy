/** The upload body reader: chunked reads under one transfer deadline
    (deploy/ingest_worker.py). */
module ProgressInput {
  import opened Orders

  const NEWLINE := '\n'
  const CHUNK_SIZE := 64 * 1024

  // ---------------------------------------------------------------- what a reader is owed

  predicate HasNewline(s: string) { NEWLINE in s }

  /** Length of the first line, its newline included; everything when there is none. */
  function LineLength(s: string): (n: nat)
    ensures n <= |s|
    ensures NEWLINE !in s[..n] || (n > 0 && s[n - 1] == NEWLINE && NEWLINE !in s[..n - 1])
    ensures NEWLINE !in s[..n] ==> n == |s|
  {
    if s == "" then 0
    else if s[0] == NEWLINE then 1
    else
      var n := LineLength(s[1..]);
      assert s[..n + 1] == [s[0]] + s[1..][..n];
      assert n > 0 ==> s[..n] == [s[0]] + s[1..][..n - 1];
      n + 1
  }

  function Capped(n: nat, size: int): nat { if 0 <= size < n then size else n }

  /** The bytes `read(size)` or `readline(size)` must deliver from what is left; negative means no cap. */
  function Owed(left: string, size: int, line: bool): string {
    left[..Capped(if line then LineLength(left) else |left|, size)]
  }

  /** `Raised` is any exception of the wrapped stream. */
  datatype Result = Bytes(bytes: string) | TimedOut | Raised

  /** Ghost arithmetic of the loop: `got` so far, `size` still wanted. */
  ghost predicate Underway(left: string, got: string, size0: int, size: int, line: bool) {
    && got <= left
    && (size0 < 0 ==> size == size0)
    && (size0 >= 0 ==> size >= 0 && size == size0 - |got|)
    && (line ==> !HasNewline(got))
  }

  lemma {:induction false} NoNewlineLength(left: string, k: nat)
    requires k <= |left| && !HasNewline(left[..k])
    ensures LineLength(left) >= k
  {
    if k > 0 {
      assert left[0] in left[..k];
      assert left[1..][..k - 1] == left[..k][1..];
      NoNewlineLength(left[1..], k - 1);
    }
  }

  lemma {:induction false} FirstNewlineLength(left: string, k: nat)
    requires 0 < k <= |left| && left[k - 1] == NEWLINE && !HasNewline(left[..k - 1])
    ensures LineLength(left) == k
  {
    if k > 1 {
      assert left[0] in left[..k - 1];
      assert left[1..][..k - 2] == left[..k - 1][1..];
      FirstNewlineLength(left[1..], k - 1);
    }
  }

  /** The loop may stop here: cap reached, stream exhausted, or a line completed. */
  lemma {:induction false} StopIsOwed(left: string, got: string, size0: int, size: int, line: bool)
    requires got <= left && (size0 < 0 ==> size < 0) && (size0 >= 0 ==> size >= 0 && size == size0 - |got|)
    requires (line ==> !HasNewline(got)) && (size == 0 || |got| == |left|)
    ensures got == Owed(left, size0, line)
  {
    assert got == left[..|got|];
    if line { NoNewlineLength(left, |got|); }
  }

  lemma {:induction false} LineIsOwed(left: string, got: string, size0: int)
    requires got <= left && got != "" && got[|got| - 1] == NEWLINE && !HasNewline(got[..|got| - 1])
    requires size0 >= 0 ==> |got| <= size0
    ensures got == Owed(left, size0, true)
  {
    var k := |got|;
    assert got == left[..k] && left[..k - 1] == got[..k - 1];
    FirstNewlineLength(left, k);
  }

  // -------------------------------------------------------------------------- the input

  class Input {
    /** The request body and how much of it the socket stream has handed out. */
    const body: string
    var position: nat

    /** The monotonic clock. */
    var now: int

    var clientTimeout: Option<int>
    const transferTimeout: int
    const idleTimeout: int
    var deadline: Option<int>
    var notified: nat

    /** How often the wrapped stream has raised. */
    var raised: nat

    ghost predicate Valid()
      reads this
    {
      position <= |body|
    }

    function Left(): string
      reads this
      requires Valid()
    {
      body[position..]
    }

    constructor (body: string, clientTimeout: Option<int>, transferTimeout: int, idleTimeout: int)
      ensures Valid() && Left() == body && deadline.None?
      ensures this.body == body && this.clientTimeout == clientTimeout
    {
      this.body, position, now := body, 0, 0;
      this.clientTimeout, this.transferTimeout, this.idleTimeout := clientTimeout, transferTimeout, idleTimeout;
      deadline, notified, raised := None, 0, 0;
    }

    /** A deadline set since then is the transfer timeout after some moment since then. */
    ghost predicate DeadlineSet(before: Option<int>, since: int)
      reads this
    {
      before.None? && deadline.Some? ==> since + transferTimeout <= deadline.value <= now + transferTimeout
    }

    /** Since then the client's timeout is the same, time has passed, a deadline once set has stayed, and the stream
        has not raised. */
    ghost predicate Steady(timeout: Option<int>, time: int, due: Option<int>, raises: nat)
      reads this
    {
      && clientTimeout == timeout && now >= time && raised == raises
      && (due.Some? ==> deadline == due) && DeadlineSet(due, time)
    }

    /** `monotonic()`: any amount of time may pass. */
    method Monotonic() returns (t: int)
      modifies this`now
      ensures t == now >= old(now)
    {
      var passed: int :| passed >= 0;
      now := now + passed;
      return now;
    }

    /** What one successful stream read hands out: a short, non-empty chunk unless exhausted; a line read
        stops at a newline. */
    ghost predicate IsChunk(chunk: string, before: string, limit: nat, line: bool)
      reads this
      requires Valid()
    {
      && |chunk| <= limit && before == chunk + Left()
      && (chunk == "" <==> before == "")
      && (line && chunk != "" ==> !HasNewline(chunk[..|chunk| - 1]))
    }

    /** The wrapped stream: a chunk, or an exception after losing any number of bytes. */
    method StreamRead(limit: nat, line: bool, ghost remaining: int) returns (r: Result)
      requires Valid() && limit > 0
      requires clientTimeout == Some(remaining) || clientTimeout == Some(idleTimeout)
      requires clientTimeout.value <= remaining && clientTimeout.value <= idleTimeout
      modifies this`position, this`now, this`raised
      ensures Valid() && now >= old(now) && raised == old(raised) + if r.Raised? then 1 else 0
      ensures !r.TimedOut? && (r.Bytes? ==> IsChunk(r.bytes, old(Left()), limit, line))
    {
      var t := Monotonic();
      var left := Left();
      if * {
        var lost: nat :| lost <= |left|;
        position, raised := position + lost, raised + 1;
        return Raised;
      }
      if left == "" {
        return Bytes("");
      }
      LineIsPositive(left);
      var most := if line then LineLength(left) else |left|;
      if limit < most { most := limit; }
      var n: nat :| 0 < n <= most;
      var chunk := left[..n];
      if line {
        LineHead(left, n);
        assert chunk[..n - 1] == left[..n - 1];
      }
      position := position + n;
      assert Left() == left[n..];
      return Bytes(chunk);
    }

    /** `_read`. It delivers exactly what is owed; the deadline is set once and never moved; bytes are
        returned only if the clock had not passed it; the client's own timeout is always restored. */
    method ReadUpTo(wanted: Option<int>, line: bool) returns (r: Result)
      requires Valid()
      modifies this
      ensures Valid() && clientTimeout == old(clientTimeout) && now >= old(now)
      ensures old(deadline).Some? ==> deadline == old(deadline)
      ensures r.Bytes? ==>
                var size := if wanted.None? then -1 else wanted.value;
                r.bytes == Owed(old(Left()), size, line) && old(Left()) == r.bytes + Left()
      ensures r.Bytes? && r.bytes != "" ==> deadline.Some? && now <= deadline.value
      ensures r.TimedOut? ==> deadline.Some? && now >= deadline.value
      ensures raised == old(raised) + if r.Raised? then 1 else 0
      ensures DeadlineSet(old(deadline), old(now))
    {
      var size0 := if wanted.None? then -1 else wanted.value;
      var size := size0;
      var got := "";
      ghost var left := Left();
      while size != 0
        invariant Valid() && Steady(old(clientTimeout), old(now), old(deadline), old(raised))
        invariant left == got + Left() && Underway(left, got, size0, size, line)
        invariant got != "" ==> deadline.Some? && now <= deadline.value
        decreases |Left()|
      {
        ghost var before := Left();
        r := NextChunk(if size < 0 || size > CHUNK_SIZE then CHUNK_SIZE else size, line);
        if !r.Bytes? { return; }
        if r.bytes == "" {
          assert got == left;
          break;
        }
        GotMore(left, got, r.bytes, before, Left(), size0, size, line);
        got := got + r.bytes;
        if size > 0 { size := size - |r.bytes|; }
        if line && got[|got| - 1] == NEWLINE {
          LineIsOwed(left, got, size0);
          return Bytes(got);
        }
        if line { NoNewlineYet(got); }
      }
      StopIsOwed(left, got, size0, size, line);
      return Bytes(got);
    }

    /** One turn of the loop: set the deadline if unset, check it, read, check it again. */
    method NextChunk(limit: nat, line: bool) returns (r: Result)
      requires Valid() && limit > 0
      modifies this
      ensures Valid() && clientTimeout == old(clientTimeout) && now >= old(now)
      ensures deadline.Some? && (old(deadline).Some? ==> deadline == old(deadline))
      ensures DeadlineSet(old(deadline), old(now))
      ensures r.TimedOut? ==> now >= deadline.value
      ensures raised == old(raised) + if r.Raised? then 1 else 0
      ensures notified == old(notified) + if r.Bytes? && r.bytes != "" then 1 else 0
      ensures r.Bytes? ==> now <= deadline.value && IsChunk(r.bytes, old(Left()), limit, line)
    {
      var t := Monotonic();
      if deadline.None? { deadline := Some(t + transferTimeout); }
      t := Monotonic();
      if deadline.value - t <= 0 { return TimedOut; }
      r := ReadChunk(limit, line, deadline.value - t);
      if r.Raised? { return; }
      t := Monotonic();
      if t > deadline.value { return TimedOut; }
      if r.bytes != "" { notified := notified + 1; }
    }

    /** `__next__`: the next whole line, or nothing at the end of the body. */
    method NextLine() returns (r: Result)
      requires Valid()
      modifies this
      ensures Valid() && clientTimeout == old(clientTimeout)
      ensures old(deadline).Some? ==> deadline == old(deadline)
      ensures r.Bytes? ==> old(Left()) == r.bytes + Left()
      ensures r.Bytes? && r.bytes == "" ==> Left() == ""
      ensures r.Bytes? && r.bytes != "" ==> IsLine(r.bytes)
      ensures r.Bytes? && r.bytes != "" && r.bytes[|r.bytes| - 1] != NEWLINE ==> Left() == ""
      ensures r.TimedOut? ==> deadline.Some? && now >= deadline.value
      ensures raised == old(raised) + if r.Raised? then 1 else 0
    {
      ghost var before := Left();
      r := ReadUpTo(Some(-1), true);
      if r.Bytes? {
        if r.bytes == "" {
          NothingOwed(before);
        } else {
          LineHead(before, |r.bytes|);
          assert r.bytes[..|r.bytes| - 1] == before[..|r.bytes| - 1];
        }
      }
    }

    /** `readlines`, and iteration when there is no hint: whole lines in order, until the hint is met or
        the body ends. */
    method ReadLines(hint: Option<int>) returns (ok: bool, lines: seq<string>)
      requires Valid()
      modifies this
      ensures Valid() && clientTimeout == old(clientTimeout)
      ensures old(deadline).Some? ==> deadline == old(deadline)
      ensures ok ==> old(Left()) == Join(lines) + Left()
      ensures ok ==> forall l :: l in lines ==> IsLine(l)
      ensures ok ==> Left() == "" || (hint.Some? && 0 < hint.value <= |Join(lines)|)
      ensures !ok ==> raised > old(raised) || (deadline.Some? && now >= deadline.value)
    {
      lines := [];
      var total := 0;
      ghost var all := Left();
      while true
        invariant Valid() && clientTimeout == old(clientTimeout)
        invariant old(deadline).Some? ==> deadline == old(deadline)
        invariant all == Join(lines) + Left() && total == |Join(lines)|
        invariant forall l :: l in lines ==> IsLine(l)
        invariant raised == old(raised)
        decreases |Left()|
      {
        ghost var before := Left();
        var r := NextLine();
        if !r.Bytes? { return false, lines; }
        if r.bytes == "" { return true, lines; }
        JoinMore(lines, r.bytes, before, Left());
        lines, total := lines + [r.bytes], total + |r.bytes|;
        if hint.Some? && hint.value > 0 && total >= hint.value { return true, lines; }
      }
    }

    /** One stream read with the client's timeout narrowed and then put back, also when the read raises. */
    method ReadChunk(limit: nat, line: bool, remaining: int) returns (r: Result)
      requires Valid() && limit > 0
      modifies this`position, this`now, this`clientTimeout, this`raised
      ensures Valid() && clientTimeout == old(clientTimeout) && now >= old(now)
      ensures raised == old(raised) + if r.Raised? then 1 else 0
      ensures !r.TimedOut? && (r.Bytes? ==> IsChunk(r.bytes, old(Left()), limit, line))
    {
      var previous := clientTimeout;
      clientTimeout := Some(if remaining < idleTimeout then remaining else idleTimeout);
      r := StreamRead(limit, line, remaining);
      clientTimeout := previous;
    }
  }

  /** Non-empty, with no newline before its last character. */
  predicate IsLine(l: string) { l != "" && !HasNewline(l[..|l| - 1]) }

  function Join(lines: seq<string>): string {
    if lines == [] then "" else Join(lines[..|lines| - 1]) + lines[|lines| - 1]
  }

  lemma {:induction false} JoinSnoc(lines: seq<string>, l: string)
    ensures Join(lines + [l]) == Join(lines) + l
  {
    assert (lines + [l])[..|lines|] == lines;
  }

  lemma {:induction false} JoinMore(lines: seq<string>, l: string, before: string, after: string)
    requires before == l + after
    ensures Join(lines) + before == Join(lines + [l]) + after && |Join(lines + [l])| == |Join(lines)| + |l|
  {
    JoinSnoc(lines, l);
    assert Join(lines) + (l + after) == Join(lines) + l + after;
  }

  lemma {:induction false} NothingOwed(left: string)
    requires Owed(left, -1, true) == ""
    ensures left == ""
  {
    if left != "" { LineIsPositive(left); }
  }

  lemma {:induction false} LineIsPositive(s: string)
    requires s != ""
    ensures LineLength(s) > 0
  {
  }

  lemma {:induction false} LineHead(s: string, n: nat)
    requires 0 < n <= LineLength(s)
    ensures !HasNewline(s[..n - 1])
  {
    var k := LineLength(s);
    if k > 0 && s[k - 1] == NEWLINE && NEWLINE !in s[..k - 1] {
      assert s[..n - 1] == s[..k - 1][..n - 1];
    } else {
      assert s[..n - 1] == s[..k][..n - 1];
    }
  }

  lemma {:induction false} GotMore(left: string, got: string, chunk: string, before: string, after: string,
                                   size0: int, size: int, line: bool)
    requires Underway(left, got, size0, size, line) && size != 0 && chunk != ""
    requires left == got + before && before == chunk + after
    requires size > 0 ==> |chunk| <= size
    requires line ==> !HasNewline(chunk[..|chunk| - 1])
    ensures left == got + chunk + after && got + chunk <= left
    ensures line ==> !HasNewline((got + chunk)[..|got + chunk| - 1])
    ensures size0 >= 0 ==> |got + chunk| <= size0
  {
    assert (got + chunk)[..|got + chunk| - 1] == got + chunk[..|chunk| - 1];
    assert got + (chunk + after) == got + chunk + after;
  }

  lemma {:induction false} NoNewlineYet(got: string)
    requires got != "" && got[|got| - 1] != NEWLINE && !HasNewline(got[..|got| - 1])
    ensures !HasNewline(got)
  {
    assert got == got[..|got| - 1] + [got[|got| - 1]];
  }
}
