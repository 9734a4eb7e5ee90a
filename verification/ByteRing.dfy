/** agent/internal/process/manager.go: the byte ring a child's output is kept
    in, and the bounded writer. Both are compared with the unbounded log of all
    bytes ever written. */
module ByteRing {
  import opened Arith

  const DEFAULT_RING_SIZE: nat := 1024 * 1024

  /** The oldest byte a ring of this capacity still holds. */
  function Oldest(total: nat, cap: nat): nat {
    if total > cap then total - cap else 0
  }

  datatype Poll = Poll(data: string, next: int, lost: bool)

  /** What a poll from cursor gives, said over the whole log. */
  function PollLog(log: string, cap: nat, cursor: int): Poll {
    if cursor >= |log| then Poll("", |log|, false)
    else
      var oldest := Oldest(|log|, cap);
      var start := if cursor < oldest then oldest else cursor;
      Poll(log[start..], |log|, cursor < oldest)
  }

  /** The cells of the n positions from head on, and of the capacity - n before. */
  lemma Cell(head: nat, n: nat, i: nat, cap: nat)
    requires cap > 0 && head % cap + n <= cap && head + n <= i + cap && i < head + n
    ensures i >= head ==> i % cap == head % cap + (i - head)
    ensures i < head ==> i % cap < head % cap || head % cap + n <= i % cap
  {
    var q, off := head / cap, head % cap;
    assert head == q * cap + off;
    var r := off + (i - head);
    if r >= 0 {
      DivModUnique(i, q, r, cap);
    } else {
      assert (q - 1) * cap == q * cap - cap;
      DivModUnique(i, q - 1, r + cap, cap);
    }
  }

  class Ring {
    const cap: nat
    const buf: array<char>
    var total: nat
    /** History: every byte ever written. */
    ghost var log: string

    ghost predicate Valid()
      reads this, buf
    {
      && cap > 0 && buf.Length == cap
      && total == |log|
      && forall i :: Oldest(total, cap) <= i < total ==> buf[i % cap] == log[i]
    }

    constructor (capacity: int)
      ensures Valid() && log == "" && fresh(buf)
      ensures cap == if capacity <= 0 then DEFAULT_RING_SIZE else capacity
    {
      cap := if capacity <= 0 then DEFAULT_RING_SIZE else capacity;
      buf := new char[if capacity <= 0 then DEFAULT_RING_SIZE else capacity];
      total, log := 0, "";
    }

    /** Append p, overwriting the oldest bytes when full. */
    method Write(p: string)
      requires Valid()
      modifies this, buf
      ensures Valid() && log == old(log) + p
    {
      var rest := p;
      while rest != ""
        invariant Valid() && log + rest == old(log) + p
        decreases |rest|
      {
        var off := total % cap;
        var n := if |rest| < cap - off then |rest| else cap - off;
        CopyIn(off, rest[..n]);
        rest := rest[n..];
      }
    }

    /** One copy into the cells from the head on, not past the end. */
    method CopyIn(off: nat, piece: string)
      requires Valid() && off == total % cap && off + |piece| <= cap
      modifies this, buf
      ensures Valid() && log == old(log) + piece
    {
      forall k | 0 <= k < |piece| {
        buf[off + k] := piece[k];
      }
      ghost var before := total;
      total := total + |piece|;
      log := log + piece;
      forall i | Oldest(total, cap) <= i < total
        ensures buf[i % cap] == log[i]
      {
        Cell(before, |piece|, i, cap);
        if i >= before { assert buf[off + (i - before)] == piece[i - before]; }
      }
    }

    /** The bytes written since cursor that are still there. */
    method ReadFrom(cursor: int) returns (data: string, next: int, lost: bool)
      requires Valid()
      ensures Poll(data, next, lost) == PollLog(log, cap, cursor)
    {
      if cursor >= total { return "", total, false; }
      var oldest := total - cap;
      if oldest < 0 { oldest := 0; }
      var start := cursor;
      lost := false;
      if start < oldest {
        start := oldest;
        lost := true;
      }
      var n := total - start;
      var out := new char[n];
      for i := 0 to n
        invariant forall k :: 0 <= k < i ==> out[k] == log[start + k]
      {
        out[i] := buf[(start + i) % cap];
      }
      assert out[..] == log[start..];
      return out[..], total, lost;
    }
  }

  /** Byte i has been overwritten. */
  predicate Overwritten(log: string, cap: nat, i: nat) {
    i < |log| && |log| - i > cap
  }

  /** A poll reports a loss exactly when some byte at or after the cursor has been
      overwritten, or the cursor is negative; it returns every byte from the
      cursor on that has not been, and no other. */
  lemma LostExactly(log: string, cap: nat, cursor: int)
    ensures PollLog(log, cap, cursor).lost <==> cursor < 0 || exists i: nat :: i >= cursor && Overwritten(log, cap, i)
    ensures forall i: nat :: cursor <= i < |log| && !Overwritten(log, cap, i) ==>
              var d := PollLog(log, cap, cursor).data;
              var start := |log| - |d|;
              start <= i && d[i - start] == log[i]
    ensures |PollLog(log, cap, cursor).data| <= cap && |PollLog(log, cap, cursor).data| <= |log|
    ensures cursor <= |log| ==> |PollLog(log, cap, cursor).data| <= |log| - cursor
  {
    if cursor >= 0 && PollLog(log, cap, cursor).lost { assert Overwritten(log, cap, cursor); }
  }

  // ---------------------------------------------------------------------
  // A producer and a poller
  // ---------------------------------------------------------------------

  datatype Op = Write(p: string) | Read

  /** The log, what the poller got in all, whether it lost, and, for every byte
      before its cursor, how long the log was when the poll came that passed it. */
  datatype Trace = Trace(log: string, polled: seq<nat>, got: string, lost: bool) {
    function Cursor(): nat { |polled| }
  }

  function Run(ops: seq<Op>, cap: nat): Trace {
    if ops == [] then Trace("", [], "", false)
    else
      var t := Run(ops[..|ops| - 1], cap);
      match ops[|ops| - 1]
      case Write(p) => t.(log := t.log + p)
      case Read =>
        var r := PollLog(t.log, cap, t.Cursor());
        var passed := if r.next > t.Cursor() then r.next - t.Cursor() else 0;
        Trace(t.log, t.polled + seq(passed, i => |t.log|), t.got + r.data, t.lost || r.lost)
  }

  /** Byte i was overwritten before it was polled. */
  predicate Missed(polled: seq<nat>, cap: nat, i: nat)
    requires i < |polled|
  {
    polled[i] - i > cap
  }

  /** The first bytes of the log, as many as were passed, without the missed ones. */
  function NotMissed(log: string, polled: seq<nat>, cap: nat): string
    requires |polled| <= |log|
  {
    if polled == [] then ""
    else
      var n := |polled| - 1;
      NotMissed(log, polled[..n], cap) + if Missed(polled, cap, n) then "" else [log[n]]
  }

  lemma {:induction false} LogGrows(log: string, more: string, polled: seq<nat>, cap: nat)
    requires |polled| <= |log|
    ensures NotMissed(log + more, polled, cap) == NotMissed(log, polled, cap)
    decreases |polled|
  {
    if polled != [] { LogGrows(log, more, polled[..|polled| - 1], cap); }
  }

  /** A poll passes n more bytes and adds those of them that are retained. */
  lemma {:induction false} PollAdds(log: string, polled: seq<nat>, cap: nat, n: nat)
    requires |polled| + n <= |log|
    ensures var start := if |polled| < Oldest(|log|, cap) then Oldest(|log|, cap) else |polled|;
            NotMissed(log, polled + seq(n, i => |log|), cap)
            == NotMissed(log, polled, cap) + if start < |polled| + n then log[start..|polled| + n] else ""
    decreases n
  {
    var all := polled + seq(n, i => |log|);
    if n == 0 {
      assert all == polled;
    } else {
      PollAdds(log, polled, cap, n - 1);
      assert all[..|all| - 1] == polled + seq(n - 1, i => |log|);
    }
  }

  /** What successive polls got is the log up to the cursor without exactly the
      bytes that were overwritten before they were polled; there are such bytes
      exactly when a loss was reported. */
  lemma {:induction false} PollsConcatenate(ops: seq<Op>, cap: nat)
    ensures var t := Run(ops, cap);
            && t.Cursor() <= |t.log|
            && t.got == NotMissed(t.log, t.polled, cap)
            && (t.lost <==> exists i :: 0 <= i < t.Cursor() && Missed(t.polled, cap, i))
            && (!t.lost ==> t.got == t.log[..t.Cursor()])
  {
    if ops != [] {
      var front := ops[..|ops| - 1];
      PollsConcatenate(front, cap);
      var t := Run(front, cap);
      match ops[|ops| - 1]
      case Write(p) => LogGrows(t.log, p, t.polled, cap);
      case Read => ReadStep(t, cap);
    }
    if !Run(ops, cap).lost { NoneMissed(Run(ops, cap).log, Run(ops, cap).polled, cap); }
  }

  lemma ReadStep(t: Trace, cap: nat)
    requires t.Cursor() <= |t.log| && t.got == NotMissed(t.log, t.polled, cap)
    ensures var r := PollLog(t.log, cap, t.Cursor());
            var polled := t.polled + seq(|t.log| - t.Cursor(), i => |t.log|);
            && r.next == |t.log| == |polled|
            && t.got + r.data == NotMissed(t.log, polled, cap)
            && (r.lost <==> exists i :: t.Cursor() <= i < |polled| && Missed(polled, cap, i))
            && forall i :: 0 <= i < t.Cursor() ==> (Missed(polled, cap, i) <==> Missed(t.polled, cap, i))
  {
    var r := PollLog(t.log, cap, t.Cursor());
    var polled := t.polled + seq(|t.log| - t.Cursor(), i => |t.log|);
    PollAdds(t.log, t.polled, cap, |t.log| - t.Cursor());
    if r.lost { assert Missed(polled, cap, t.Cursor()); }
  }

  lemma {:induction false} NoneMissed(log: string, polled: seq<nat>, cap: nat)
    requires |polled| <= |log| && forall i :: 0 <= i < |polled| ==> !Missed(polled, cap, i)
    ensures NotMissed(log, polled, cap) == log[..|polled|]
    decreases |polled|
  {
    if polled != [] {
      var n := |polled| - 1;
      assert forall i :: 0 <= i < n ==> Missed(polled[..n], cap, i) == Missed(polled, cap, i);
      NoneMissed(log, polled[..n], cap);
      assert log[..n + 1] == log[..n] + [log[n]];
    }
  }

  /** A final poll catches up: without loss everything written has been read. */
  lemma FinalPollCatchesUp(ops: seq<Op>, cap: nat)
    ensures Run(ops + [Read], cap).Cursor() == |Run(ops, cap).log|
    ensures !Run(ops + [Read], cap).lost ==> Run(ops + [Read], cap).got == Run(ops, cap).log
  {
    assert (ops + [Read])[..|ops|] == ops;
    PollsConcatenate(ops, cap);
    PollsConcatenate(ops + [Read], cap);
  }

  // ---------------------------------------------------------------------
  // The bounded writer
  // ---------------------------------------------------------------------

  /** Keeps the first limit bytes, or all of them when limit is not positive,
      and says whether more came. */
  class CapWriter {
    const limit: int
    var buf: string
    var truncated: bool
    ghost var log: string

    ghost predicate Valid()
      reads this
    {
      && buf == (if limit <= 0 || |log| <= limit then log else log[..limit])
      && (truncated <==> limit > 0 && |log| > limit)
    }

    constructor (limit: int)
      ensures Valid() && log == "" && this.limit == limit
    {
      this.limit := limit;
      buf, truncated, log := "", false, "";
    }

    /** Never a short write: the child keeps being drained. */
    method Write(p: string) returns (n: nat)
      requires Valid()
      modifies this
      ensures Valid() && log == old(log) + p && n == |p|
    {
      log := log + p;
      if limit <= 0 {
        buf := buf + p;
        return |p|;
      }
      if |buf| < limit {
        var room := limit - |buf|;
        if room >= |p| {
          buf := buf + p;
        } else {
          buf := buf + p[..room];
          truncated := true;
        }
      } else if |p| > 0 {
        truncated := true;
      }
      return |p|;
    }
  }
}
