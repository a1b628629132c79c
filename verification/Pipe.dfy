/** The in-memory pipe: a ring buffer whose readable part may wrap around the end. Each method is
    one section under the pipe's lock; a section that would wait reports `Blocked`. */
module Pipe {
  import opened Prelude

  datatype Status = Done | Blocked | Closed | Eof

  function Min(a: nat, b: nat): nat {
    if a < b then a else b
  }

  /** The readable part of a ring: `[r, w)`, or `[r, cap)` and then `[0, w)` once the writer has
      started over, which is when the slice has its full length. */
  function Readable(ring: seq<Byte>, len: nat, r: nat, w: nat): (s: seq<Byte>)
    requires r < |ring| && w < |ring| && (len == |ring| || r <= w)
  {
    if len == |ring| then ring[r..] + ring[..w] else ring[r..w]
  }

  predicate Laid(cap: nat, len: nat, r: nat, w: nat) {
    r < cap && w < cap && if len == cap then w <= r else len == w && r <= w && len < cap
  }

  lemma ReadAdvances(ring: seq<Byte>, len: nat, r: nat, w: nat, n: nat)
    requires Laid(|ring|, len, r, w) && r + n <= len
    ensures var (r', len') := if r + n == |ring| then (0, w) else (r + n, len);
            Laid(|ring|, len', r', w) && ring[r..r + n] + Readable(ring, len', r', w) == Readable(ring, len, r, w)
  {
    if len == |ring| {
      assert ring[r..] == ring[r..r + n] + ring[r + n..];
      Regroup(ring[r..r + n], ring[r + n..], ring[..w]);
      assert r + n == |ring| && w < |ring| ==> ring[0..w] == ring[..w];
    } else {
      assert ring[r..w] == ring[r..r + n] + ring[r + n..w];
    }
  }

  lemma WriteAdvances(ring: seq<Byte>, after: seq<Byte>, len: nat, r: nat, w: nat, b: seq<Byte>)
    requires Laid(|ring|, len, r, w) && b != [] && w + |b| <= (if w < r then r else |ring|)
    requires |after| == |ring|
    requires after[..w] == ring[..w] && after[w..w + |b|] == b && after[w + |b|..] == ring[w + |b|..]
    requires !(r < len && r == w)
    ensures var len' := if w + |b| > len then w + |b| else len;
            var w' := if w + |b| == |ring| then 0 else w + |b|;
            Laid(|ring|, len', r, w') && Readable(after, len', r, w') == Readable(ring, len, r, w) + b
  {
    assert after[..w + |b|] == ring[..w] + b;
    if len == |ring| {
      assert after[r..] == after[w + |b|..][r - (w + |b|)..] == ring[r..];
      Regroup(ring[r..], ring[..w], b);
    } else {
      assert after[r..w + |b|] == after[..w + |b|][r..] == ring[r..w] + b;
      assert w + |b| == |ring| ==> after[r..] == after[r..w + |b|];
    }
  }

  class Pipe {
    /** The slice's capacity, the length it currently has, and the two offsets. */
    const buf: array<Byte>
    var len: nat
    var w: nat
    var r: nat
    var closed: bool
    var writeClosed: bool

    ghost predicate Valid()
      reads this
    {
      Laid(buf.Length, len, r, w)
    }

    ghost function Contents(): (s: seq<Byte>)
      requires Valid()
      reads this, buf
      ensures |s| <= buf.Length
    {
      Readable(buf[..], len, r, w)
    }

    constructor (size: nat)
      requires size > 0
      ensures Valid() && fresh(buf) && buf.Length == size && Contents() == [] && !closed && !writeClosed
    {
      buf := new Byte[size](_ => 0);
      len, w, r, closed, writeClosed := 0, 0, 0, false, false;
    }

    predicate Empty()
      requires Valid()
      reads this, buf
      ensures Empty() <==> Contents() == []
    {
      r == len
    }

    predicate Full()
      requires Valid()
      reads this, buf
      ensures Full() <==> |Contents()| == buf.Length
    {
      r < len && r == w
    }

    /** One read into a buffer of `limit` bytes: what comes out is the next part of the contents,
        up to where they wrap. */
    method Read(limit: nat) returns (out: seq<Byte>, status: Status)
      requires Valid()
      modifies this
      ensures Valid() && closed == old(closed) && writeClosed == old(writeClosed)
      ensures out + Contents() == old(Contents())
      ensures status == if closed then Closed
                        else if old(Contents()) != [] then Done
                        else if writeClosed then Eof
                        else Blocked
      ensures |out| == if status == Done then Min(limit, old(len - r)) else 0
      ensures status == Done && limit > 0 ==> out != []
    {
      if closed {
        return [], Closed;
      }
      if Empty() {
        return [], if writeClosed then Eof else Blocked;
      }
      var n := Min(limit, len - r);
      out := buf[r..r + n];
      ReadAdvances(buf[..], len, r, w, n);
      r := r + n;
      if r == buf.Length {
        r := 0;
        len := w;
      }
      return out, Done;
    }

    /** One pass of the write loop: copies into the free part up to where it wraps. */
    method WritePass(b: seq<Byte>) returns (x: nat)
      requires Valid() && !Full() && b != []
      modifies this, buf
      ensures Valid() && closed == old(closed) && writeClosed == old(writeClosed)
      ensures 0 < x <= |b| && Contents() == old(Contents()) + b[..x]
    {
      ghost var before := buf[..];
      var end := if w < r then r else buf.Length;
      x := Min(|b|, end - w);
      forall i | 0 <= i < x {
        buf[w + i] := b[i];
      }
      ghost var after := buf[..];
      assert forall i :: 0 <= i < x ==> after[w + i] == b[i];
      assert after[w..w + x] == b[..x];
      WriteAdvances(before, after, len, r, w, b[..x]);
      w := w + x;
      if w > len {
        len := w;
      }
      if w == buf.Length {
        w := 0;
      }
    }

    /** One locked section of a write: it copies exactly as much as fits, unless the pipe is closed;
        an error reports no bytes, as the source does. */
    method Write(b: seq<Byte>) returns (n: nat, status: Status)
      requires Valid()
      modifies this, buf
      ensures Valid() && closed == old(closed) && writeClosed == old(writeClosed)
      ensures status == if closed || (b != [] && writeClosed) then Closed
                        else if |b| <= old(buf.Length - |Contents()|) then Done else Blocked
      ensures status == Closed ==> n == 0 && Contents() == old(Contents())
      ensures status != Closed ==>
                n == Min(|b|, old(buf.Length - |Contents()|)) && Contents() == old(Contents()) + b[..n]
    {
      n := 0;
      if closed {
        return 0, Closed;
      }
      while n < |b|
        invariant Valid() && closed == old(closed) && writeClosed == old(writeClosed)
        invariant n <= |b| && Contents() == old(Contents()) + b[..n]
        invariant n > 0 ==> !writeClosed
      {
        if closed || writeClosed {
          return 0, Closed;
        }
        if Full() {
          return n, Blocked;
        }
        var x := WritePass(b[n..]);
        TakeMore(b, n, x);
        Regroup(old(Contents()), b[..n], b[n..][..x]);
        n := n + x;
      }
      return n, Done;
    }

    method Close()
      requires Valid()
      modifies this`closed
      ensures Valid() && closed && Contents() == old(Contents())
    {
      closed := true;
    }

    method CloseWrite()
      requires Valid()
      modifies this`writeClosed
      ensures Valid() && writeClosed && Contents() == old(Contents())
    {
      writeClosed := true;
    }
  }

  datatype Op = ReadOp(limit: nat) | WriteOp(bytes: seq<Byte>) | CloseOp | CloseWriteOp

  /** Any sequence of sections on a new pipe: what came out, followed by what is still inside, is
      what the writes reported as taken, and the pipe never holds more than its capacity. */
  method Run(size: nat, ops: seq<Op>) returns (sent: seq<Byte>, received: seq<Byte>)
    requires size > 0
    ensures received <= sent && |sent| <= |received| + size
  {
    var pipe := new Pipe(size);
    sent, received := [], [];
    for i := 0 to |ops|
      invariant pipe.Valid() && fresh(pipe) && fresh(pipe.buf) && pipe.buf.Length == size
      invariant sent == received + pipe.Contents()
    {
      match ops[i] {
        case ReadOp(limit) =>
          var out, _ := pipe.Read(limit);
          Regroup(received, out, pipe.Contents());
          received := received + out;
        case WriteOp(bytes) =>
          ghost var before := pipe.Contents();
          var n, status := pipe.Write(bytes);
          assert pipe.Contents() == before + bytes[..n];
          Regroup(received, before, bytes[..n]);
          sent := sent + bytes[..n];
        case CloseOp =>
          pipe.Close();
        case CloseWriteOp =>
          pipe.CloseWrite();
      }
    }
  }

  /** A writer that resumes after every wait and a reader with buffers of `limit` bytes: whatever
      the capacity, the whole message comes out, in order and once, and then the end. */
  method Transfer(size: nat, message: seq<Byte>, limit: nat) returns (received: seq<Byte>, last: Status)
    requires size > 0 && limit > 0
    ensures received == message && last == Eof
  {
    var pipe := new Pipe(size);
    received := [];
    var taken := 0;
    while |received| < |message|
      invariant pipe.Valid() && fresh(pipe) && fresh(pipe.buf) && !pipe.closed && !pipe.writeClosed
      invariant taken <= |message| && received + pipe.Contents() == message[..taken]
      decreases |message| - |received|
    {
      ghost var before := pipe.Contents();
      var n, _ := pipe.Write(message[taken..]);
      TakeMore(message, taken, n);
      Regroup(received, before, message[taken..][..n]);
      taken := taken + n;
      var out, _ := pipe.Read(limit);
      Regroup(received, out, pipe.Contents());
      received := received + out;
    }
    assert message[..taken] == message;
    pipe.CloseWrite();
    var rest;
    rest, last := pipe.Read(limit);
  }
}
