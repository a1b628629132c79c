/** The reader that hands out a backup's body and withholds its 32-byte checksum trailer. */
module ChecksumReader {
  import opened Prelude

  const SIZE := 32

  /** What one read of a stream reports beside its bytes. */
  datatype Status = More | Eof | Failed

  function Flat(chunks: seq<seq<Byte>>): seq<Byte> {
    if chunks == [] then [] else chunks[0] + Flat(chunks[1..])
  }

  /** Everything before the trailer. */
  function Body(input: seq<Byte>): seq<Byte> {
    if |input| <= SIZE then [] else input[..|input| - SIZE]
  }

  /** A body followed by its checksum, as a backup is written. */
  predicate Sealed(input: seq<Byte>, hash: seq<Byte> -> seq<Byte>) {
    |input| >= SIZE && input[|input| - SIZE..] == hash(input[..|input| - SIZE])
  }

  /** An underlying reader: it may cut its bytes anywhere, return nothing, report the end along
      with the last bytes or after them, and end in an error instead. */
  class Source {
    var chunks: seq<seq<Byte>>
    const eager: bool
    const last: Status

    constructor (chunks: seq<seq<Byte>>, eager: bool, fails: bool)
      ensures this.chunks == chunks && this.eager == eager && last == (if fails then Failed else Eof)
    {
      this.chunks, this.eager, last := chunks, eager, if fails then Failed else Eof;
    }

    method Read(limit: nat) returns (data: seq<Byte>, status: Status)
      requires limit > 0 && last != More
      modifies this
      ensures |data| <= limit && data + Flat(chunks) == Flat(old(chunks))
      ensures status == More || status == last
      ensures status == More ==> |chunks| + |Flat(chunks)| < |old(chunks)| + |Flat(old(chunks))|
      ensures status != More ==> chunks == []
    {
      if chunks == [] {
        return [], last;
      }
      if |chunks[0]| <= limit {
        data := chunks[0];
        chunks := chunks[1..];
        status := if eager && chunks == [] then last else More;
      } else {
        data := chunks[0][..limit];
        ghost var was := chunks;
        chunks := [chunks[0][limit..]] + chunks[1..];
        assert chunks[1..] == was[1..];
        assert data + (was[0][limit..] + Flat(was[1..])) == was[0] + Flat(was[1..]);
        status := More;
      }
    }
  }

  class Reader {
    const r: Source
    /** The bytes fed to the running hash. */
    var hashed: seq<Byte>
    var buf: seq<Byte>
    /** The whole stream, as the underlying reader will have delivered it. */
    ghost const input: seq<Byte>

    ghost predicate Valid()
      reads this, r
    {
      && r.last != More
      && hashed + buf + Flat(r.chunks) == input
      && (hashed != [] ==> |buf| >= SIZE)
    }

    constructor (r: Source)
      requires r.last != More
      ensures Valid() && this.r == r && hashed == [] && input == Flat(r.chunks)
    {
      this.r, hashed, buf, input := r, [], [], Flat(r.chunks);
    }

    /** One read into a buffer of `len` bytes. What comes out is hashed, is the next part of the
        body, and the end is reported exactly when the whole body has come out. */
    method Read(len: nat) returns (out: seq<Byte>, status: Status)
      requires Valid()
      modifies this, r
      ensures Valid()
      ensures |out| <= len && hashed == old(hashed) + out && hashed <= Body(input)
      ensures status == More ==> (len > 0 ==> out != [])
      ensures status != More ==> out == []
      ensures status == Eof ==> r.last == Eof && hashed == Body(input) && |buf| <= SIZE && hashed + buf == input
      ensures status == Failed ==> r.last == Failed
    {
      status := More;
      while |buf| <= SIZE && status != Eof
        invariant Valid() && hashed == old(hashed)
        invariant status == More || (status == Eof && r.last == Eof && r.chunks == [])
        decreases status == More, |r.chunks| + |Flat(r.chunks)|
      {
        var data;
        ghost var was := buf;
        data, status := r.Read(if len > SIZE + 1 then len else SIZE + 1);
        buf := buf + data;
        Reassociate(hashed, was, data, Flat(r.chunks));
        if status == Failed {
          Prefix(hashed, buf, Flat(r.chunks), input);
          return [], Failed;
        }
      }
      if |buf| <= SIZE {
        Prefix(hashed, buf, [], input);
        return [], Eof;
      }
      var outLen := if |buf| - SIZE < len then |buf| - SIZE else len;
      out := buf[..outLen];
      assert buf == out + buf[outLen..];
      Reassociate(hashed, out, buf[outLen..], Flat(r.chunks));
      hashed := hashed + out;
      buf := buf[outLen..];
      Prefix(hashed, buf, Flat(r.chunks), input);
      return out, More;
    }

    /** Drains what is left and compares the withheld bytes with the hash: it accepts exactly the
        sealed inputs. */
    method Verify(hash: seq<Byte> -> seq<Byte>) returns (ok: bool)
      requires Valid() && forall x :: |hash(x)| == SIZE
      modifies this, r
      ensures Valid()
      ensures ok <==> r.last == Eof && Sealed(input, hash)
    {
      var status := More;
      while status == More
        invariant Valid()
        invariant status == Eof ==> r.last == Eof && hashed == Body(input) && |buf| <= SIZE && hashed + buf == input
        invariant status == Failed ==> r.last == Failed
        invariant hashed <= Body(input) || hashed == []
        decreases status == More, |input| - |hashed|
      {
        var out;
        out, status := Read(8192);
      }
      if status == Failed {
        return false;
      }
      if |buf| != SIZE {
        return false;
      }
      assert input[..|input| - SIZE] == hashed && input[|input| - SIZE..] == buf;
      return buf == hash(hashed);
    }
  }

  lemma Reassociate(a: seq<Byte>, b: seq<Byte>, c: seq<Byte>, d: seq<Byte>)
    ensures a + b + (c + d) == a + (b + c) + d == (a + b) + c + d
  {
  }

  /** Bytes that leave at least a trailer behind are a prefix of the body. */
  lemma Prefix(hashed: seq<Byte>, buf: seq<Byte>, rest: seq<Byte>, input: seq<Byte>)
    requires hashed + buf + rest == input && (hashed != [] ==> |buf| >= SIZE)
    ensures hashed <= Body(input)
    ensures |buf| <= SIZE && rest == [] ==> hashed == Body(input) && hashed + buf == input
  {
    assert hashed + buf + rest == hashed + (buf + rest);
  }

  /** A consumer that reads with buffers of any sizes and then verifies: what it got is a prefix
      of the body, all of it once the end was reported, and verification accepts exactly the
      sealed inputs, however the stream was cut. */
  method Consume(chunks: seq<seq<Byte>>, eager: bool, sizes: seq<nat>, hash: seq<Byte> -> seq<Byte>)
    returns (body: seq<Byte>, ended: bool, ok: bool)
    requires forall x :: |hash(x)| == SIZE
    ensures body <= Body(Flat(chunks))
    ensures ended ==> body == Body(Flat(chunks))
    ensures !ended && (forall i :: 0 <= i < |sizes| ==> sizes[i] > 0) ==> |body| >= |sizes|
    ensures ok <==> Sealed(Flat(chunks), hash)
  {
    var source := new Source(chunks, eager, false);
    var reader := new Reader(source);
    body, ended := [], false;
    for i := 0 to |sizes|
      invariant reader.Valid() && reader.r == source && reader.input == Flat(chunks)
      invariant body == reader.hashed && body <= Body(Flat(chunks))
      invariant ended ==> body == Body(Flat(chunks))
      invariant !ended && (forall j :: 0 <= j < i ==> sizes[j] > 0) ==> |body| >= i
    {
      var out, status := reader.Read(sizes[i]);
      body := body + out;
      ended := ended || status == Eof;
    }
    ok := reader.Verify(hash);
  }

  /** What a backup writes is accepted and handed out whole. */
  lemma SealedBodyComesBack(body: seq<Byte>, hash: seq<Byte> -> seq<Byte>)
    requires |hash(body)| == SIZE
    ensures Body(body + hash(body)) == body && Sealed(body + hash(body), hash)
  {
    var input := body + hash(body);
    assert input[..|input| - SIZE] == body && input[|input| - SIZE..] == hash(body);
  }

  /** Two accepted inputs with the same body are the same input, and with the same trailer they
      have bodies of the same hash. */
  lemma AcceptedInputsAreDeterminedByBody(a: seq<Byte>, b: seq<Byte>, hash: seq<Byte> -> seq<Byte>)
    requires Sealed(a, hash) && Sealed(b, hash)
    ensures Body(a) == Body(b) <==> a == b
    ensures a[|a| - SIZE..] == b[|b| - SIZE..] <==> hash(Body(a)) == hash(Body(b))
  {
    assert a[..|a| - SIZE] == Body(a) && b[..|b| - SIZE] == Body(b);
    assert a == Body(a) + a[|a| - SIZE..] && b == Body(b) + b[|b| - SIZE..];
  }
}
