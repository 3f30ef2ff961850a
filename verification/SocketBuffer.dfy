/**
 The read side of the socket's stream buffer against a plain stream of bytes. recv() hands over what the
 peer has sent in pieces of any size; no bytes at all, when the peer has sent its last, is the exception.
 */
module SocketBuffer {
  import opened Bytes

  const BUFFER_SIZE: nat := 1400

  function Min(a: nat, b: nat): nat {
    if a < b then a else b
  }

  class StreamBuf {
    const inBuffer: array<byte>
    var gptr: nat
    var egptr: nat
    /** What the peer has sent and recv() has not taken yet. */
    var unreceived: Str

    ghost predicate Valid()
      reads this
    {
      inBuffer.Length == BUFFER_SIZE && gptr <= egptr <= BUFFER_SIZE
    }

    ghost function Buffered(): Str
      reads this, inBuffer
      requires Valid()
    {
      inBuffer[gptr..egptr]
    }

    /** What a reader of the buffer has before it. */
    ghost function Stream(): Str
      reads this, inBuffer
      requires Valid()
    {
      Buffered() + unreceived
    }

    constructor (sent: Str)
      ensures Valid() && Stream() == sent && fresh(inBuffer)
    {
      inBuffer := new byte[BUFFER_SIZE](_ => 0);
      gptr := 0;
      egptr := 0;
      unreceived := sent;
    }

    /** The peer sends more. */
    method Arrive(more: Str)
      requires Valid()
      modifies this`unreceived
      ensures Valid() && Stream() == old(Stream()) + more
    {
      assert Buffered() + (unreceived + more) == Buffered() + unreceived + more;
      unreceived := unreceived + more;
    }

    /** ClientSocket::read: some of the bytes, at least one and at most `len`; none is an exception. */
    method Read(data: array<byte>, at: nat, len: nat) returns (got: nat)
      requires at + len <= data.Length && len > 0
      modifies this`unreceived, data
      ensures got == 0 <==> old(unreceived) == []
      ensures got <= len && got <= |old(unreceived)| && unreceived == old(unreceived)[got..]
      ensures data[..at + got] == old(data[..at]) + old(unreceived)[..got]
      ensures data[at + got..] == old(data[at + got..])
    {
      if unreceived == [] {
        return 0;
      }
      ghost var n := Min(len, |unreceived|);
      got :| 1 <= got <= len && got <= |unreceived|;
      forall i | 0 <= i < got {
        data[at + i] := unreceived[i];
      }
      assert data[..at + got] == old(data[..at]) + old(unreceived)[..got];
      unreceived := unreceived[got..];
    }

    /** underflow(): the buffer, which is used up, is filled again; false is the exception. */
    method Underflow() returns (ok: bool)
      requires Valid() && Buffered() == []
      modifies this, inBuffer
      ensures Valid() && Stream() == old(Stream())
      ensures ok <==> old(Stream()) != []
      ensures ok <==> Buffered() != []
    {
      gptr := 0;
      egptr := 0;
      var got := Read(inBuffer, 0, BUFFER_SIZE);
      if got == 0 {
        return false;
      }
      egptr := got;
      assert inBuffer[..egptr] == old(unreceived)[..got];
      assert Buffered() == old(unreceived)[..got];
      return true;
    }

    /** sbumpc(): one byte, by way of underflow() when the buffer is used up. */
    method Bump() returns (c: Option<byte>)
      requires Valid()
      modifies this, inBuffer
      ensures Valid()
      ensures c == (if old(Stream()) == [] then None else Some(old(Stream())[0]))
      ensures Stream() == (if old(Stream()) == [] then [] else old(Stream())[1..])
    {
      if gptr == egptr {
        var ok := Underflow();
        if !ok {
          return None;
        }
      }
      c := Some(inBuffer[gptr]);
      assert Buffered() == [inBuffer[gptr]] + inBuffer[gptr + 1..egptr];
      assert Stream() == [inBuffer[gptr]] + (inBuffer[gptr + 1..egptr] + unreceived);
      gptr := gptr + 1;
    }

    /** The first branch of xsgetn's loop: the bytes buffered go to `dest`, as many as are wanted. */
    method TakeBuffered(dest: array<byte>, at: nat, size: nat) returns (numRead: nat)
      requires Valid() && dest != inBuffer && at <= size <= dest.Length
      modifies this`gptr, dest
      ensures Valid() && at <= numRead <= size
      ensures dest[..numRead] + Stream() == old(dest[..at] + Stream())
      ensures Buffered() == [] || numRead == size
      ensures at < size && old(Buffered()) != [] ==> numRead > at
    {
      ghost var buffered := Buffered();
      var toRead := Min(size - at, egptr - gptr);
      forall i | 0 <= i < toRead {
        dest[at + i] := inBuffer[gptr + i];
      }
      numRead := at + toRead;
      gptr := gptr + toRead;
      assert dest[..numRead] == old(dest[..at]) + buffered[..toRead];
      assert Buffered() == buffered[toRead..];
      Regroup(old(dest[..at]), buffered, toRead, unreceived);
    }

    /** A long read goes past the buffer. */
    method ReadDirectly(dest: array<byte>, at: nat, size: nat) returns (numRead: nat)
      requires Valid() && Buffered() == [] && dest != inBuffer && at <= size <= dest.Length
      modifies this`unreceived, dest
      ensures Valid() && Buffered() == [] && at <= numRead <= size
      ensures dest[..numRead] + Stream() == old(dest[..at] + Stream())
      ensures numRead < size ==> Stream() == []
    {
      numRead := at;
      assert Stream() == unreceived;
      while numRead < size
        invariant Valid() && Buffered() == [] && at <= numRead <= size
        invariant dest[..numRead] + unreceived == old(dest[..at]) + old(unreceived)
      {
        ghost var done, left := dest[..numRead], unreceived;
        var got := Read(dest, numRead, size - numRead);
        if got == 0 {
          assert Stream() == unreceived;
          return;
        }
        Regroup(done, left, got, []);
        assert dest[..numRead + got] + unreceived == done + left;
        numRead := numRead + got;
      }
      assert Stream() == unreceived;
    }

    /** The second branch: the socket is read, straight to `dest` if more is wanted than the buffer holds. */
    method ReadSocket(dest: array<byte>, at: nat, size: nat) returns (numRead: nat, ok: bool)
      requires Valid() && Buffered() == [] && dest != inBuffer && at < size <= dest.Length
      modifies this, inBuffer, dest
      ensures Valid() && at <= numRead <= size
      ensures dest[..numRead] + Stream() == old(dest[..at] + Stream())
      ensures !ok ==> Stream() == []
      ensures ok ==> numRead == size || (numRead == at && Buffered() != [])
    {
      if size - at > BUFFER_SIZE {
        numRead := ReadDirectly(dest, at, size);
        ok := numRead == size;
      } else {
        numRead := at;
        ok := Underflow();
      }
    }

    /**
     xsgetn: exactly the requested bytes, whatever the pieces recv() gives; fewer only with the exception
     that the peer has no more, and then all there were.
     */
    method Xsgetn(dest: array<byte>, size: nat) returns (numRead: nat)
      requires Valid() && dest != inBuffer && size <= dest.Length
      modifies this, inBuffer, dest
      ensures Valid() && numRead == Min(size, |old(Stream())|)
      ensures dest[..numRead] == old(Stream())[..numRead] && Stream() == old(Stream())[numRead..]
    {
      numRead := 0;
      assert dest[..0] + Stream() == Stream();
      while numRead < size
        invariant Valid() && numRead <= size
        invariant dest[..numRead] + Stream() == old(Stream())
        decreases size - numRead, Buffered() == []
      {
        if gptr < egptr {
          numRead := TakeBuffered(dest, numRead, size);
          if gptr != egptr {
            Splits(dest[..numRead], Stream(), old(Stream()));
            return;
          }
        }
        gptr := 0;
        egptr := 0;
        if numRead < size {
          var ok;
          numRead, ok := ReadSocket(dest, numRead, size);
          if !ok {
            Splits(dest[..numRead], Stream(), old(Stream()));
            return;
          }
        }
      }
      Splits(dest[..numRead], Stream(), old(Stream()));
    }
  }

  lemma Regroup(a: Str, b: Str, k: nat, c: Str)
    requires k <= |b|
    ensures (a + b[..k]) + (b[k..] + c) == a + (b + c) && (a + b[..k]) + b[k..] == a + b
  {
    assert b == b[..k] + b[k..];
  }

  lemma Splits(a: Str, b: Str, s: Str)
    requires a + b == s
    ensures s[..|a|] == a && s[|a|..] == b
  {
  }
}
