/**
  The splice from the proxy's socket to the tunnel's TCP: bytes are read into the
  ring, handed to the stack where they lie, and released as the peer acknowledges
  them.  The stack keeps no copy, so what is in flight must stay where it is.
 */
module TcpSplice {
  import opened Bytes
  import opened RingBuffer

  /** What a read of the socket gave: bytes, nothing yet, or its end (or an error). */
  datatype Socket = Got(bytes: seq<Byte>) | Again | Ended

  lemma Assoc(a: seq<Byte>, b: seq<Byte>, c: seq<Byte>)
    ensures a + (b + c) == (a + b) + c
  {
  }

  class Session {
    const buffer: Buffer
    /** The stack still has the connection. */
    var pcb: bool
    /** Every byte read from the socket, in order. */
    ghost var received: seq<Byte>
    /** Every byte handed to the stack, in order. */
    ghost var handed: seq<Byte>
    /** How many of those the peer has acknowledged. */
    ghost var acked: nat

    /** Nothing is lost, doubled or out of order, and the bytes not yet acknowledged
        are still in the buffer's memory. */
    ghost predicate Valid()
      reads this, buffer, buffer.data
    {
      && buffer.Valid()
      && received == handed + buffer.Unread()
      && acked <= |handed|
      && buffer.InFlight() == handed[acked..]
    }

    constructor (size: nat)
      ensures Valid() && fresh(buffer) && fresh(buffer.data)
      ensures buffer.max == size && pcb && received == handed == [] && acked == 0
    {
      buffer := new Buffer(size);
      pcb, received, handed, acked := true, [], [], 0;
    }

    method PutAt(k: nat, x: Byte, regions: seq<Region>)
      requires buffer.Valid() && k < buffer.max - buffer.use && regions == buffer.FreeRegions()
      modifies buffer.data
      ensures buffer.WritePlace(k) < buffer.max && buffer.data[buffer.WritePlace(k)] == x
      ensures forall i :: 0 <= i < buffer.max && i != buffer.WritePlace(k) ==>
                buffer.data[i] == old(buffer.data[i])
    {
      buffer.WritingGoesRound(k);
      buffer.data[PositionIn(regions, k)] := x;
    }

    /** A place that is written to is none that is occupied, nor one written before. */
    lemma FreePlaces(k: nat)
      requires buffer.Valid() && k < buffer.max - buffer.use
      ensures forall j: nat :: j < buffer.use ==> buffer.Place(j) != buffer.WritePlace(k)
      ensures forall j: nat :: j < k ==> buffer.WritePlace(j) != buffer.WritePlace(k)
    {
    }

    /** These bytes lie from the write position on. */
    ghost predicate Written(bytes: seq<Byte>)
      reads buffer, buffer.data
    {
      && buffer.data.Length == buffer.max
      && forall j: nat :: j < |bytes| ==>
           buffer.WritePlace(j) < buffer.max && buffer.data[buffer.WritePlace(j)] == bytes[j]
    }

    /** Every byte in flight or unread is what it was. */
    ghost predicate InPlace(was: seq<Byte>)
      requires buffer.Valid() && |was| == buffer.max
      reads buffer, buffer.data
    {
      forall j: nat :: j < buffer.use ==> buffer.data[buffer.Place(j)] == was[buffer.Place(j)]
    }

    method PutNext(bytes: seq<Byte>, x: Byte, regions: seq<Region>, ghost was: seq<Byte>)
      requires buffer.Valid() && |bytes| < buffer.max - buffer.use && regions == buffer.FreeRegions()
      requires |was| == buffer.max && Written(bytes) && InPlace(was)
      modifies buffer.data
      ensures Written(bytes + [x]) && InPlace(was)
    {
      FreePlaces(|bytes|);
      PutAt(|bytes|, x, regions);
    }

    /** The socket's bytes as readv lays them into the writing regions. */
    method Fill(bytes: seq<Byte>, regions: seq<Region>)
      requires buffer.Valid() && |bytes| <= buffer.max - buffer.use
      requires regions == buffer.FreeRegions()
      modifies buffer.data
      ensures buffer.InFlight() == old(buffer.InFlight())
      ensures buffer.Unread() == old(buffer.Unread())
      ensures buffer.wp < buffer.max || |bytes| == 0
      ensures Ring(buffer.data[..], buffer.wp, |bytes|) == bytes
    {
      var b := buffer;
      ghost var was := b.data[..];
      for k := 0 to |bytes|
        invariant Written(bytes[..k]) && InPlace(was)
      {
        PutNext(bytes[..k], bytes[k], regions, was);
        assert bytes[..k + 1] == bytes[..k] + [bytes[k]];
      }
      assert bytes[..|bytes|] == bytes;
      Undisturbed(was);
      WrittenIs(bytes);
    }

    lemma WrittenIs(bytes: seq<Byte>)
      requires buffer.Valid() && |bytes| <= buffer.max - buffer.use
      requires Written(bytes)
      ensures buffer.wp < buffer.max || |bytes| == 0
      ensures Ring(buffer.data[..], buffer.wp, |bytes|) == bytes
    {
      var ring := Ring(buffer.data[..], buffer.wp, |bytes|);
      forall j | 0 <= j < |bytes| ensures ring[j] == bytes[j] {
        assert buffer.data[buffer.WritePlace(j)] == bytes[j];
      }
    }

    /** Bytes that are all where they were read as they were. */
    lemma Undisturbed(was: seq<Byte>)
      requires buffer.Valid() && |was| == buffer.max
      requires InPlace(was)
      ensures buffer.InFlight() == Ring(was, buffer.Start(), buffer.use - buffer.rda)
      ensures buffer.Unread() == Ring(was, buffer.rp, buffer.rda)
    {
      var b := buffer;
      var flying := b.use - b.rda;
      forall i | 0 <= i < flying ensures b.InFlight()[i] == Ring(was, b.Start(), flying)[i] {
        assert b.data[b.Place(i)] == was[b.Place(i)];
      }
      forall i | 0 <= i < b.rda ensures b.Unread()[i] == Ring(was, b.rp, b.rda)[i] {
        assert b.data[b.Place(flying + i)] == was[b.Place(flying + i)];
        assert b.Place(flying + i) == Wrap(b.rp + i, b.max);
      }
    }

    method Take(bytes: seq<Byte>, regions: seq<Region>)
      requires buffer.Valid() && 0 < |bytes| <= buffer.max - buffer.use
      requires regions == buffer.FreeRegions()
      modifies buffer, buffer.data
      ensures buffer.Valid() && buffer.use == old(buffer.use) + |bytes|
      ensures buffer.InFlight() == old(buffer.InFlight())
      ensures buffer.Unread() == old(buffer.Unread()) + bytes
    {
      Fill(bytes, regions);
      buffer.WriteFinish(|bytes|);
    }

    /** The half that reads the socket into the ring. */
    method Receive(socket: Socket) returns (res: int)
      requires Valid()
      requires socket.Got? ==> 0 < |socket.bytes| <= buffer.max - buffer.use
      modifies this`received, buffer, buffer.data
      ensures Valid()
      ensures received == old(received) + (if socket.Got? then socket.bytes else [])
      ensures res == if old(buffer.use) == buffer.max || socket.Again? then 0 else if socket.Got? then 1 else -1
    {
      var regions := buffer.Writing();
      if regions == [] {
        return 0;
      }
      match socket
      case Got(bytes) =>
        Assoc(handed, buffer.Unread(), bytes);
        Take(bytes, regions);
        received := received + bytes;
        res := 1;
      case Again => res := 0;
      case Ended => res := -1;
    }

    /** The half that hands what is unread to the stack. */
    method HandOver() returns (some: bool)
      requires Valid()
      modifies this`handed, buffer
      ensures Valid()
      ensures handed == received && buffer.Unread() == []
      ensures some <==> old(buffer.Unread()) != []
    {
      var regions := buffer.Reading();
      some := regions != [];
      if some {
        ghost var unread := Bytewise(buffer.data[..], regions);
        assert unread[..|unread|] == unread;
        handed := handed + unread;
        buffer.ReadFinish(buffer.rda);
      }
    }

    /** One turn of the splice towards the tunnel.  `refused` is the stack turning a
        write or its flush down. */
    method SpliceBack(socket: Socket, refused: bool) returns (res: int)
      requires Valid()
      requires socket.Got? ==> 0 < |socket.bytes| <= buffer.max - buffer.use
      modifies this`received, this`handed, buffer, buffer.data
      ensures Valid()
      ensures received == old(received) + (if socket.Got? then socket.bytes else [])
      ensures if pcb then handed == received && buffer.Unread() == [] else handed == old(handed)
      ensures res == -1 <==>
        || !pcb
        || (refused && |handed| > |old(handed)|)
        || (old(buffer.use) < buffer.max && socket.Ended? && handed == old(handed))
      ensures res >= 0 ==> (res == 1 <==> |handed| > |old(handed)|)
    {
      res := Receive(socket);
      if pcb {
        var some := HandOver();
        if some {
          res := if refused then -1 else 1;
        }
      } else {
        res := -1;
      }
    }

    /** The peer acknowledged `len` bytes of what was handed over. */
    method Sent(len: nat)
      requires Valid()
      requires acked + len <= |handed|
      modifies this`acked, buffer
      ensures Valid() && acked == old(acked) + len
      ensures buffer.use == old(buffer.use) - len
    {
      ghost var flying, rest := buffer.InFlight(), buffer.Unread();
      buffer.ReadRelease(len);
      assert buffer.InFlight() == flying[len..] && buffer.Unread() == rest;
      assert flying[len..] == handed[acked + len..];
      acked := acked + len;
    }

    method Failed()
      requires Valid()
      modifies this`pcb
      ensures Valid() && !pcb
    {
      pcb := false;
    }

    /** The bytes handed over and not yet acknowledged lie, in order, from the oldest
        place on: the stack can send any of them again from the buffer itself. */
    lemma StillThere(k: nat)
      requires Valid()
      requires acked + k < |handed|
      ensures buffer.data[buffer.Place(k)] == handed[acked + k]
      ensures forall r :: r in buffer.FreeRegions() ==> !(r.base <= buffer.Place(k) < r.base + r.len)
    {
      assert buffer.InFlight()[k] == handed[acked + k];
      assert buffer.Occupied(buffer.Place(k));
      buffer.WritingIsFree(buffer.Place(k));
    }
  }
}
