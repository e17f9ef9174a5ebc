/** The stream writer that overlaps producing bytes with sending them: two buffers, one send in flight. */
module FrameBuffer {
  import opened Common

  datatype Outcome = Running | Sent | Broken

  /** The connection under the buffer. A failed write may have put anything on the wire. */
  class Wire {
    var received: Bytes

    constructor ()
      ensures received == []
    {
      received := [];
    }

    method Send(payload: Bytes) returns (answer: Outcome)
      modifies this
      ensures !answer.Running?
      ensures answer.Sent? ==> received == old(received) + payload
    {
      if * {
        received := received + payload;
        answer := Sent;
      } else {
        received := *;
        answer := Broken;
      }
    }
  }

  class Buffer {
    const capacity: nat
    const wire: Wire
    const first: array<Byte>
    const second: array<Byte>
    var buf: array<Byte>
    var len: nat
    var spare: array<Byte>    // the buffer a send in flight owns
    var spareLen: nat
    var flying: bool
    var outcome: Outcome
    var err: bool
    ghost var accepted: Bytes // everything Write took
    ghost var handed: Bytes   // the buffer's contents when the send was started

    ghost predicate Live()
      reads this
    {
      !err && !(flying && outcome.Broken?)
    }

    ghost function InFlight(): Bytes
      reads this
    {
      if flying && outcome.Running? then handed else []
    }

    ghost predicate Valid()
      reads this, wire, first, second
    {
      && capacity > 0 && first != second && first.Length == second.Length == capacity
      && ((buf == first && spare == second) || (buf == second && spare == first))
      && len <= capacity && spareLen <= capacity
      && (flying ==> !err && spare[..spareLen] == handed)
      && (Live() ==> wire.received + InFlight() + buf[..len] == accepted)
    }

    constructor (wire: Wire, size: nat)
      requires size > 0 && wire.received == []
      ensures Valid() && accepted == [] && !flying && !err && this.wire == wire && capacity == size
      ensures fresh(first) && fresh(second)
    {
      this.wire, capacity := wire, size;
      var a, b := new Byte[size], new Byte[size];
      first, second, buf, spare := a, b, a, b;
      len, spareLen, flying, outcome, err := 0, 0, false, Running, false;
      accepted, handed := [], [];
    }

    /** The background send: reads its buffer now, whatever the producer did since it was started. */
    method RunSend()
      requires Valid() && flying && outcome.Running?
      modifies wire, this`outcome
      ensures Valid() && !outcome.Running?
    {
      outcome := wire.Send(spare[..spareLen]);
    }

    /** The scheduler may let the background send run here. */
    method Yield()
      requires Valid()
      modifies wire, this`outcome
      ensures Valid()
    {
      if * {
        if flying && outcome.Running? {
          RunSend();
        }
      }
    }

    /** Collects the outcome of the send in flight, if any. */
    method Wait() returns (ok: bool)
      requires Valid()
      modifies wire, this`outcome, this`flying, this`spareLen, this`err
      ensures Valid() && !flying && ok == !err && (old(err) ==> err)
    {
      if !flying {
        return !err;
      }
      if outcome.Running? {
        RunSend();
      }
      flying, spareLen := false, 0;
      if outcome.Broken? && !err {
        err := true;
      }
      return !err;
    }

    /** Hands the buffer to a background send and swaps in the idle one, after the previous send. */
    method StartSend() returns (ok: bool)
      requires Valid()
      modifies wire, this`outcome, this`flying, this`spareLen, this`err, this`buf, this`len, this`spare, this`handed
      ensures Valid() && ok == !err && (old(err) ==> err)
      ensures ok ==> len == 0
      ensures ok && old(len) > 0 ==> flying && handed == old(buf[..len]) && spare == old(buf)
      ensures !ok ==> len == old(len) && buf == old(buf)
    {
      if len == 0 {
        return !err;
      }
      ok := Wait();
      if !ok {
        return;
      }
      handed := buf[..len];
      buf, spare, spareLen, len := spare, buf, len, 0;
      flying, outcome := true, Running;
      assert buf[..len] == [];
    }

    method Append(piece: Bytes)
      requires Valid() && len + |piece| <= capacity
      modifies this`len, this`accepted, buf
      ensures Valid() && accepted == old(accepted) + piece && len == old(len) + |piece|
    {
      ghost var before := buf[..len];
      var start := len;
      forall i | 0 <= i < |piece| {
        buf[start + i] := piece[i];
      }
      len := start + |piece|;
      accepted := accepted + piece;
      assert buf[..len] == before + piece;
    }

    method Write(p: Bytes) returns (written: nat, ok: bool)
      requires Valid()
      modifies this, wire, first, second
      ensures Valid() && written <= |p| && accepted == old(accepted) + p[..written]
      ensures ok ==> written == |p|
      ensures old(err) ==> !ok && written == 0
      ensures !ok ==> err
    {
      written := 0;
      if err {
        return 0, false;
      }
      while written < |p|
        invariant Valid() && !err && written <= |p| && accepted == old(accepted) + p[..written]
      {
        Yield();
        if len == capacity {
          var started := StartSend();
          if !started {
            return written, false;
          }
          Yield();
        }
        var n := Min(|p| - written, capacity - len);
        Append(p[written..written + n]);
        assert p[..written + n] == p[..written] + p[written..written + n];
        written := written + n;
      }
      assert p[..|p|] == p;
      ok := true;
    }

    /** A successful flush means everything accepted so far is on the wire, in order. */
    method Flush() returns (ok: bool)
      requires Valid()
      modifies wire, this`outcome, this`flying, this`spareLen, this`err, this`buf, this`len, this`spare, this`handed
      ensures Valid() && (old(err) ==> !ok)
      ensures ok ==> wire.received == accepted && len == 0 && !flying && !err
      ensures !ok ==> err
    {
      ok := StartSend();
      if !ok {
        return;
      }
      Yield();
      ok := Wait();
      assert buf[..len] == [];
    }
  }

  /** A whole stream: whatever the interleaving, a flush that succeeds sent the pieces in order and nothing else. */
  method StreamAll(wire: Wire, size: nat, pieces: seq<Bytes>) returns (ok: bool)
    requires size > 0 && wire.received == []
    modifies wire
    ensures ok ==> wire.received == Flatten(pieces)
  {
    var buffer := new Buffer(wire, size);
    for i := 0 to |pieces|
      invariant buffer.Valid() && fresh(buffer) && fresh(buffer.first) && fresh(buffer.second) && buffer.wire == wire
      invariant buffer.accepted == Flatten(pieces[..i])
    {
      assert pieces[..i + 1] == pieces[..i] + [pieces[i]];
      FlattenSnoc(pieces[..i], pieces[i]);
      var written, accepted := buffer.Write(pieces[i]);
      if !accepted {
        return false;
      }
    }
    assert pieces[..|pieces|] == pieces;
    ok := buffer.Flush();
  }
}
