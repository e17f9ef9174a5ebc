/**
 * A registry upload that fills one buffer while the previous one is on the wire.
 * The background PATCH is a separate activity: it may run at any moment between the producer's own
 * steps, which is what `Yield` stands for; it reads the buffer it was handed when it runs, not before.
 */
module BlobUpload {
  import opened Common

  type Location = string

  datatype Outcome = Running | Sent(next: Location) | Broken

  /** The upload session on the registry. A PATCH or PUT must name the location of the previous answer. */
  class Session {
    var received: Bytes
    var next: Location
    var broken: bool
    var stored: Option<Bytes>

    constructor (first: Location)
      ensures received == [] && next == first && !broken && stored.None?
    {
      received, next, broken, stored := [], first, false, None;
    }

    method Patch(loc: Location, body: Bytes) returns (answer: Outcome)
      requires loc == next && !broken
      modifies this
      ensures stored == old(stored) && !answer.Running?
      ensures answer.Sent? ==> received == old(received) + body && next == answer.next && !broken
      ensures answer.Broken? ==> broken
    {
      if * {
        var fresh_: Location := *;
        received, next := received + body, fresh_;
        answer := Sent(fresh_);
      } else {
        received := *;
        broken := true;
        answer := Broken;
      }
    }

    method Put(loc: Location) returns (ok: bool)
      requires loc == next && !broken
      modifies this
      ensures received == old(received)
      ensures ok ==> stored == Some(received)
      ensures !ok ==> broken
    {
      ok := *;
      if ok {
        stored := Some(received);
      } else {
        broken := true;
      }
    }

    method Delete()
      modifies this
      ensures broken
    {
      broken := true;
    }
  }

  class Upload {
    const capacity: nat
    const session: Session
    var loc: Location
    var buf: array<Byte>      // filled by Write
    var len: nat
    var spare: array?<Byte>   // idle buffer, null while a PATCH holds it
    var flying: bool          // a PATCH is in flight
    var flight: array?<Byte>  // the buffer it reads
    var flightLen: nat
    var flightLoc: Location
    var outcome: Outcome      // what it will deliver, Running until it has run
    var err: bool
    var committed: bool
    var aborted: bool
    ghost var deleted: bool   // the session was given up with DELETE
    ghost var accepted: Bytes // everything Write took
    ghost var handed: Bytes   // the buffer's contents when the PATCH was started
    ghost var buffers: set<array<Byte>>

    /** Nothing has failed so far, not even in a PATCH whose answer was not collected yet. */
    ghost predicate Live()
      reads this
    {
      !err && !deleted && !committed && !(flying && outcome.Broken?)
    }

    ghost function InFlight(): Bytes
      reads this
    {
      if flying && outcome.Running? then handed else []
    }

    /** The location the next request has to name. */
    ghost function NextLocation(): Location
      reads this
    {
      if !flying then loc else if outcome.Sent? then outcome.next else flightLoc
    }

    /** Shape of the two buffers: the one in flight is neither the one being filled nor the spare. */
    ghost predicate Shape()
      reads this, buffers
    {
      && capacity > 0 && buf in buffers && buf.Length == capacity && len <= capacity
      && (spare != null ==> spare in buffers && spare != buf && spare.Length == capacity)
      && (flying ==>
            && !err && !deleted && !committed && spare == null
            && flight != null && flight in buffers && flight != buf && flight.Length == capacity
            && flightLen <= capacity && flight[..flightLen] == handed)
    }

    ghost predicate Valid()
      reads this, session, buffers
    {
      && Shape()
      && (Live() ==>
            && !session.broken && session.stored.None? && session.next == NextLocation()
            && session.received + InFlight() + buf[..len] == accepted)
      && (committed ==> session.stored == Some(accepted))
      && (deleted ==> aborted)
      && (aborted ==> !committed)
    }

    constructor (session: Session, chunkSize: nat)
      requires chunkSize > 0 && session.received == [] && !session.broken && session.stored.None?
      ensures Valid() && accepted == [] && !flying && !err && !committed && !aborted
      ensures this.session == session && capacity == chunkSize && fresh(buffers)
    {
      this.session, capacity, loc := session, chunkSize, session.next;
      buf := new Byte[chunkSize];
      len, spare, flying, flight, flightLen, flightLoc, outcome := 0, null, false, null, 0, "", Running;
      err, committed, aborted, deleted := false, false, false, false;
      accepted, handed := [], [];
      new;
      buffers := {buf};
    }

    /** The background PATCH: reads its buffer now, whatever the producer did since it was started. */
    method RunPatch()
      requires Valid() && flying && outcome.Running?
      modifies session, this`outcome
      ensures Valid() && !outcome.Running?
    {
      outcome := session.Patch(flightLoc, flight[..flightLen]);
    }

    /** The scheduler may let the background PATCH run here. */
    method Yield()
      requires Valid()
      modifies session, this`outcome
      ensures Valid()
      ensures !flying ==> outcome == old(outcome) && session.stored == old(session.stored)
    {
      if * {
        if flying && outcome.Running? {
          RunPatch();
        }
      }
    }

    /** Collects the PATCH in flight, if any: its buffer becomes the spare, its answer the next location. */
    method WaitFlush() returns (ok: bool)
      requires Valid()
      modifies session, this`outcome, this`flying, this`spare, this`loc, this`err
      ensures Valid() && !flying
      ensures ok ==> err == old(err)
      ensures !ok ==> err
      ensures old(!flying) ==> ok && loc == old(loc) && spare == old(spare)
    {
      if !flying {
        return true;
      }
      if outcome.Running? {
        RunPatch();
      }
      flying, spare := false, flight;
      if outcome.Broken? {
        err := true;
        return false;
      }
      loc := outcome.next;
      return true;
    }

    /** Starts the PATCH of the filled buffer and goes on with the idle one. */
    method Launch(next: array<Byte>)
      requires Valid() && Live() && !flying && next != buf && next.Length == capacity
      modifies this
      ensures Valid() && Live() && flying && outcome.Running? && buffers == old(buffers) + {next}
      ensures flight == old(buf) && handed == old(buf[..len]) && flightLoc == loc == old(loc) && buf == next && len == 0
      ensures accepted == old(accepted) && aborted == old(aborted)
    {
      ghost var pending := buf[..len];
      buffers := buffers + {next};
      flightLoc, flightLen, flight, handed := loc, len, buf, pending;
      buf, len, spare := next, 0, null;
      flying, outcome := true, Running;
      assert buf[..len] == [];
    }

    /** Hands the filled buffer to a background PATCH and swaps in the spare one, after the previous PATCH. */
    method StartFlush() returns (ok: bool)
      requires Valid() && !err && !committed && !deleted
      modifies this, session
      ensures Valid() && fresh(buffers - old(buffers)) && old(buffers) <= buffers
      ensures accepted == old(accepted) && aborted == old(aborted) && committed == old(committed) && deleted == old(deleted)
      ensures ok ==> !err && len == 0
      ensures !ok ==> err
    {
      if len == 0 {
        return true;
      }
      ok := WaitFlush();
      if !ok {
        return;
      }
      var next := spare;
      if next == null {
        next := new Byte[capacity];
      }
      Launch(next);
    }

    /** Leaves the buffer with space for at least one byte; the background PATCH may run meanwhile. */
    method MakeRoom() returns (ok: bool)
      requires Valid() && !err && !committed && !deleted
      modifies this, session
      ensures Valid() && fresh(buffers - old(buffers)) && old(buffers) <= buffers
      ensures accepted == old(accepted) && aborted == old(aborted) && committed == old(committed) && deleted == old(deleted)
      ensures if ok then !err && len < capacity else err
    {
      Yield();
      if len < capacity {
        return true;
      }
      ok := StartFlush();
      if ok {
        Yield();
      }
    }

    method Write(p: Bytes) returns (written: nat, ok: bool)
      requires Valid()
      modifies this, session, buffers
      ensures Valid() && fresh(buffers - old(buffers))
      ensures written <= |p| && accepted == old(accepted) + p[..written]
      ensures ok ==> written == |p|
      ensures old(err || committed || aborted) ==> !ok && written == 0
      ensures !ok && old(!err && !committed && !aborted) ==> err
      ensures committed == old(committed) && aborted == old(aborted) && deleted == old(deleted)
    {
      written := 0;
      if err || committed || aborted {
        return 0, false;
      }
      while written < |p|
        invariant Valid() && fresh(buffers - old(buffers)) && !err && !committed && !aborted && !deleted
        invariant written <= |p| && accepted == old(accepted) + p[..written]
      {
        var room := MakeRoom();
        if !room {
          return written, false;
        }
        var n := Min(|p| - written, capacity - len);
        Append(p[written..written + n]);
        assert p[..written + n] == p[..written] + p[written..written + n];
        written := written + n;
      }
      assert p[..|p|] == p;
      ok := true;
    }

    /** Copies bytes behind the ones already buffered. */
    method Append(piece: Bytes)
      requires Valid() && len + |piece| <= capacity && !err && !committed && !deleted
      modifies this`len, this`accepted, buf
      ensures Valid() && accepted == old(accepted) + piece && len == old(len) + |piece|
    {
      ghost var before := buf[..len];
      var start := len;
      forall i | 0 <= i < |piece| {
        buf[start + i] := piece[i];
      }
      len := start + |piece|;
      accepted := accepted + piece;
      assert buf[..len] == before + piece;
    }

    /** Drains everything still pending, synchronously. */
    method Flush() returns (ok: bool)
      requires Valid() && !err && !committed && !deleted
      modifies session, this`outcome, this`flying, this`spare, this`loc, this`err, this`len
      ensures Valid() && !flying
      ensures ok ==> !err && len == 0
      ensures !ok ==> err
    {
      ok := WaitFlush();
      if !ok {
        return;
      }
      if len == 0 {
        return true;
      }
      var answer := session.Patch(loc, buf[..len]);
      if answer.Broken? {
        err := true;
        return false;
      }
      loc, len := answer.next, 0;
      assert buf[..len] == [];
      return true;
    }

    /** A successful commit stores everything Write accepted, in the order it was accepted. */
    method Commit() returns (ok: bool)
      requires Valid()
      modifies this, session
      ensures Valid() && accepted == old(accepted) && buffers == old(buffers) && aborted == old(aborted)
      ensures ok ==> committed && session.stored == Some(accepted)
      ensures ok <==> !err && !aborted
      ensures old(committed) ==> committed && session.stored == old(session.stored)
    {
      if err {
        return false;
      }
      if aborted {
        return false;
      }
      if committed {
        return true;
      }
      ok := Flush();
      if !ok {
        return;
      }
      assert session.received == accepted by {
        assert buf[..len] == [];
      }
      ok := session.Put(loc);
      if !ok {
        err := true;
        return;
      }
      committed := true;
    }

    method Abort()
      requires Valid()
      modifies this, session
      ensures Valid() && accepted == old(accepted) && buffers == old(buffers) && committed == old(committed)
      ensures !committed ==> aborted && (old(!aborted) ==> !flying && deleted)
      ensures committed ==> session.stored == old(session.stored) && aborted == old(aborted)
    {
      if committed || aborted {
        return;
      }
      aborted := true;
      var collected := WaitFlush();
      session.Delete();
      deleted := true;
    }
  }

  /** A whole upload: whatever the interleaving, success stores the pieces in order and nothing else. */
  method UploadAll(session: Session, chunkSize: nat, pieces: seq<Bytes>) returns (ok: bool)
    requires chunkSize > 0 && session.received == [] && !session.broken && session.stored.None?
    modifies session
    ensures ok ==> session.stored == Some(Flatten(pieces))
  {
    var upload := new Upload(session, chunkSize);
    for i := 0 to |pieces|
      invariant upload.Valid() && fresh(upload) && fresh(upload.buffers) && upload.session == session
      invariant upload.accepted == Flatten(pieces[..i])
    {
      assert pieces[..i + 1] == pieces[..i] + [pieces[i]];
      FlattenSnoc(pieces[..i], pieces[i]);
      var written, accepted := upload.Write(pieces[i]);
      if !accepted {
        upload.Abort();
        return false;
      }
    }
    assert pieces[..|pieces|] == pieces;
    ok := upload.Commit();
  }
}
