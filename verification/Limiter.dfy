/** The reader that refuses to hand out more than a declared number of bytes. */
module Limiter {
  import opened Common
  import opened Primitives

  /** What a consumer sees of a decoded stream behind a cap; a cap of zero or less is no cap. */
  function Capped(d: Decoded, cap: int): Decoded {
    if cap > 0 && |d.out| > cap then Decoded(d.out[..cap], false) else d
  }

  datatype Status = More | End | Refused

  /** One decoded stream behind a limiter; the consumer chooses the size of every read. */
  class Limited {
    const source: Decoded
    const max: int
    var n: nat

    ghost predicate Valid()
      reads this
    {
      n <= |source.out| && (max > 0 ==> n <= max)
    }

    constructor (source: Decoded, max: int)
      ensures Valid() && n == 0 && this.source == source && this.max == max
    {
      this.source, this.max, n := source, max, 0;
    }

    /** The byte that proves the cap was exceeded is never handed out. */
    method Read(room: nat) returns (p: Bytes, status: Status)
      requires Valid() && room > 0
      modifies this
      ensures Valid() && old(n) <= n && p == source.out[old(n)..n] && |p| <= room
      ensures status.More? ==> n > old(n)
      ensures status.End? ==> n == |source.out| && source.clean && Capped(source, max) == source
      ensures status.Refused? ==> !Capped(source, max).clean && source.out[..n] == Capped(source, max).out
    {
      if max > 0 && n >= max {
        if n < |source.out| {
          assert Capped(source, max).out == source.out[..n];
          return [], Refused;
        }
        assert source.out[..n] == source.out;
        return [], if source.clean then End else Refused;
      }
      var size := Min(if max > 0 then Min(room, max - n) else room, |source.out| - n);
      if size == 0 {
        assert source.out[..n] == source.out;
        return [], if source.clean then End else Refused;
      }
      p := source.out[n..n + size];
      n := n + size;
      status := More;
    }
  }

  /** Copying through the limiter, whatever the buffer sizes, yields the capped stream. */
  method CopyLimited(source: Decoded, cap: int, room: nat) returns (out: Bytes, ok: bool)
    requires room > 0
    ensures Decoded(out, ok) == Capped(source, cap)
  {
    var limited := new Limited(source, cap);
    out := [];
    while true
      invariant limited.Valid() && fresh(limited) && limited.source == source && limited.max == cap
      invariant out == source.out[..limited.n]
      decreases |source.out| - limited.n
    {
      var p, status := limited.Read(room);
      out := out + p;
      if status.End? {
        return out, true;
      }
      if status.Refused? {
        return out, false;
      }
    }
  }
}
