/**
 * `Fifo<N>` of possum_os (possum_os/src/console.rs): an append-only byte
 * buffer of N bytes; `flush` hands back a copy of all N bytes and resets
 * `tail` without clearing the buffer.
 *
 * The ghost sequence `pushed` is what was pushed since the last flush, in
 * push order; it is always `buffer[..tail]`.
 */
module Console {
  import opened Wrappers

  type byte = bv8

  /** The error `push` returns on a full buffer. */
  const FIFO_FULL: string := "Fifo is full"

  class Fifo {
    var buffer: array<byte>
    var tail: nat
    ghost var pushed: seq<byte>

    ghost predicate Valid()
      reads this, buffer
    {
      tail <= buffer.Length && pushed == buffer[..tail]
    }

    /** `new`: N zero bytes, nothing pushed. */
    constructor (n: nat)
      ensures Valid() && fresh(buffer)
      ensures buffer.Length == n && tail == 0 && pushed == []
      ensures forall i :: 0 <= i < n ==> buffer[i] == 0
    {
      buffer := new byte[n](_ => 0);
      tail := 0;
      pushed := [];
    }

    /** `is_empty` */
    function IsEmpty(): (r: bool)
      requires Valid()
      reads this, buffer
      ensures r <==> pushed == []
    {
      tail == 0
    }

    /** `is_full` */
    function IsFull(): (r: bool)
      requires Valid()
      reads this, buffer
      ensures r <==> |pushed| == buffer.Length
    {
      tail == buffer.Length
    }

    /**
     * `push`: on a full buffer, the error and no change; otherwise `data`
     * goes into the byte at the old `tail`, which moves up by one, and every
     * other byte keeps its value.
     */
    method Push(data: byte) returns (r: Result<(), string>)
      requires Valid()
      modifies this, buffer
      ensures Valid() && buffer == old(buffer)
      ensures old(tail) == buffer.Length ==>
                r == Err(FIFO_FULL) && tail == old(tail) && buffer[..] == old(buffer[..]) && pushed == old(pushed)
      ensures old(tail) < buffer.Length ==>
                && r == Ok(())
                && tail == old(tail) + 1
                && buffer[..] == old(buffer[..])[old(tail) := data]
                && pushed == old(pushed) + [data]
    {
      if IsFull() {
        return Err(FIFO_FULL);
      }
      buffer[tail] := data;
      tail := tail + 1;
      pushed := pushed + [data];
      return Ok(());
    }

    /**
     * `flush`: a fresh copy of all N bytes, stale ones past `tail` included,
     * whose first bytes are those pushed since the last flush; `tail` goes
     * back to 0 and the buffer itself is left as it was.
     */
    method Flush() returns (flushed: array<byte>)
      requires Valid()
      modifies this
      ensures Valid() && buffer == old(buffer) && tail == 0 && pushed == []
      ensures fresh(flushed) && flushed[..] == buffer[..]
      ensures |old(pushed)| <= flushed.Length && flushed[..|old(pushed)|] == old(pushed)
    {
      var n := buffer.Length;
      flushed := new byte[n](_ => 0);
      for i := 0 to n
        modifies flushed
        invariant flushed[..i] == buffer[..i]
      {
        flushed[i] := buffer[i];
      }
      assert flushed[..] == flushed[..n];
      tail := 0;
      pushed := [];
    }
  }
}
