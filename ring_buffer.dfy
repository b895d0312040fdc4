/**
 * `RingBuffer<T, N>` of possum_os (possum_os/src/ring_buffer.rs): a
 * fixed-size circular queue over an array of N slots, with FIFO `dequeue`,
 * LIFO `pop` and a draining `flush`. N is the array's length; `T: Default`
 * is a type with a default value, `T(0)`.
 *
 * The queue's meaning is the ghost sequence `contents`, front first: slot
 * `head` holds `contents[0]`, and the slots after it, wrapping at N, hold
 * the rest, so `tail` is the slot after the last element.
 */
module RingBuffers {
  import opened Wrappers

  /** The slot of the `i`-th element from `head` in a ring of `n` slots, for `head < n` and `i <= n`. */
  function Slot(head: nat, i: nat, n: nat): nat {
    if head + i < n then head + i else head + i - n
  }

  /** `Slot` is the source's `(head + i) % N`. */
  lemma SlotIsMod(head: nat, i: nat, n: nat)
    requires head < n && i <= n
    ensures Slot(head, i, n) == (head + i) % n
  {
    if head + i < n {
      assert (head + i) % n == head + i;
    } else {
      assert (head + i) - n < n;
      assert (head + i) % n == (head + i) - n;
    }
  }

  /** `(k + 1) % n` for a slot `k`: the next slot, wrapping to 0. */
  lemma NextSlot(k: nat, n: nat)
    requires k < n
    ensures (k + 1) % n == Slot(k, 1, n)
  {
    if k + 1 < n {
      assert (k + 1) % n == k + 1;
    } else {
      assert k + 1 == n;
    }
  }

  /** `(k + n - 1) % n` for a slot `k`: the previous slot, wrapping to n - 1. */
  lemma PrevSlot(k: nat, n: nat)
    requires k < n
    ensures (k + n - 1) % n == if k == 0 then n - 1 else k - 1
  {
    if k == 0 {
      assert (n - 1) % n == n - 1;
    } else {
      assert k + n - 1 == (k - 1) + n;
    }
  }

  /** Each element of `s` sits in its slot of `slots`, counting from `head`. */
  ghost predicate Holds<T>(s: seq<T>, slots: seq<T>, head: nat)
  {
    && |s| <= |slots|
    && (|slots| > 0 ==> head < |slots|)
    && forall i :: 0 <= i < |s| ==> Slot(head, i, |slots|) < |slots| && s[i] == slots[Slot(head, i, |slots|)]
  }

  /** Writing the slot after the last element appends to the queue. */
  lemma {:induction false} HoldsAppend<T>(s: seq<T>, slots: seq<T>, head: nat, item: T)
    requires Holds(s, slots, head) && |s| < |slots|
    ensures Slot(head, |s|, |slots|) < |slots|
    ensures Holds(s + [item], slots[Slot(head, |s|, |slots|) := item], head)
  {
    var n := |slots|;
    var t := Slot(head, |s|, n);
    var s', slots' := s + [item], slots[t := item];
    forall i | 0 <= i < |s'|
      ensures Slot(head, i, n) < n && s'[i] == slots'[Slot(head, i, n)]
    {
      if i < |s| {
        assert Slot(head, i, n) != t;
      }
    }
  }

  /** Dropping the front element moves `head` to the next slot. */
  lemma {:induction false} HoldsTail<T>(s: seq<T>, slots: seq<T>, head: nat)
    requires Holds(s, slots, head) && |s| > 0
    ensures Holds(s[1..], slots, Slot(head, 1, |slots|))
  {
    var n := |slots|;
    forall i | 0 <= i < |s| - 1
      ensures Slot(Slot(head, 1, n), i, n) == Slot(head, i + 1, n)
    {
    }
  }

  /** Dropping the back element keeps every other in its slot. */
  lemma HoldsPrefix<T>(s: seq<T>, slots: seq<T>, head: nat, k: nat)
    requires Holds(s, slots, head) && k <= |s|
    ensures Holds(s[..k], slots, head)
  {
  }

  /** Moving the front of `b` to the back of `a` keeps the concatenation. */
  lemma MoveFront<T>(a: seq<T>, b: seq<T>)
    requires |b| > 0
    ensures (a + [b[0]]) + b[1..] == a + b
  {
    assert b == [b[0]] + b[1..];
  }

  class RingBuffer<T(0)> {
    var buffer: array<T>
    var head: nat
    var tail: nat
    var count: nat
    ghost var contents: seq<T>

    /** The source's invariant on `head`, `tail` and `count`, and what the slots hold. */
    ghost predicate Valid()
      reads this, buffer
    {
      var n := buffer.Length;
      && count <= n
      && (n == 0 ==> head == 0 && tail == 0)
      && (n > 0 ==> tail == Slot(head, count, n) && tail < n)
      && |contents| == count
      && Holds(contents, buffer[..], head)
    }

    /** `new`: N default slots, nothing queued. */
    constructor (n: nat)
      ensures Valid() && fresh(buffer)
      ensures buffer.Length == n && contents == []
    {
      buffer := new T[n];
      head, tail, count := 0, 0, 0;
      contents := [];
    }

    /** `is_empty` */
    function IsEmpty(): (r: bool)
      requires Valid()
      reads this, buffer
      ensures r <==> contents == []
    {
      count == 0
    }

    /** `is_full` */
    function IsFull(): (r: bool)
      requires Valid()
      reads this, buffer
      ensures r <==> |contents| == buffer.Length
    {
      count == buffer.Length
    }

    /** `enqueue`: on a full buffer, the item comes back and nothing changes; otherwise it joins the back. */
    method Enqueue(item: T) returns (r: Result<(), T>)
      requires Valid()
      modifies this, buffer
      ensures Valid() && buffer == old(buffer)
      ensures old(|contents|) == buffer.Length ==>
                r == Err(item) && contents == old(contents)
                && head == old(head) && tail == old(tail) && count == old(count) && buffer[..] == old(buffer[..])
      ensures old(|contents|) < buffer.Length ==> r == Ok(()) && contents == old(contents) + [item]
    {
      if IsFull() {
        return Err(item);
      }
      var n := buffer.Length;
      HoldsAppend(contents, buffer[..], head, item);
      buffer[tail] := item;
      NextSlot(tail, n);
      tail := (tail + 1) % n;
      count := count + 1;
      contents := contents + [item];
      return Ok(());
    }

    /** `dequeue`: the front element, removed; `None` and no change when empty. */
    method Dequeue() returns (r: Option<T>)
      requires Valid()
      modifies this
      ensures Valid() && buffer == old(buffer) && buffer[..] == old(buffer[..])
      ensures old(contents) == [] ==> r == None && head == old(head) && tail == old(tail) && count == old(count)
      ensures old(contents) != [] ==> r == Some(old(contents)[0]) && contents == old(contents)[1..]
    {
      if IsEmpty() {
        return None;
      }
      var n := buffer.Length;
      var item := buffer[head];
      HoldsTail(contents, buffer[..], head);
      NextSlot(head, n);
      head := (head + 1) % n;
      count := count - 1;
      contents := contents[1..];
      return Some(item);
    }

    /** `pop`: the back element, the one enqueued last, removed; `None` and no change when empty. */
    method Pop() returns (r: Option<T>)
      requires Valid()
      modifies this
      ensures Valid() && buffer == old(buffer) && buffer[..] == old(buffer[..])
      ensures old(contents) == [] ==> r == None && head == old(head) && tail == old(tail) && count == old(count)
      ensures old(contents) != [] ==>
                r == Some(old(contents)[|old(contents)| - 1]) && contents == old(contents)[..|old(contents)| - 1]
    {
      if IsEmpty() {
        return None;
      }
      var n := buffer.Length;
      PrevSlot(tail, n);
      HoldsPrefix(contents, buffer[..], head, count - 1);
      var index := (tail + n - 1) % n;
      tail := index;
      count := count - 1;
      contents := contents[..count];
      return Some(buffer[index]);
    }

    /**
     * `flush`: dequeue until empty into a fresh array of N default slots;
     * the first `n` of them are the queue's contents, front first.
     */
    method Flush() returns (result: array<T>, n: nat)
      requires Valid()
      modifies this
      ensures Valid() && buffer == old(buffer) && contents == []
      ensures fresh(result) && result.Length == buffer.Length
      ensures n == |old(contents)| && result[..n] == old(contents)
    {
      result := new T[buffer.Length];
      n := 0;
      while true
        invariant Valid() && buffer == old(buffer)
        invariant n + |contents| == |old(contents)| && n <= result.Length
        invariant result[..n] + contents == old(contents)
        decreases |contents|
      {
        ghost var before, taken := contents, result[..n];
        var item := Dequeue();
        if item.None? {
          break;
        }
        result[n] := item.value;
        n := n + 1;
        assert result[..n] == taken + [before[0]];
        MoveFront(taken, before);
      }
    }
  }
}
