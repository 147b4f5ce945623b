/**
 The ring buffers between interrupt handler, keyboard task and console (kb_in of
 kernel/keyboard.c and in_buf of kernel/tty.c, which have the same shape): bounded queues that
 drop the newest item when they are full.
 */
module Rings {

  function Least(a: nat, b: nat): nat {
    if a < b then a else b
  }

  /** What offering `x` to a full or not yet full queue makes of it. */
  ghost function Offer<T>(q: seq<T>, x: T, capacity: nat): seq<T> {
    if |q| < capacity then q + [x] else q
  }

  class Ring<T(0)> {
    const buf: array<T>

    /** The next free slot, the slot of the oldest item, and the number of items. */
    var head: nat
    var tail: nat
    var count: nat

    ghost predicate Valid()
      reads this
    {
      && tail < buf.Length && count <= buf.Length
      && head == Slot(count)
    }

    /** tail + i modulo the size of the buffer, for an i up to that size. */
    ghost function Slot(i: nat): nat
      reads this
    {
      if tail + i < buf.Length then tail + i else tail + i - buf.Length
    }

    /** The items in the ring, oldest first. */
    ghost function Contents(): (q: seq<T>)
      requires Valid()
      reads this, buf
      ensures |q| == count
    {
      seq(count, i requires 0 <= i < count reads this, buf requires Valid() => buf[Slot(i)])
    }

    constructor (capacity: nat)
      requires capacity > 0
      ensures Valid() && fresh(buf) && buf.Length == capacity && Contents() == []
    {
      buf := new T[capacity];
      head, tail, count := 0, 0, 0;
    }

    /** keyboard_handler and put_key */
    method Put(x: T)
      requires Valid()
      modifies this`head, this`count, buf
      ensures Valid()
      ensures old(count) < buf.Length ==> Contents() == old(Contents()) + [x]
      ensures old(count) == buf.Length ==> Contents() == old(Contents())
    {
      ghost var q := Contents();
      if count < buf.Length {
        buf[head] := x;
        head := head + 1;
        if head == buf.Length {
          head := 0;
        }
        count := count + 1;
        assert Contents() == q + [x];
      }
    }

    /** get_byte_from_kbuf and tty_do_write, once there is something to take. */
    method Take() returns (x: T)
      requires Valid() && count > 0
      modifies this`tail, this`count
      ensures Valid()
      ensures old(Contents()) == [x] + Contents()
    {
      ghost var q := Contents();
      x := buf[tail];
      tail := tail + 1;
      if tail == buf.Length {
        tail := 0;
      }
      count := count - 1;
      assert q == [x] + Contents();
    }
  }
}
