/**
 * The ring buffer as an object: one thread at a time, updating its buffer and its two
 * indices in place.  Each operation refines the same operation on a sequence.
 */
module SpscQueue {
  import opened Bits
  import opened SpscModel

  datatype Option<+T> = None | Some(value: T)

  class Queue<T(0)> {
    const capacity: nat
    var head: nat
    var tail: nat
    const buffer: array<T>

    ghost predicate Valid()
      reads this
    {
      GoodCapacity(capacity) && buffer.Length == capacity && head < capacity && tail < capacity
    }

    /** The queued items, oldest first. */
    ghost function Contents(): seq<T>
      requires Valid()
      reads this, buffer
    {
      if head <= tail then buffer[head..tail] else buffer[head..] + buffer[..tail]
    }

    constructor (capacity: nat)
      requires GoodCapacity(capacity)
      ensures Valid() && this.capacity == capacity && Contents() == [] && fresh(buffer)
    {
      this.capacity := capacity;
      head, tail := 0, 0;
      buffer := new T[capacity];
    }

    /** The successor of an index, by the mask, wraps to zero at the end of the buffer. */
    lemma Wrap(i: nat)
      requires Valid() && i < capacity
      ensures NextIndex(i, capacity) == if i + 1 == capacity then 0 else i + 1
    {
      ModBelow(i, capacity);
      NextIndexWraps(i, capacity);
      if i + 1 == capacity {
        DivModUnique(capacity, capacity, 1, 0);
      } else {
        ModBelow(i + 1, capacity);
      }
    }

    /** Accepts the item at the back unless capacity - 1 items are queued. */
    method TryPush(item: T) returns (ok: bool)
      requires Valid()
      modifies this`tail, buffer
      ensures Valid()
      ensures ok == (|old(Contents())| < capacity - 1)
      ensures Contents() == if ok then old(Contents()) + [item] else old(Contents())
    {
      var t := tail;
      Wrap(t);
      var next := NextIndex(t, capacity);
      if next == head {
        return false;
      }
      buffer[t] := item;
      tail := next;
      ok := true;
    }

    /** Removes the oldest item; its slot is left in an unspecified moved-from state. */
    method TryPop() returns (r: Option<T>)
      requires Valid()
      modifies this`head, buffer
      ensures Valid()
      ensures old(Contents()) == [] ==> r.None? && Contents() == []
      ensures old(Contents()) != [] ==>
        r == Some(old(Contents())[0]) && Contents() == old(Contents())[1..]
    {
      var h := head;
      Wrap(h);
      if h == tail {
        return None;
      }
      ghost var was := Contents();
      assert was == [buffer[h]] + was[1..];
      var item := buffer[h];
      buffer[h] := *;
      head := NextIndex(h, capacity);
      r := Some(item);
    }

    method Empty() returns (r: bool)
      requires Valid()
      ensures r <==> Contents() == []
    {
      r := head == tail;
    }

    /** With no concurrent access the approximate size is the exact one. */
    method SizeApproximation() returns (n: nat)
      requires Valid()
      ensures n == |Contents()|
    {
      n := SizeApprox(tail, head, capacity);
      var p := if head <= tail then tail else tail + capacity;
      ModBelow(head, capacity);
      if head <= tail {
        ModBelow(tail, capacity);
      } else {
        ModBelow(tail, capacity);
        OneLapOn(tail, capacity);
      }
      SizeOfDistance(p, head, capacity);
    }
  }
}
