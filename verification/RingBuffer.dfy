/** The ring buffer of queue.c: the critical sections of queue_enqueue and queue_dequeue. */
module RingBuffer {

  // The fields of queue_t; `slots` is the buffer, whose length is the capacity.
  datatype Ring<T> = Ring(slots: seq<T>, size: int, inPos: int, outPos: int) {

    predicate Valid() {
      && |slots| >= 1
      && 0 <= size <= |slots|
      && 0 <= outPos < |slots|
      && inPos == (outPos + size) % |slots|
    }

    // The queued values, oldest first.
    function Contents(): (values: seq<T>)
      requires Valid()
      ensures |values| == size
    {
      seq(size, k requires 0 <= k < size => slots[(outPos + k) % |slots|])
    }

    predicate Full() { size == |slots| }
    predicate Empty() { size == 0 }

    function Put(value: T): Ring<T>
      requires Valid() && !Full()
    {
      Ring(slots[inPos := value], size + 1, (inPos + 1) % |slots|, outPos)
    }

    function Front(): T
      requires Valid() && !Empty()
    {
      slots[outPos]
    }

    function Drop(): Ring<T>
      requires Valid() && !Empty()
    {
      Ring(slots, size - 1, inPos, (outPos + 1) % |slots|)
    }
  }

  // Reducing a position below twice the capacity.
  lemma Wrap(pos: int, capacity: int)
    requires 0 <= pos < 2 * capacity
    ensures pos % capacity == if pos < capacity then pos else pos - capacity
  {
    if pos >= capacity {
      assert pos == (pos - capacity) + 1 * capacity;
    }
  }

  // Advancing a reduced position is advancing the position.
  lemma Advance(pos: int, capacity: int)
    requires capacity >= 1 && 0 <= pos && pos + 1 < 2 * capacity
    ensures (pos % capacity + 1) % capacity == (pos + 1) % capacity
  {
    Wrap(pos, capacity);
    Wrap(pos % capacity + 1, capacity);
    Wrap(pos + 1, capacity);
  }

  lemma PutAppends<T>(ring: Ring<T>, value: T)
    requires ring.Valid() && !ring.Full()
    ensures ring.Put(value).Valid()
    ensures ring.Put(value).Contents() == ring.Contents() + [value]
  {
    var next := ring.Put(value);
    var c := |ring.slots|;
    Advance(ring.outPos + ring.size, c);
    Wrap(ring.outPos + ring.size, c);
    forall k | 0 <= k < ring.size
      ensures next.Contents()[k] == ring.Contents()[k]
    {
      Wrap(ring.outPos + k, c);
    }
  }

  lemma DropRemoves<T>(ring: Ring<T>)
    requires ring.Valid() && !ring.Empty()
    ensures ring.Drop().Valid()
    ensures ring.Contents() == [ring.Front()] + ring.Drop().Contents()
  {
    var next := ring.Drop();
    var c := |ring.slots|;
    var rest := ring.Contents()[1..];
    DropIsValid(ring);
    forall k | 0 <= k < next.size
      ensures next.Contents()[k] == rest[k]
    {
      Wrap(ring.outPos + 1, c);
      Wrap(next.outPos + k, c);
      Wrap(ring.outPos + 1 + k, c);
    }
    assert next.Contents() == rest;
    Wrap(ring.outPos, c);
  }

  lemma DropIsValid<T>(ring: Ring<T>)
    requires ring.Valid() && !ring.Empty()
    ensures ring.Drop().Valid()
  {
    var c := |ring.slots|;
    Wrap(ring.outPos + 1, c);
    Wrap(ring.Drop().outPos + ring.Drop().size, c);
    Wrap(ring.outPos + ring.size, c);
  }

  /** The queue object itself. The methods are the code between lock and unlock; the waiting
      loops around them and the wakeups are the subject of module Monitor. */
  class Queue<T(0)> {
    const buffer: array<T>
    var size: int
    var inPos: int
    var outPos: int
    ghost var enqueued: seq<T>   // every value ever enqueued, in order
    ghost var dequeued: seq<T>   // every value ever dequeued, in order

    ghost function Fields(): Ring<T>
      reads this, buffer
    {
      Ring(buffer[..], size, inPos, outPos)
    }

    // The values dequeued, followed by those still in the ring, are the values enqueued.
    ghost predicate Valid()
      reads this, buffer
    {
      Fields().Valid() && enqueued == dequeued + Fields().Contents()
    }

    constructor (capacity: nat)
      requires capacity >= 1
      ensures Valid() && fresh(buffer) && buffer.Length == capacity
      ensures enqueued == [] && dequeued == []
    {
      buffer := new T[capacity];
      size, inPos, outPos := 0, 0, 0;
      enqueued, dequeued := [], [];
    }

    method Enqueue(value: T)
      requires Valid() && size < buffer.Length
      modifies this, buffer
      ensures Valid() && Fields() == old(Fields()).Put(value)
      ensures enqueued == old(enqueued) + [value] && dequeued == old(dequeued)
    {
      ghost var before := Fields();
      PutAppends(before, value);
      buffer[inPos] := value;
      size := size + 1;
      inPos := inPos + 1;
      inPos := inPos % buffer.Length;
      enqueued := enqueued + [value];
      assert Fields() == before.Put(value);
    }

    method Dequeue() returns (value: T)
      requires Valid() && size > 0
      modifies this
      ensures Valid() && Fields() == old(Fields()).Drop()
      ensures value == old(enqueued)[|old(dequeued)|]
      ensures enqueued == old(enqueued) && dequeued == old(dequeued) + [value]
    {
      ghost var before := Fields();
      DropRemoves(before);
      value := buffer[outPos];
      size := size - 1;
      outPos := outPos + 1;
      outPos := outPos % buffer.Length;
      dequeued := dequeued + [value];
      assert Fields() == before.Drop();
    }
  }
}
