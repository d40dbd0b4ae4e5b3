/** A bounded queue of events in a ring of slots. Its one reader works under a lock; its one
  * writer asks for a region of free slots under the lock, has the region filled outside it,
  * and marks the filled slots as written under the lock again.
  */
module SensorEventQueue {
  import opened Options

  // ---- The ring as a value ----

  /** The slot `i` places after `start`: one wrap at most. */
  ghost function Slot(start: nat, i: nat, cap: nat): int {
    if start + i < cap then start + i else start + i - cap
  }

  lemma SlotIsRemainder(start: nat, i: nat, cap: nat)
    requires start < cap && i <= cap
    ensures (start + i) % cap == Slot(start, i, cap)
  {
    if start + i >= cap {
      RemainderOnce(start + i - cap, cap);
    }
  }

  lemma RemainderOnce(x: nat, cap: nat)
    requires x < cap
    ensures (x + cap) % cap == x
  {
    var q, r := (x + cap) / cap, (x + cap) % cap;
    assert x + cap == cap * q + r;
    assert cap * (q - 1) == x - r;
    if q != 1 {
      NoMultipleBetween(cap, q - 1);
    }
  }

  lemma NoMultipleBetween(cap: nat, k: int)
    requires k != 0 && cap > 0
    ensures cap * k >= cap || cap * k <= 0 - cap
  {
  }

  /** `spaceSignalled`: space was broadcast since the writer last began to wait for it. */
  datatype Ring<T> = Ring(start: nat, size: nat, data: seq<T>, spaceSignalled: bool) {
    ghost predicate Valid() {
      && size <= |data|
      && (start < |data| || (start == 0 && data == []))
    }

    /** The events in the queue, oldest first. */
    ghost function Contents(): (events: seq<T>)
      requires Valid()
    {
      seq(size, i requires 0 <= i < size => data[Slot(start, i, |data|)])
    }

    predicate Full() {
      size == |data|
    }

    /** These are free slots, and the first of them is where the next event goes. */
    ghost predicate IsWritable(first: nat, length: nat) {
      length > 0 ==>
        && size + length <= |data|
        && first == Slot(start, size, |data|)
        && first + length <= |data|
    }

    /** A contiguous region for up to `requested` events: it ends early only where the array
      * ends or the oldest readable event is, and is empty only if there is no space.
      */
    ghost predicate IsRegionFor(requested: int, first: nat, length: nat) {
      && IsWritable(first, length)
      && (length == 0 <==> Full() || requested <= 0)
      && (length > 0 ==>
            && length <= requested
            && (length == requested || first + length == |data| || first + length == start))
    }

    function Dequeue(): Ring<T>
      requires Valid()
    {
      if size == 0 then this
      else this.(start := (start + 1) % |data|, size := size - 1, spaceSignalled := spaceSignalled || Full())
    }

    /** The writer fills a slot. */
    function Store(slot: nat, event: T): Ring<T>
      requires slot < |data|
    {
      this.(data := data[slot := event])
    }

    function MarkAsWritten(count: nat): Ring<T> {
      this.(size := size + count)
    }
  }

  /** There always is such a region. */
  lemma RegionExists<T>(r: Ring<T>, requested: int) returns (first: nat, length: nat)
    requires r.Valid()
    ensures r.IsRegionFor(requested, first, length)
  {
    if r.Full() || requested <= 0 {
      return 0, 0;
    }
    first := Slot(r.start, r.size, |r.data|);
    var room := if first < r.start then r.start - first else |r.data| - first;
    length := if requested < room then requested else room;
  }

  /** No slot of a writable region is readable. */
  lemma WritableIsNotReadable<T>(r: Ring<T>, first: nat, length: nat, slot: nat, i: nat)
    requires r.Valid() && r.IsWritable(first, length) && first <= slot < first + length && i < r.size
    ensures slot != (r.start + i) % |r.data|
  {
    SlotIsRemainder(r.start, i, |r.data|);
  }

  /** The reader takes the oldest event, and only that. */
  lemma DequeueTakesOldest<T>(r: Ring<T>)
    requires r.Valid() && r.size > 0
    ensures r.Dequeue().Valid()
    ensures r.Contents() == [r.data[r.start]] + r.Dequeue().Contents()
  {
    SlotIsRemainder(r.start, 1, |r.data|);
  }

  /** What the reader does leaves the writer's region a writable one. */
  lemma DequeueKeepsWritable<T>(r: Ring<T>, first: nat, length: nat)
    requires r.Valid() && r.IsWritable(first, length)
    ensures r.Dequeue().IsWritable(first, length)
  {
    if r.size > 0 {
      SlotIsRemainder(r.start, 1, |r.data|);
    }
  }

  /** What the writer does to its region, nobody can read. */
  lemma StoreKeepsContents<T>(r: Ring<T>, first: nat, length: nat, slot: nat, event: T)
    requires r.Valid() && r.IsWritable(first, length) && first <= slot < first + length
    ensures r.Store(slot, event).Valid() && r.Store(slot, event).IsWritable(first, length)
    ensures r.Store(slot, event).Contents() == r.Contents()
  {
  }

  /** Marking appends exactly the marked events. */
  lemma MarkAppends<T>(r: Ring<T>, first: nat, count: nat)
    requires r.Valid() && r.IsWritable(first, count) && first + count <= |r.data|
    ensures r.MarkAsWritten(count).Valid()
    ensures r.MarkAsWritten(count).Contents() == r.Contents() + r.data[first..first + count]
  {
  }

  // ---- The queue ----

  class SensorEventQueue<T> {
    const mCapacity: nat
    var mStart: nat
    var mSize: nat
    const mData: array<T>
    var spaceSignalled: bool  // the condition variable

    ghost predicate Valid()
      reads this, mData
    {
      mCapacity == mData.Length && Value().Valid()
    }

    ghost function Value(): Ring<T>
      reads this, mData
    {
      Ring(mStart, mSize, mData[..], spaceSignalled)
    }

    constructor (capacity: nat, blank: T)
      ensures Valid() && fresh(mData) && mCapacity == capacity
      ensures Value().Contents() == [] && !spaceSignalled
    {
      mCapacity, mStart, mSize, spaceSignalled := capacity, 0, 0, false;
      mData := new T[capacity](_ => blank);
    }

    method GetWritableRegion(requestedLength: int) returns (first: nat, length: nat)
      requires Valid()
      ensures Value().IsRegionFor(requestedLength, first, length)
    {
      if mSize == mCapacity || requestedLength <= 0 {
        return 0, 0;
      }
      var firstWritable := (mStart + mSize) % mCapacity;
      SlotIsRemainder(mStart, mSize, mCapacity);
      var lastWritable := firstWritable + requestedLength - 1;
      if lastWritable > mCapacity - 1 {
        lastWritable := mCapacity - 1;
      }
      if firstWritable < mStart && lastWritable >= mStart {
        lastWritable := mStart - 1;
      }
      return firstWritable, lastWritable - firstWritable + 1;
    }

    /** What the writer's device does outside the lock. */
    method Store(slot: nat, event: T, ghost first: nat, ghost length: nat)
      requires Valid() && Value().IsWritable(first, length) && first <= slot < first + length
      modifies mData
      ensures Valid() && Value() == old(Value()).Store(slot, event)
      ensures Value().Contents() == old(Value().Contents()) && Value().IsWritable(first, length)
    {
      StoreKeepsContents(Value(), first, length, slot, event);
      mData[slot] := event;
    }

    method MarkAsWritten(count: nat, ghost first: nat)
      requires Valid() && Value().IsWritable(first, count) && first + count <= mCapacity
      modifies this`mSize
      ensures Valid() && Value() == old(Value()).MarkAsWritten(count)
      ensures Value().Contents() == old(Value().Contents()) + mData[first..first + count]
    {
      MarkAppends(Value(), first, count);
      mSize := mSize + count;
    }

    method Peek() returns (event: Option<T>)
      requires Valid()
      ensures event == if Value().Contents() == [] then None else Some(Value().Contents()[0])
    {
      if mSize == 0 {
        return None;
      }
      DequeueTakesOldest(Value());
      return Some(mData[mStart]);
    }

    method Dequeue()
      requires Valid()
      modifies this`mStart, this`mSize, this`spaceSignalled
      ensures Valid() && Value() == old(Value()).Dequeue()
      ensures Value().Contents() == if old(Value().Contents()) == [] then [] else old(Value().Contents())[1..]
    {
      if mSize == 0 {
        return;
      }
      DequeueTakesOldest(Value());
      if mSize == mCapacity {
        spaceSignalled := true;
      }
      mSize := mSize - 1;
      mStart := (mStart + 1) % mCapacity;
    }
  }
}
