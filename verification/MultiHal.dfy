/** The reader's side of the multi-HAL: `poll` goes round the queues of all sub-modules and
  * hands on what it finds.
  */
module MultiHal {
  import opened SensorEventQueue
  import opened SensorHandles

  type Queue = Ring<SensorEvent>

  /** An event that the reader took off a queue, and the handles as they then were. */
  datatype Taken = Taken(moduleIndex: nat, raw: SensorEvent, maps: HandleMaps) {
    function Out(): SensorEvent {
      maps.RemapHandle(raw, moduleIndex)
    }
  }

  /** A scan in progress. `taken` and `visits` tell its history: the events taken off, and the
    * queues looked at, ever.
    */
  datatype Scan = Scan(
    queues: seq<Queue>,
    nextReadIndex: nat,
    empties: nat,
    data: seq<SensorEvent>,      // the events read for the caller
    ghost taken: seq<Taken>,
    ghost visits: seq<nat>)
  {
    ghost predicate Valid() {
      && nextReadIndex < |queues|
      && empties <= |queues|
      && forall i | 0 <= i < |queues| :: queues[i].Valid()
    }
  }

  /** Looks at one queue and takes its oldest event, if there is one. */
  ghost function Visit(s: Scan, maps: HandleMaps): Scan
    requires s.Valid()
  {
    var i, n := s.nextReadIndex, |s.queues|;
    var s1 := s.(nextReadIndex := (i + 1) % n, visits := s.visits + [i]);
    if s.queues[i].Contents() == [] then s1.(empties := if s.empties < n then s.empties + 1 else n)
    else
      var t := Taken(i, s.queues[i].Contents()[0], maps);
      s1.(queues := s.queues[i := s.queues[i].Dequeue()],
          empties := 0,
          taken := s.taken + [t],
          data := if t.Out().sensor == -1 then s.data else s.data + [t.Out()])
  }

  /** What a visit comes to for the place in the round, the queues and the events read. */
  lemma VisitSteps(s: Scan, maps: HandleMaps)
    requires s.Valid()
    ensures var i, n, s' := s.nextReadIndex, |s.queues|, Visit(s, maps);
      && s'.nextReadIndex == (i + 1) % n
      && (s.queues[i].Contents() == [] ==>
            s'.queues == s.queues && s'.data == s.data && (s.empties < n ==> s'.empties == s.empties + 1))
      && (s.queues[i].Contents() != [] ==>
            var out := maps.RemapHandle(s.queues[i].Contents()[0], i);
            && s'.queues == s.queues[i := s.queues[i].Dequeue()] && s'.empties == 0
            && s'.data == s.data + if out.sensor == -1 then [] else [out])
  {
    hide HandleMaps.RemapHandle, Queue.Dequeue, Queue.Contents;
  }

  ghost function Queued(queues: seq<Queue>): nat {
    if queues == [] then 0 else queues[0].size + Queued(queues[1..])
  }

  lemma {:induction false} QueuedAfterUpdate(queues: seq<Queue>, i: nat, q: Queue)
    requires i < |queues|
    ensures Queued(queues[i := q]) == Queued(queues) - queues[i].size + q.size
  {
    var queues' := queues[i := q];
    if i == 0 {
      assert queues'[1..] == queues[1..];
    } else {
      QueuedAfterUpdate(queues[1..], i - 1, q);
      assert queues'[1..] == queues[1..][i - 1 := q];
    }
  }

  lemma VisitKeepsValid(s: Scan, maps: HandleMaps)
    requires s.Valid()
    ensures Visit(s, maps).Valid() && |Visit(s, maps).queues| == |s.queues|
    ensures Visit(s, maps).nextReadIndex == Slot(s.nextReadIndex, 1, |s.queues|)
    ensures s.empties < |s.queues| ==>
      var s' := Visit(s, maps);
      Queued(s'.queues) < Queued(s.queues) || (s'.queues == s.queues && s'.empties == s.empties + 1)
  {
    var q := s.queues[s.nextReadIndex];
    SlotIsRemainder(s.nextReadIndex, 1, |s.queues|);
    if q.Contents() != [] {
      DequeueTakesOldest(q);
      QueuedAfterUpdate(s.queues, s.nextReadIndex, q.Dequeue());
    }
  }

  /** The scan goes on while there is room for events and not every queue was found empty in a
    * row. It ends: each visit takes an event off or makes the row of empty queues longer.
    */
  ghost function ScanQueues(s: Scan, maps: HandleMaps, maxReads: int): Scan
    requires s.Valid()
    decreases Queued(s.queues), |s.queues| - s.empties
  {
    if s.empties < |s.queues| && |s.data| < maxReads then
      VisitKeepsValid(s, maps);
      ScanQueues(Visit(s, maps), maps, maxReads)
    else s
  }

  lemma ScanGoesOn(s: Scan, maps: HandleMaps, maxReads: int)
    requires s.Valid()
    ensures Visit(s, maps).Valid()
    ensures s.empties < |s.queues| && |s.data| < maxReads ==>
      ScanQueues(s, maps, maxReads) == ScanQueues(Visit(s, maps), maps, maxReads)
    ensures !(s.empties < |s.queues| && |s.data| < maxReads) ==> ScanQueues(s, maps, maxReads) == s
  {
    VisitKeepsValid(s, maps);
    hide Visit;
  }

  // ---- What a scan keeps ----

  /** The last `empties` queues that were visited are empty, going back round the ring. */
  ghost predicate EmptyBehind(s: Scan)
    requires s.Valid()
  {
    forall j | 1 <= j <= s.empties :: s.queues[Behind(s.nextReadIndex, j, |s.queues|)].size == 0
  }

  ghost function Behind(next: nat, j: nat, n: nat): nat
    requires next < n && j <= n
  {
    if j <= next then next - j else next + n - j
  }

  lemma VisitKeepsEmptyBehind(s: Scan, maps: HandleMaps)
    requires s.Valid() && EmptyBehind(s) && s.empties < |s.queues|
    ensures Visit(s, maps).Valid() && EmptyBehind(Visit(s, maps))
  {
    VisitKeepsValid(s, maps);
    var s', n := Visit(s, maps), |s.queues|;
    forall j | 1 <= j <= s'.empties
      ensures s'.queues[Behind(s'.nextReadIndex, j, n)].size == 0
    {
      assert j > 1 ==> Behind(s'.nextReadIndex, j, n) == Behind(s.nextReadIndex, j - 1, n);
    }
  }

  /** When it stops with room left, every queue is empty. */
  lemma {:induction false} ScanStopsOnlyWhenDone(s: Scan, maps: HandleMaps, maxReads: int)
    requires s.Valid() && EmptyBehind(s)
    ensures var s' := ScanQueues(s, maps, maxReads);
      && s'.Valid() && |s'.queues| == |s.queues|
      && (|s'.data| >= maxReads || forall i | 0 <= i < |s'.queues| :: s'.queues[i].Contents() == [])
    decreases Queued(s.queues), |s.queues| - s.empties
  {
    if s.empties < |s.queues| && |s.data| < maxReads {
      VisitKeepsValid(s, maps);
      VisitKeepsEmptyBehind(s, maps);
      ScanStopsOnlyWhenDone(Visit(s, maps), maps, maxReads);
    } else if s.empties == |s.queues| {
      var n := |s.queues|;
      forall i | 0 <= i < n
        ensures s.queues[i].Contents() == []
      {
        var j := if i < s.nextReadIndex then s.nextReadIndex - i else s.nextReadIndex + n - i;
        assert i == Behind(s.nextReadIndex, j, n);
      }
    }
  }

  /** The events that came from one module, as they were in its queue. */
  ghost function RawFrom(taken: seq<Taken>, i: nat): seq<SensorEvent> {
    if taken == [] then []
    else
      var t := taken[|taken| - 1];
      RawFrom(taken[..|taken| - 1], i) + if t.moduleIndex == i then [t.raw] else []
  }

  /** What the caller gets of the events taken: all but the bad ones, remapped. */
  ghost function Delivered(taken: seq<Taken>): seq<SensorEvent> {
    if taken == [] then []
    else
      var out := taken[|taken| - 1].Out();
      Delivered(taken[..|taken| - 1]) + if out.sensor == -1 then [] else [out]
  }

  /** Whatever a module's writer marked was either taken off since, or is still queued, in order. */
  ghost predicate Accounted(marked: seq<seq<SensorEvent>>, queues: seq<Queue>, taken: seq<Taken>) {
    && |marked| == |queues|
    && (forall i | 0 <= i < |queues| :: queues[i].Valid())
    && (forall i | 0 <= i < |queues| :: marked[i] == RawFrom(taken, i) + queues[i].Contents())
    && (forall t | t in taken :: t.moduleIndex < |queues|)
  }

  /** Queues are visited in turn. */
  ghost predicate InTurn(visits: seq<nat>, next: nat, n: nat) {
    && next < n
    && (forall k | 0 <= k < |visits| ::
          visits[k] < n && Slot(visits[k], 1, n) == if k + 1 < |visits| then visits[k + 1] else next)
  }

  lemma TakeOne(taken: seq<Taken>, t: Taken)
    ensures Delivered(taken + [t]) == Delivered(taken) + if t.Out().sensor == -1 then [] else [t.Out()]
    ensures forall i :: RawFrom(taken + [t], i) == RawFrom(taken, i) + if t.moduleIndex == i then [t.raw] else []
  {
    assert (taken + [t])[..|taken|] == taken;
  }

  lemma VisitKeepsAccounts(s: Scan, maps: HandleMaps, marked: seq<seq<SensorEvent>>, returned: seq<SensorEvent>)
    requires s.Valid() && Accounted(marked, s.queues, s.taken) && returned + s.data == Delivered(s.taken)
    ensures var s' := Visit(s, maps);
      Accounted(marked, s'.queues, s'.taken) && returned + s'.data == Delivered(s'.taken)
  {
    hide RawFrom, Delivered;
    var i := s.nextReadIndex;
    var q := s.queues[i];
    if q.Contents() != [] {
      hide Queue.Contents;
      DequeueTakesOldest(q);
      var t := Taken(i, q.Contents()[0], maps);
      TakeOne(s.taken, t);
      var s' := Visit(s, maps);
      forall k | 0 <= k < |s.queues|
        ensures s'.queues[k].Valid() && marked[k] == RawFrom(s'.taken, k) + s'.queues[k].Contents()
      {
        if k == i {
          assert q.Contents() == [t.raw] + q.Dequeue().Contents();
        }
      }
    }
  }

  lemma VisitKeepsTurns(s: Scan, maps: HandleMaps)
    requires s.Valid() && InTurn(s.visits, s.nextReadIndex, |s.queues|)
    ensures InTurn(Visit(s, maps).visits, Visit(s, maps).nextReadIndex, |s.queues|)
  {
    VisitKeepsValid(s, maps);
    TurnsGoOn(s.visits, s.nextReadIndex, |s.queues|);
  }

  lemma TurnsGoOn(visits: seq<nat>, next: nat, n: nat)
    requires InTurn(visits, next, n)
    ensures Slot(next, 1, n) >= 0 && InTurn(visits + [next], Slot(next, 1, n), n)
  {
    var visits' := visits + [next];
    forall k | 0 <= k < |visits'|
      ensures visits'[k] < n && Slot(visits'[k], 1, n) == if k + 1 < |visits'| then visits'[k + 1] else Slot(next, 1, n)
    {
      if k < |visits| {
        assert Slot(visits[k], 1, n) == if k + 1 < |visits| then visits[k + 1] else next;
        assert visits'[k + 1] == if k + 1 < |visits| then visits[k + 1] else next;
      }
    }
  }

  /** What a scan does to a queue is to take events off its front, and that leaves a region
    * the writer may be filling as it is.
    */
  ghost predicate OnlyDequeued(before: Queue, after: Queue) {
    && after.data == before.data && after.size <= before.size
    && Slot(after.start, after.size, |after.data|) == Slot(before.start, before.size, |before.data|)
    && (before.spaceSignalled || (before.Full() && !after.Full()) ==> after.spaceSignalled)
    && (forall first: nat, length: nat | before.IsWritable(first, length) :: after.IsWritable(first, length))
  }

  lemma DequeueIsDequeued(q: Queue)
    requires q.Valid()
    ensures OnlyDequeued(q, q.Dequeue())
  {
    if q.size > 0 {
      SlotIsRemainder(q.start, 1, |q.data|);
    }
    forall first: nat, length: nat | q.IsWritable(first, length)
      ensures q.Dequeue().IsWritable(first, length)
    {
      DequeueKeepsWritable(q, first, length);
    }
  }

  ghost predicate AllOnlyDequeued(before: seq<Queue>, after: seq<Queue>) {
    |before| == |after| && forall i | 0 <= i < |before| :: OnlyDequeued(before[i], after[i])
  }

  lemma VisitOnlyDequeues(s: Scan, maps: HandleMaps)
    requires s.Valid()
    ensures AllOnlyDequeued(s.queues, Visit(s, maps).queues)
  {
    DequeueIsDequeued(s.queues[s.nextReadIndex]);
  }

  ghost predicate TakenWith(taken: seq<Taken>, maps: HandleMaps) {
    forall t | t in taken :: t.maps.Valid() && maps.Extends(t.maps)
  }

  /** All of that, for a whole scan. */
  lemma {:induction false} ScanKeeps(s: Scan, maps: HandleMaps, maxReads: int,
                                     marked: seq<seq<SensorEvent>>, returned: seq<SensorEvent>)
    requires s.Valid() && Accounted(marked, s.queues, s.taken) && returned + s.data == Delivered(s.taken)
    requires InTurn(s.visits, s.nextReadIndex, |s.queues|)
    requires maps.Valid() && TakenWith(s.taken, maps)
    ensures var s' := ScanQueues(s, maps, maxReads);
      && s'.Valid() && Accounted(marked, s'.queues, s'.taken) && returned + s'.data == Delivered(s'.taken)
      && InTurn(s'.visits, s'.nextReadIndex, |s'.queues|)
      && TakenWith(s'.taken, maps)
      && AllOnlyDequeued(s.queues, s'.queues)
      && (|s.data| <= maxReads ==> |s'.data| <= maxReads)
    decreases Queued(s.queues), |s.queues| - s.empties
  {
    hide RawFrom, Delivered, Accounted, InTurn;
    if s.empties == |s.queues| || |s.data| >= maxReads {
    } else {
      VisitKeepsValid(s, maps);
      VisitKeepsAccounts(s, maps, marked, returned);
      VisitKeepsTurns(s, maps);
      VisitOnlyDequeues(s, maps);
      var s1 := Visit(s, maps);
      assert TakenWith(s1.taken, maps) && |s1.data| <= maxReads;
      ScanKeeps(s1, maps, maxReads, marked, returned);
      DequeuedTwice(s.queues, s1.queues, ScanQueues(s1, maps, maxReads).queues);
    }
  }

  lemma DequeuedTwice(a: seq<Queue>, b: seq<Queue>, c: seq<Queue>)
    requires AllOnlyDequeued(a, b) && AllOnlyDequeued(b, c)
    ensures AllOnlyDequeued(a, c)
  {
  }
}
