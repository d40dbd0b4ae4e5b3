/** What the writers mark, told by the events of a run alone: as many events as their devices
  * returned, and those that the devices last stored.
  */
module MultiHalWrites {
  import opened SensorEventQueue
  import opened SensorHandles
  import opened MultiHal
  import opened MultiHalProtocol
  import opened MultiHalRuns

  // ---- What the events tell ----

  /** How many events the polls of writer `i` have returned. */
  ghost function Polled(events: seq<Event>, n: nat, i: nat): nat
    requires n <= |events|
  {
    if n == 0 then 0
    else
      var e := events[n - 1];
      Polled(events, n - 1, i) + if e.EvReturn? && e.i == i && e.eventsPolled > 0 then e.eventsPolled else 0
  }

  /** Those of the last poll, until they are marked. */
  ghost function Pending(events: seq<Event>, n: nat, i: nat): nat
    requires n <= |events|
  {
    if n == 0 then 0
    else
      var e := events[n - 1];
      if e.EvReturn? && e.i == i then if e.eventsPolled > 0 then e.eventsPolled else 0
      else if e.EvMark? && e.i == i then 0
      else Pending(events, n - 1, i)
  }

  /** Where the region begins that the writer last got. */
  ghost function Region(events: seq<Event>, n: nat, i: nat): nat
    requires n <= |events|
  {
    if n == 0 then 0
    else
      var e := events[n - 1];
      if e.EvLock? && e.i == i then e.first else Region(events, n - 1, i)
  }

  /** What the device last stored in a slot. */
  ghost function LastStored(first: seq<SensorEvent>, events: seq<Event>, n: nat, i: nat, slot: nat): SensorEvent
    requires n <= |events| && slot < |first|
  {
    if n == 0 then first[slot]
    else
      var e := events[n - 1];
      if e.EvStore? && e.i == i && e.slot == slot then e.event else LastStored(first, events, n - 1, i, slot)
  }

  // ---- Events and states ----

  ghost predicate StoredAsTold(first: seq<SensorEvent>, q: Queue, events: seq<Event>, n: nat, i: nat)
    requires n <= |events|
  {
    && |q.data| == |first|
    && forall slot: nat | slot < |first| :: q.data[slot] == LastStored(first, events, n, i, slot)
  }

  ghost predicate WriterAsTold(w: Writer, marked: nat, events: seq<Event>, n: nat, i: nat)
    requires n <= |events|
  {
    && Polled(events, n, i) == marked + Pending(events, n, i)
    && Pending(events, n, i) == (if w.Marking? then w.count else 0)
    && (w.Filling? || w.Marking? ==> w.first == Region(events, n, i))
  }

  /** The next event goes where the number of marked events says. */
  ghost predicate EndIsCounted(q: Queue, marked: nat) {
    |q.data| == SENSOR_EVENT_QUEUE_CAPACITY && Slot(q.start, q.size, |q.data|) == marked % SENSOR_EVENT_QUEUE_CAPACITY
  }

  ghost predicate AsTold(s: State, s0: State, events: seq<Event>, n: nat, i: nat)
    requires n <= |events|
  {
    && i < |s.writers| == |s.scan.queues| == |s.marked| == |s0.scan.queues|
    && StoredAsTold(s0.scan.queues[i].data, s.scan.queues[i], events, n, i)
    && WriterAsTold(s.writers[i], |s.marked[i]|, events, n, i)
    && EndIsCounted(s.scan.queues[i], |s.marked[i]|)
  }

  lemma LockTells(s: State, s0: State, events: seq<Event>, n: nat, i: nat)
    requires n < |events| && Inv(s) && AsTold(s, s0, events, n, i) && events[n].EvLock? && CanDo(s, events[n])
    ensures AsTold(Next(s, events[n]), s0, events, n + 1, i)
  {
    hide Inv;
  }

  lemma StoreTells(s: State, s0: State, events: seq<Event>, n: nat, i: nat)
    requires n < |events| && Inv(s) && AsTold(s, s0, events, n, i) && events[n].EvStore? && CanDo(s, events[n])
    ensures AsTold(Next(s, events[n]), s0, events, n + 1, i)
  {
    hide Inv;
  }

  lemma ReturnTells(s: State, s0: State, events: seq<Event>, n: nat, i: nat)
    requires n < |events| && Inv(s) && AsTold(s, s0, events, n, i) && events[n].EvReturn? && CanDo(s, events[n])
    ensures AsTold(Next(s, events[n]), s0, events, n + 1, i)
  {
    hide Inv;
  }

  lemma MarkTells(s: State, s0: State, events: seq<Event>, n: nat, i: nat)
    requires n < |events| && Inv(s) && AsTold(s, s0, events, n, i) && events[n].EvMark? && CanDo(s, events[n])
    ensures AsTold(Next(s, events[n]), s0, events, n + 1, i)
  {
    assert WriterOk(s.writers[i], s.scan.queues[i]);
    assert s.scan.queues[i].Valid();
    hide Inv, WriterOk, Queue.Valid, EndIsCounted;
    MarkCounts(s, events[n].i, i);
  }

  /** The end moves on by as many slots as are marked. */
  lemma MarkCounts(s: State, j: nat, i: nat)
    requires CanMark(s, j) && i < |s.writers| && WriterOk(s.writers[i], s.scan.queues[i]) && s.scan.queues[i].Valid()
    requires EndIsCounted(s.scan.queues[i], |s.marked[i]|)
    ensures EndIsCounted(Mark(s, j).scan.queues[i], |Mark(s, j).marked[i]|)
  {
  }

  lemma ScanOnlyDequeues(s: State, maxReads: nat)
    requires s.scan.Valid() && Accounted(s.marked, s.scan.queues, s.scan.taken) && s.returned == Delivered(s.scan.taken)
    requires InTurn(s.scan.visits, s.scan.nextReadIndex, |s.scan.queues|)
    requires s.maps.Valid() && TakenWith(s.scan.taken, s.maps)
    ensures var s' := ScanThenWait(s, maxReads);
      s'.writers == s.writers && s'.marked == s.marked && AllOnlyDequeued(s.scan.queues, s'.scan.queues)
  {
    hide Accounted, InTurn, TakenWith, ScanQueues, AllOnlyDequeued;
    assert s.returned + [] == s.returned;
    ScanKeeps(s.scan.(empties := 0, data := []), s.maps, maxReads, s.marked, s.returned);
  }

  lemma ScanTells(s: State, s0: State, events: seq<Event>, n: nat, i: nat)
    requires n < |events| && Inv(s) && AsTold(s, s0, events, n, i)
    requires (events[n].EvPoll? || events[n].EvWake?) && CanDo(s, events[n])
    ensures AsTold(Next(s, events[n]), s0, events, n + 1, i)
  {
    if events[n].EvPoll? {
      ScanOnlyDequeues(s, events[n].maxReads);
    } else {
      ScanOnlyDequeues(s.(waitingForData := false), s.poller.maxReads);
    }
    hide Inv, ScanThenWait, Polled, Pending, Region, LastStored;
    SameTellings(events, n, i);
    var s' := Next(s, events[n]);
    assert OnlyDequeued(s.scan.queues[i], s'.scan.queues[i]);
  }

  lemma SameTellings(events: seq<Event>, n: nat, i: nat)
    requires n < |events| && (events[n].EvPoll? || events[n].EvWake? || events[n].EvRegister?)
    ensures Polled(events, n + 1, i) == Polled(events, n, i) && Pending(events, n + 1, i) == Pending(events, n, i)
    ensures Region(events, n + 1, i) == Region(events, n, i)
    ensures forall first: seq<SensorEvent>, slot: nat | slot < |first| ::
      LastStored(first, events, n + 1, i, slot) == LastStored(first, events, n, i, slot)
  {
  }

  lemma RegisterTells(s: State, s0: State, events: seq<Event>, n: nat, i: nat)
    requires n < |events| && AsTold(s, s0, events, n, i) && events[n].EvRegister?
    ensures AsTold(Next(s, events[n]), s0, events, n + 1, i)
  {
    SameTellings(events, n, i);
    hide Polled, Pending, Region, LastStored;
  }

  lemma StepTells(s: State, s0: State, events: seq<Event>, n: nat, i: nat)
    requires n < |events| && Inv(s) && AsTold(s, s0, events, n, i) && CanDo(s, events[n])
    ensures AsTold(Next(s, events[n]), s0, events, n + 1, i)
  {
    hide Inv, AsTold, CanDo, Next;
    match events[n]
    case EvLock(_, _, _) => LockTells(s, s0, events, n, i);
    case EvStore(_, _, _) => StoreTells(s, s0, events, n, i);
    case EvReturn(_, _) => ReturnTells(s, s0, events, n, i);
    case EvMark(_) => MarkTells(s, s0, events, n, i);
    case EvRegister(_) => RegisterTells(s, s0, events, n, i);
    case _ => ScanTells(s, s0, events, n, i);
  }

  lemma {:induction false} RunTells(states: seq<State>, events: seq<Event>, n: nat, i: nat)
    requires IsRun(states, events) && n < |states| && i < |states[0].writers|
    ensures AsTold(states[n], states[0], events, n, i)
  {
    hide CanDo, Next, Inv;
    if n == 0 {
    } else {
      hide AsTold;
      RunTells(states, events, n - 1, i);
      RunKeepsInv(states, events, n - 1);
      StepTells(states[n - 1], states[0], events, n - 1, i);
    }
  }

  // ---- The theorems ----

  /** A writer that finds space gives its device all of it that is contiguous: from where the next
    * event goes to the end of the array or of the free slots. One that finds none waits.
    */
  lemma RegionsAreWhole(states: seq<State>, events: seq<Event>, n: nat, i: nat)
    requires IsRun(states, events) && n < |events| && events[n].EvLock? && events[n].i == i
    ensures i < |states[n].scan.queues| && i < |states[n + 1].writers|
    ensures var q, w := states[n].scan.queues[i], states[n + 1].writers[i];
      if q.size < SENSOR_EVENT_QUEUE_CAPACITY then
        && w.Filling? && 0 < w.length && w.first == (q.start + q.size) % SENSOR_EVENT_QUEUE_CAPACITY
        && w.first + w.length <= SENSOR_EVENT_QUEUE_CAPACITY && q.size + w.length <= SENSOR_EVENT_QUEUE_CAPACITY
        && (w.first + w.length == SENSOR_EVENT_QUEUE_CAPACITY || q.size + w.length == SENSOR_EVENT_QUEUE_CAPACITY)
      else w.Blocked?
  {
    RunKeepsInv(states, events, n);
    hide Accounted, InTurn, TakenWith;
    var q := states[n].scan.queues[i];
    assert WriterOk(states[n].writers[i], q);
    SlotIsRemainder(q.start, q.size, |q.data|);
  }

  /** As many events were marked as the polls of the writer's device returned, but for those of
    * the last poll if they are still to be marked.
    */
  lemma PolledEventsAreMarked(states: seq<State>, events: seq<Event>, n: nat, i: nat)
    requires IsRun(states, events) && n < |states| && i < |states[0].writers|
    ensures i < |states[n].marked| && |states[n].marked[i]| + Pending(events, n, i) == Polled(events, n, i)
  {
    hide IsRun;
    RunTells(states, events, n, i);
  }

  /** A writer marks exactly the events of its last poll: those that its device last stored in the
    * first slots of the region, which begins behind everything marked before.
    */
  lemma MarkedAsLastStored(states: seq<State>, events: seq<Event>, n: nat, i: nat)
    requires IsRun(states, events) && n < |events| && i < |states[0].writers|
    ensures i < |states[0].scan.queues| && i < |states[n].marked| && i < |states[n + 1].marked|
    ensures var before, after := states[n].marked[i], states[n + 1].marked[i];
      var count, first := Pending(events, n, i), Region(events, n, i);
      if events[n] == EvMark(i) then
        && count > 0 && first == |before| % SENSOR_EVENT_QUEUE_CAPACITY
        && first + count <= SENSOR_EVENT_QUEUE_CAPACITY == |states[0].scan.queues[i].data|
        && |after| == |before| + count && after[..|before|] == before
        && forall slot | first <= slot < first + count ::
             after[|before| + slot - first] == LastStored(states[0].scan.queues[i].data, events, n, i, slot)
      else after == before
  {
    RunTells(states, events, n, i);
    RunTells(states, events, n + 1, i);
    RunKeepsInv(states, events, n);
    assert WriterOk(states[n].writers[i], states[n].scan.queues[i]);
    hide Accounted, InTurn, TakenWith, Inv, ScanQueues;
  }
}
