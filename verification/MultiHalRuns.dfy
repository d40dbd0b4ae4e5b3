/** What holds in every run of the multi-HAL event path. */
module MultiHalRuns {
  import opened SensorEventQueue
  import opened SensorHandles
  import opened MultiHal
  import opened MultiHalProtocol

  ghost predicate IsRun(states: seq<State>, events: seq<Event>) {
    && |states| == |events| + 1
    && Initial(states[0])
    && forall k | 0 <= k < |events| :: CanDo(states[k], events[k]) && states[k + 1] == Next(states[k], events[k])
  }

  lemma {:induction false} RunKeepsInv(states: seq<State>, events: seq<Event>, n: nat)
    requires IsRun(states, events) && n < |states|
    ensures Inv(states[n])
  {
    hide Inv;
    if n == 0 {
      InitialIsInv(states[0]);
    } else {
      RunKeepsInv(states, events, n - 1);
      StepKeepsInv(states[n - 1], events[n - 1]);
    }
  }

  /** While a writer's device fills its region outside the mutex, however many events the reader
    * dequeues, the region lies within the array, begins where the next event goes, and shares
    * no slot with the readable events.
    */
  lemma RegionsStayWritable(states: seq<State>, events: seq<Event>, n: nat, i: nat, k: nat, slot: nat)
    requires IsRun(states, events) && n < |states|
    requires i < |states[n].writers| && states[n].writers[i].Filling?
    ensures i < |states[n].scan.queues|
    ensures var q := states[n].scan.queues[i];
      var Filling(first, length) := states[n].writers[i];
      && |q.data| == SENSOR_EVENT_QUEUE_CAPACITY
      && 0 < length && first + length <= |q.data| && q.size + length <= |q.data|
      && first == (q.start + q.size) % |q.data|
      && (k < q.size && first <= slot < first + length ==> slot != (q.start + k) % |q.data|)
  {
    RunKeepsInv(states, events, n);
    hide Accounted, InTurn, TakenWith;
    var q := states[n].scan.queues[i];
    assert WriterOk(states[n].writers[i], q);
    var Filling(first, length) := states[n].writers[i];
    SlotIsRemainder(q.start, q.size, |q.data|);
    if k < q.size && first <= slot < first + length {
      WritableIsNotReadable(q, first, length, slot, k);
    }
  }

  /** What a writer marked was taken off its queue in the same order, up to what is still
    * queued, which is never more than the queue holds. Callers get all of what was taken, in
    * order, except bad events. The handle of an event they get leads back to its sensor.
    */
  lemma EventsArriveInOrder(states: seq<State>, events: seq<Event>, n: nat, i: nat)
    requires IsRun(states, events) && n < |states| && i < |states[n].scan.queues|
    ensures var s := states[n];
      var q := s.scan.queues[i];
      && |s.marked| == |s.scan.queues| && q.Valid()
      && s.marked[i] == RawFrom(s.scan.taken, i) + q.Contents()
      && |q.Contents()| <= SENSOR_EVENT_QUEUE_CAPACITY
      && s.returned == Delivered(s.scan.taken)
      && forall t | t in s.scan.taken ::
           var known := FullHandle(t.moduleIndex, Subject(t.raw)) in t.maps.fullToGlobal;
           && (t.Out().sensor == -1 <==> if t.raw.Normal? then !known else t.raw.sensor == -1)
           && (known ==>
                 && s.maps.ModuleIndex(Subject(t.Out())) == t.moduleIndex
                 && s.maps.LocalHandle(Subject(t.Out())) == Subject(t.raw))
  {
    RunKeepsInv(states, events, n);
    hide InTurn, PollerOk;
    var s := states[n];
    assert WriterOk(s.writers[i], s.scan.queues[i]);
    forall t | t in s.scan.taken
      ensures var known := FullHandle(t.moduleIndex, Subject(t.raw)) in t.maps.fullToGlobal;
        && (t.Out().sensor == -1 <==> if t.raw.Normal? then !known else t.raw.sensor == -1)
        && (known ==>
              && s.maps.ModuleIndex(Subject(t.Out())) == t.moduleIndex
              && s.maps.LocalHandle(Subject(t.Out())) == Subject(t.raw))
    {
      RemapKeepsMeaning(t.maps, s.maps, t.raw, t.moduleIndex);
    }
  }

  // ---- The events of one module ----

  ghost function From(taken: seq<Taken>, i: nat): seq<Taken> {
    if taken == [] then []
    else
      var t := taken[|taken| - 1];
      From(taken[..|taken| - 1], i) + if t.moduleIndex == i then [t] else []
  }

  /** What callers get of the events `raw` of module `i`. */
  ghost function Remapped(maps: HandleMaps, i: nat, raw: seq<SensorEvent>): seq<SensorEvent> {
    if raw == [] then []
    else
      var out := maps.RemapHandle(raw[|raw| - 1], i);
      Remapped(maps, i, raw[..|raw| - 1]) + if out.sensor == -1 then [] else [out]
  }

  /** The event was handed on with the handle that its sensor has in `maps`. */
  ghost predicate HandledAsIn(t: Taken, maps: HandleMaps) {
    var f := FullHandle(t.moduleIndex, Subject(t.raw));
    t.maps.GlobalHandle(f) == maps.GlobalHandle(f)
  }

  lemma {:induction false} DeliveredIsRemapped(taken: seq<Taken>, maps: HandleMaps, i: nat)
    requires forall t | t in taken && t.moduleIndex == i :: HandledAsIn(t, maps)
    ensures Delivered(From(taken, i)) == Remapped(maps, i, RawFrom(taken, i))
  {
    if taken == [] {
    } else {
      var t, before := taken[|taken| - 1], taken[..|taken| - 1];
      DeliveredIsRemapped(before, maps, i);
      if t.moduleIndex == i {
        assert HandledAsIn(t, maps);
        TakeOne(From(before, i), t);
        assert RawFrom(taken, i) == RawFrom(before, i) + [t.raw];
        assert RawFrom(taken, i)[..|RawFrom(before, i)|] == RawFrom(before, i);
      } else {
        assert RawFrom(taken, i) == RawFrom(before, i);
        assert From(taken, i) == From(before, i);
      }
    }
  }

  /** With the module's sensors registered before their events are taken, and not again after,
    * what is delivered from the module is what its writer marked, remapped and without bad events,
    * up to what is still queued.
    */
  lemma DeliveredFromModule(states: seq<State>, events: seq<Event>, n: nat, i: nat)
    requires IsRun(states, events) && n < |states| && i < |states[n].scan.queues|
    requires forall t | t in states[n].scan.taken && t.moduleIndex == i :: HandledAsIn(t, states[n].maps)
    ensures var s := states[n];
      && |s.marked| == |s.scan.queues| && s.scan.queues[i].Valid()
      && |s.scan.queues[i].Contents()| <= |s.marked[i]|
      && var handedOn := s.marked[i][..|s.marked[i]| - |s.scan.queues[i].Contents()|];
         Delivered(From(s.scan.taken, i)) == Remapped(s.maps, i, handedOn)
  {
    EventsArriveInOrder(states, events, n, i);
    var s := states[n];
    DeliveredIsRemapped(s.scan.taken, s.maps, i);
    assert s.marked[i][..|s.marked[i]| - |s.scan.queues[i].Contents()|] == RawFrom(s.scan.taken, i);
  }

  // ---- Fairness ----

  lemma {:induction false} VisitsAdvance(visits: seq<nat>, next: nat, n: nat, k: nat, j: nat)
    requires InTurn(visits, next, n) && k + j < |visits| && j < n
    ensures visits[k] < n && visits[k + j] == Slot(visits[k], j, n)
    decreases j
  {
    if j == 0 {
    } else {
      VisitsAdvance(visits, next, n, k, j - 1);
      assert Slot(visits[k + j - 1], 1, n) == visits[k + (j - 1) + 1];
    }
  }

  /** Any so many visits in a row as there are queues visit each queue exactly once, also when
    * the row spans several polls. So no queue with events in it is passed over.
    */
  lemma EachQueueHasItsTurn(states: seq<State>, events: seq<Event>, n: nat, k: nat, i: nat)
    requires IsRun(states, events) && n < |states|
    requires i < |states[n].scan.queues| && k + |states[n].scan.queues| <= |states[n].scan.visits|
    ensures var s := states[n].scan;
      && (exists j :: k <= j < k + |s.queues| && s.visits[j] == i)
      && (forall j, j' | k <= j < k + |s.queues| && k <= j' < k + |s.queues| ::
            s.visits[j] == i && s.visits[j'] == i ==> j == j')
  {
    RunKeepsInv(states, events, n);
    hide Accounted, TakenWith, WritersOk, PollerOk;
    var s := states[n].scan;
    var m := |s.queues|;
    forall j | k <= j < k + m
      ensures s.visits[j] == Slot(s.visits[k], j - k, m) && s.visits[k] < m
    {
      VisitsAdvance(s.visits, s.nextReadIndex, m, k, j - k);
    }
    assert s.visits[k] < m;
    var turn := if i >= s.visits[k] then i - s.visits[k] else i + m - s.visits[k];
    assert s.visits[k + turn] == i;
  }

  // ---- Waiting ----

  lemma ScanSleepsOnlyWhenEmpty(s: State, maxReads: nat)
    requires Inv(s) && maxReads > 0
    ensures var s' := ScanThenWait(s.(waitingForData := false), maxReads);
      && s.returned <= s'.returned
      && var read := |s'.returned| - |s.returned|;
      && var allEmpty := forall i | 0 <= i < |s'.scan.queues| :: s'.scan.queues[i].size == 0;
      && (s'.poller.Waiting? ==> s'.poller.maxReads == maxReads && read == 0 && allEmpty)
      && (s'.poller.Away? ==> 1 <= read <= maxReads && (read < maxReads ==> allEmpty))
  {
    hide WritersOk, InTurn, Accounted, TakenWith;
    var start := s.scan.(empties := 0, data := []);
    assert s.returned + [] == s.returned;
    ScanStopsOnlyWhenDone(start, s.maps, maxReads);
    ScanKeeps(start, s.maps, maxReads, s.marked, s.returned);
    var scan := ScanQueues(start, s.maps, maxReads);
    hide ScanQueues;
    assert forall i | 0 <= i < |scan.queues| && scan.queues[i].Contents() == [] :: scan.queues[i].size == 0;
  }

  /** A call of `poll`, at its start as after each wakeup, goes to sleep only with all queues empty
    * and nothing read; otherwise it returns at least one event and at most `maxReads`, and fewer
    * only when it has emptied all queues.
    */
  lemma PollSleepsOnlyWhenEmpty(states: seq<State>, events: seq<Event>, n: nat)
    requires IsRun(states, events) && n < |events| && (events[n].EvPoll? || events[n].EvWake?)
    ensures events[n].EvWake? ==> states[n].poller.Waiting?
    ensures var s, s' := states[n], states[n + 1];
      var maxReads := if events[n].EvPoll? then events[n].maxReads else s.poller.maxReads;
      && s.returned <= s'.returned
      && var read := |s'.returned| - |s.returned|;
      && var allEmpty := forall i | 0 <= i < |s'.scan.queues| :: s'.scan.queues[i].size == 0;
      && (s'.poller.Waiting? ==> s'.poller.maxReads == maxReads && read == 0 && allEmpty)
      && (s'.poller.Away? ==> 1 <= read <= maxReads && (read < maxReads ==> allEmpty))
  {
    RunKeepsInv(states, events, n);
    var s, e := states[n], events[n];
    assert e.EvPoll? ==> s == s.(waitingForData := false);
    ScanSleepsOnlyWhenEmpty(s, if e.EvPoll? then e.maxReads else s.poller.maxReads);
    hide Inv, ScanThenWait;
  }

  /** No wakeup is lost: a writer that waits unwoken has a full queue, a reader that waits
    * unwoken has announced it and has only empty queues. So they never wait for each other.
    */
  lemma NoWakeupIsLost(states: seq<State>, events: seq<Event>, n: nat, i: nat)
    requires IsRun(states, events) && n < |states| && i < |states[n].writers|
    ensures |states[n].writers| == |states[n].scan.queues|
    ensures var s := states[n];
      var writerWaits := s.writers[i].Blocked? && !s.scan.queues[i].spaceSignalled;
      var readerWaits := s.poller.Waiting? && !s.poller.signalled;
      && (writerWaits ==> s.scan.queues[i].Full())
      && (readerWaits ==> s.waitingForData && s.scan.queues[i].size == 0)
      && !(writerWaits && readerWaits)
  {
    RunKeepsInv(states, events, n);
    hide InTurn, Accounted, TakenWith;
    assert WriterOk(states[n].writers[i], states[n].scan.queues[i]);
  }

  /** Nobody gets stuck: each thread can do what is next for it, with whatever region the queue
    * gives, whatever the device stores in it, and whatever count it returns.
    */
  lemma EveryThreadCanGoOn(states: seq<State>, events: seq<Event>, n: nat, i: nat)
    requires IsRun(states, events) && n < |states| && i < |states[n].writers|
    ensures var s, w := states[n], states[n].writers[i];
      && (w.Locking? || w.Blocked? ==> exists first, length :: CanDo(s, EvLock(i, first, length)))
      && (w.Filling? ==>
            && (forall slot: nat, event :: CanDo(s, EvStore(i, slot, event)) <==> w.first <= slot < w.first + w.length)
            && (forall eventsPolled :: CanDo(s, EvReturn(i, eventsPolled)) <==> eventsPolled <= w.length))
      && (w.Marking? ==> CanDo(s, EvMark(i)))
      && (if s.poller.Away? then forall maxReads :: CanDo(s, EvPoll(maxReads)) <==> maxReads > 0 else CanDo(s, EvWake))
  {
    RunKeepsInv(states, events, n);
    hide Accounted, InTurn, TakenWith;
    var s, w := states[n], states[n].writers[i];
    assert WriterOk(w, s.scan.queues[i]);
    if w.Locking? || w.Blocked? {
      var first, length := RegionExists(s.scan.queues[i], SENSOR_EVENT_QUEUE_CAPACITY);
      assert CanDo(s, EvLock(i, first, length));
    }
  }
}
