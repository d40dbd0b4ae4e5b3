/** The multi-HAL event path as a state machine: a writer thread for each sub-module, the
  * devices they poll, and the one caller of `poll`. Each section under the queue mutex is one
  * step; the devices store events while nobody holds it.
  */
module MultiHalProtocol {
  import opened SensorEventQueue
  import opened SensorHandles
  import opened MultiHal

  const SENSOR_EVENT_QUEUE_CAPACITY := 36

  datatype Writer =
    | Locking                              // about to take the mutex and look for space
    | Blocked                              // waiting for space, or just woken
    | Filling(first: nat, length: nat)     // its device polls into this region
    | Marking(first: nat, count: nat)      // about to take the mutex and mark what was written

  datatype Poller =
    | Away
    | Waiting(maxReads: nat, signalled: bool)  // in a poll, waiting for data or just woken

  datatype State = State(
    scan: Scan,
    writers: seq<Writer>,
    poller: Poller,
    waitingForData: bool,
    maps: HandleMaps,
    ghost marked: seq<seq<SensorEvent>>,   // what each writer ever marked as written
    ghost returned: seq<SensorEvent>)      // what polls ever returned

  // ---- Steps ----

  /** An interrupted wait may end without a signal. */
  ghost predicate CanLock(s: State, i: nat, first: nat, length: nat) {
    && i < |s.writers| == |s.scan.queues|
    && (s.writers[i].Locking? || s.writers[i].Blocked?)
    && s.scan.queues[i].Valid()
    && s.scan.queues[i].IsRegionFor(SENSOR_EVENT_QUEUE_CAPACITY, first, length)
  }

  /** `waitForSpace`, and `getWritableRegion` once there is some. */
  ghost function Lock(s: State, i: nat, first: nat, length: nat): State
    requires CanLock(s, i, first, length)
  {
    var q := s.scan.queues[i];
    if q.Full() then
      s.(writers := s.writers[i := Blocked],
         scan := s.scan.(queues := s.scan.queues[i := q.(spaceSignalled := false)]))
    else
      s.(writers := s.writers[i := Filling(first, length)])
  }

  ghost predicate CanStore(s: State, i: nat, slot: nat) {
    && i < |s.writers| == |s.scan.queues|
    && s.writers[i].Filling?
    && s.writers[i].first <= slot < s.writers[i].first + s.writers[i].length
    && slot < |s.scan.queues[i].data|
  }

  ghost function Store(s: State, i: nat, slot: nat, event: SensorEvent): State
    requires CanStore(s, i, slot)
  {
    s.(scan := s.scan.(queues := s.scan.queues[i := s.scan.queues[i].Store(slot, event)]))
  }

  /** A device never claims more than its buffer holds; errors come as negative counts. */
  ghost predicate CanReturn(s: State, i: nat, eventsPolled: int) {
    i < |s.writers| && s.writers[i].Filling? && eventsPolled <= s.writers[i].length
  }

  ghost function Return(s: State, i: nat, eventsPolled: int): State
    requires CanReturn(s, i, eventsPolled)
  {
    s.(writers := s.writers[i := if eventsPolled <= 0 then Locking else Marking(s.writers[i].first, eventsPolled)])
  }

  ghost predicate CanMark(s: State, i: nat) {
    && i < |s.writers| == |s.scan.queues| == |s.marked|
    && s.writers[i].Marking?
    && s.writers[i].first + s.writers[i].count <= |s.scan.queues[i].data|
  }

  ghost function Mark(s: State, i: nat): State
    requires CanMark(s, i)
  {
    var Marking(first, count) := s.writers[i];
    var q := s.scan.queues[i];
    s.(scan := s.scan.(queues := s.scan.queues[i := q.MarkAsWritten(count)]),
       marked := s.marked[i := s.marked[i] + q.data[first..first + count]],
       writers := s.writers[i := Locking],
       poller := if s.waitingForData && s.poller.Waiting? then s.poller.(signalled := true) else s.poller)
  }

  /** A scan from the current queue on, and what `poll` does after it. */
  ghost function ScanThenWait(s: State, maxReads: nat): State
    requires s.scan.Valid()
  {
    var scan := ScanQueues(s.scan.(empties := 0, data := []), s.maps, maxReads);
    if scan.data == [] then s.(scan := scan, poller := Waiting(maxReads, false), waitingForData := true)
    else s.(scan := scan.(data := []), poller := Away, waitingForData := false, returned := s.returned + scan.data)
  }

  ghost predicate CanPoll(s: State, maxReads: int) {
    s.poller.Away? && maxReads > 0 && s.scan.Valid()
  }

  ghost function Poll(s: State, maxReads: int): State
    requires CanPoll(s, maxReads)
  {
    ScanThenWait(s, maxReads)
  }

  ghost predicate CanWake(s: State) {
    s.poller.Waiting? && s.scan.Valid()
  }

  /** The wait ends, on a signal or without one. */
  ghost function Wake(s: State): State
    requires CanWake(s)
  {
    ScanThenWait(s.(waitingForData := false), s.poller.maxReads)
  }

  ghost function Register(s: State, f: FullHandle): State {
    s.(maps := s.maps.Assign(f))
  }

  datatype Event =
    | EvLock(i: nat, first: nat, length: nat)
    | EvStore(i: nat, slot: nat, event: SensorEvent)
    | EvReturn(i: nat, eventsPolled: int)
    | EvMark(i: nat)
    | EvPoll(maxReads: int)
    | EvWake
    | EvRegister(f: FullHandle)

  ghost predicate CanDo(s: State, e: Event) {
    match e
    case EvLock(i, first, length) => CanLock(s, i, first, length)
    case EvStore(i, slot, _) => CanStore(s, i, slot)
    case EvReturn(i, eventsPolled) => CanReturn(s, i, eventsPolled)
    case EvMark(i) => CanMark(s, i)
    case EvPoll(maxReads) => CanPoll(s, maxReads)
    case EvWake => CanWake(s)
    case EvRegister(_) => true
  }

  ghost function Next(s: State, e: Event): State
    requires CanDo(s, e)
  {
    match e
    case EvLock(i, first, length) => Lock(s, i, first, length)
    case EvStore(i, slot, event) => Store(s, i, slot, event)
    case EvReturn(i, eventsPolled) => Return(s, i, eventsPolled)
    case EvMark(i) => Mark(s, i)
    case EvPoll(maxReads) => Poll(s, maxReads)
    case EvWake => Wake(s)
    case EvRegister(f) => Register(s, f)
  }

  /** At least one sub-module, and everything empty. */
  ghost predicate Initial(s: State) {
    && |s.scan.queues| == |s.writers| == |s.marked| > 0
    && (forall i | 0 <= i < |s.writers| ::
          && s.writers[i].Locking? && s.marked[i] == []
          && |s.scan.queues[i].data| == SENSOR_EVENT_QUEUE_CAPACITY
          && s.scan.queues[i].start == 0 && s.scan.queues[i].size == 0)
    && s.scan.nextReadIndex == 0 && s.scan.empties == 0 && s.scan.data == []
    && s.scan.taken == [] && s.scan.visits == []
    && s.poller.Away? && !s.waitingForData && s.returned == [] && s.maps == NO_HANDLES
  }

  // ---- The invariant ----

  /** A writer's region is writable however often its queue was dequeued meanwhile; and a writer
    * that nobody woke waits for a queue that is full.
    */
  ghost predicate WriterOk(w: Writer, q: Queue) {
    && |q.data| == SENSOR_EVENT_QUEUE_CAPACITY
    && (w.Filling? ==> w.length > 0 && q.IsWritable(w.first, w.length))
    && (w.Marking? ==> w.count > 0 && q.IsWritable(w.first, w.count))
    && (w.Blocked? && !q.spaceSignalled ==> q.Full())
  }

  ghost predicate WritersOk(writers: seq<Writer>, queues: seq<Queue>) {
    |writers| == |queues| && forall i | 0 <= i < |queues| :: WriterOk(writers[i], queues[i])
  }

  /** A reader that nobody woke is one the writers know about, and waits for empty queues. */
  ghost predicate PollerOk(poller: Poller, waitingForData: bool, queues: seq<Queue>) {
    && (waitingForData <==> poller.Waiting?)
    && (poller.Waiting? ==> poller.maxReads > 0)
    && (poller.Waiting? && !poller.signalled ==> forall i | 0 <= i < |queues| :: queues[i].size == 0)
  }

  ghost predicate Inv(s: State) {
    && s.scan.Valid() && s.scan.data == []
    && WritersOk(s.writers, s.scan.queues)
    && PollerOk(s.poller, s.waitingForData, s.scan.queues)
    && Accounted(s.marked, s.scan.queues, s.scan.taken)
    && s.returned == Delivered(s.scan.taken)
    && InTurn(s.scan.visits, s.scan.nextReadIndex, |s.scan.queues|)
    && s.maps.Valid() && TakenWith(s.scan.taken, s.maps)
  }

  lemma InitialIsInv(s: State)
    requires Initial(s)
    ensures Inv(s)
  {
  }

  /** Changes of one queue by its writer's side. */
  lemma WriterStepKeepsQueues(scan: Scan, marked: seq<seq<SensorEvent>>, i: nat, q: Queue, more: seq<SensorEvent>)
    requires scan.Valid() && Accounted(marked, scan.queues, scan.taken) && i < |scan.queues|
    requires q.Valid() && q.Contents() == scan.queues[i].Contents() + more
    ensures scan.(queues := scan.queues[i := q]).Valid()
    ensures Accounted(marked[i := marked[i] + more], scan.queues[i := q], scan.taken)
    ensures more == [] ==> marked[i := marked[i] + more] == marked
  {
    assert marked[i] + [] == marked[i];
  }

  lemma LockKeepsInv(s: State, i: nat, first: nat, length: nat)
    requires Inv(s) && CanLock(s, i, first, length)
    ensures Inv(Lock(s, i, first, length))
  {
    hide Accounted, InTurn, TakenWith;
    var q := s.scan.queues[i];
    if q.Full() {
      assert q.(spaceSignalled := false).Contents() == q.Contents() + [];
      WriterStepKeepsQueues(s.scan, s.marked, i, q.(spaceSignalled := false), []);
    }
  }

  lemma StoreKeepsInv(s: State, i: nat, slot: nat, event: SensorEvent)
    requires Inv(s) && CanStore(s, i, slot)
    ensures Inv(Store(s, i, slot, event))
  {
    hide Accounted, InTurn, TakenWith;
    var q, w := s.scan.queues[i], s.writers[i];
    StoreKeepsContents(q, w.first, w.length, slot, event);
    assert q.Store(slot, event).Contents() == q.Contents() + [];
    WriterStepKeepsQueues(s.scan, s.marked, i, q.Store(slot, event), []);
  }

  lemma MarkKeepsInv(s: State, i: nat)
    requires Inv(s) && CanMark(s, i)
    ensures Inv(Mark(s, i))
  {
    hide Accounted, InTurn, TakenWith;
    var Marking(first, count) := s.writers[i];
    var q := s.scan.queues[i];
    MarkAppends(q, first, count);
    WriterStepKeepsQueues(s.scan, s.marked, i, q.MarkAsWritten(count), q.data[first..first + count]);
  }

  lemma ScanKeepsWriters(writers: seq<Writer>, before: seq<Queue>, after: seq<Queue>)
    requires WritersOk(writers, before) && AllOnlyDequeued(before, after)
    ensures WritersOk(writers, after)
  {
  }

  lemma ScanThenWaitKeepsInv(s: State, maxReads: nat)
    requires s.scan.Valid() && s.scan.data == []
    requires WritersOk(s.writers, s.scan.queues)
    requires Accounted(s.marked, s.scan.queues, s.scan.taken) && s.returned == Delivered(s.scan.taken)
    requires InTurn(s.scan.visits, s.scan.nextReadIndex, |s.scan.queues|)
    requires s.maps.Valid() && TakenWith(s.scan.taken, s.maps)
    requires maxReads > 0
    ensures Inv(ScanThenWait(s, maxReads))
  {
    hide WritersOk, Accounted, InTurn, TakenWith, AllOnlyDequeued, ScanQueues;
    var start := s.scan.(empties := 0, data := []);
    assert s.returned + [] == s.returned;
    ScanKeeps(start, s.maps, maxReads, s.marked, s.returned);
    ScanStopsOnlyWhenDone(start, s.maps, maxReads);
    var scan := ScanQueues(start, s.maps, maxReads);
    ScanKeepsWriters(s.writers, s.scan.queues, scan.queues);
    assert scan.data == [] ==> s.returned == Delivered(scan.taken);
    assert forall i | 0 <= i < |scan.queues| && scan.queues[i].Contents() == [] :: scan.queues[i].size == 0;
  }

  lemma RegisterKeepsInv(s: State, f: FullHandle)
    requires Inv(s)
    ensures Inv(Register(s, f))
  {
    AssignKeepsMaps(s.maps, f);
    forall t | t in s.scan.taken
      ensures s.maps.Assign(f).Extends(t.maps)
    {
      ExtendsIsTransitive(t.maps, s.maps, s.maps.Assign(f));
    }
    hide Accounted, InTurn, WritersOk, PollerOk;
  }

  lemma StepKeepsInv(s: State, e: Event)
    requires Inv(s) && CanDo(s, e)
    ensures Inv(Next(s, e))
  {
    match e {
      case EvLock(i, first, length) => LockKeepsInv(s, i, first, length);
      case EvStore(i, slot, event) => StoreKeepsInv(s, i, slot, event);
      case EvReturn(i, eventsPolled) =>
        hide Accounted, InTurn, TakenWith;
      case EvMark(i) => MarkKeepsInv(s, i);
      case EvPoll(maxReads) =>
        hide Accounted, InTurn, TakenWith;
        ScanThenWaitKeepsInv(s, maxReads);
      case EvWake =>
        hide Accounted, InTurn, TakenWith;
        ScanThenWaitKeepsInv(s.(waitingForData := false), s.poller.maxReads);
      case EvRegister(f) => RegisterKeepsInv(s, f);
    }
  }
}
