/** The timer service as a state machine. Client threads start and stop timers; one message
  * thread owns the heaps and works through a queue; one poll thread waits for the kernel. Each
  * section under a mutex, each message handled up to its next call out, and each kernel call
  * is one step, and steps of different threads interleave freely.
  */
module TimerProtocol {
  import opened LocTimer
  import opened Options
  import opened RankedTree
  import opened Timespec

  type Heap = Tree<LocTimerDelegate>

  // ---- States ----

  /** Queued: its Push message is waiting. Ticking: it is in its heap. Popped: expiry took it
    * off the heap. Leaving: its Remove message is being handled.
    */
  datatype Phase = Queued | Ticking | Popped | Leaving

  datatype Delegate = Delegate(client: LocTimer?, stopped: bool, phase: Phase)

  datatype Msg =
    | MsgPush(box: LocTimerContainer, timer: LocTimerDelegate)
    | MsgRemove(box: LocTimerContainer, timer: LocTimerDelegate)
    | MsgExpire(box: LocTimerContainer)

  /** Where the message thread is. `doomed` is the delegate to delete at the end. */
  datatype MsgThread =
    | Idle
    | AddingPoll(box: LocTimerContainer, doomed: Option<LocTimerDelegate>)
    | RemovingPoll(box: LocTimerContainer, doomed: Option<LocTimerDelegate>)
    | SettingTime(box: LocTimerContainer, time: Timespec, doomed: Option<LocTimerDelegate>)
    | Deleting(dead: LocTimerDelegate)
    | Expiring(box: LocTimerContainer, now: Timespec, ghost start: Heap, ghost popped: seq<LocTimerDelegate>,
               current: LocTimerDelegate)
    | Popping(box: LocTimerContainer, now: Timespec, ghost start: Heap, ghost popped: seq<LocTimerDelegate>)

  datatype PollStep = Disarm | Unpoll | Send

  /** Where the poll thread is; `todo` are the containers whose events it has yet to handle. */
  datatype PollThread = Waiting | Handling(todo: seq<LocTimerContainer>, at: PollStep)

  /** What came of a started timer. */
  datatype Outcome = Outcome(callbacks: nat, stops: nat)

  datatype State = State(
    clients: map<LocTimer, LocTimerDelegate?>,       // live clients and their `mTimer`
    timers: map<LocTimerDelegate, Delegate>,         // delegates not yet deleted
    locks: map<LocSharedLock, int>,                  // locks not yet deleted and their `mRef`
    heaps: map<LocTimerContainer, Heap>,
    armed: map<LocTimerContainer, Option<Timespec>>,
    polled: set<LocTimerContainer>,
    log: seq<Msg>,                                   // every message ever sent
    done: nat,                                       // how many of them were received
    msg: MsgThread,
    poll: PollThread,
    outcomes: map<LocTimerDelegate, Outcome>)        // every delegate ever created

  // ---- Steps ----

  function Top(t: Heap): Option<LocTimerDelegate> {
    if t.Empty? then None else Some(t.data)
  }

  datatype KernelCall = NoCall | DisarmTimer | ArmForTop

  /** `updateSoonestTime`: what the kernel must be told when the top was `prior`. */
  function UpdateSoonestTime(top: Option<LocTimerDelegate>, prior: Option<LocTimerDelegate>): KernelCall {
    if top == prior then NoCall
    else if top == None then DisarmTimer
    else if prior == None || Sooner(top.value, prior.value) then ArmForTop
    else NoCall
  }

  ghost predicate CanStart(s: State, client: LocTimer, timer: LocTimerDelegate) {
    && client in s.clients && s.clients[client] == null
    && timer !in s.outcomes && timer !in s.timers
    && timer.mLock == client.mLock && client.mLock in s.locks
    && timer.home in s.heaps
    && IsDeadline(timer.mFutureTime)
    && forall t | t in s.timers :: Near(timer.mFutureTime, t.mFutureTime)
  }

  /** `LocTimer::start` on a client that is not running. */
  ghost function Start(s: State, client: LocTimer, timer: LocTimerDelegate): State
    requires CanStart(s, client, timer)
  {
    s.(clients := s.clients[client := timer],
       timers := s.timers[timer := Delegate(client, false, Queued)],
       locks := s.locks[client.mLock := s.locks[client.mLock] + 1],
       log := s.log + [MsgPush(timer.home, timer)],
       outcomes := s.outcomes[timer := Outcome(0, 0)])
  }

  ghost predicate CanStop(s: State, client: LocTimer) {
    && client in s.clients && s.clients[client] != null
    && s.clients[client] in s.timers && s.clients[client] in s.outcomes
  }

  /** `LocTimer::stop` on a running client: called by the client, or by the message thread
    * which then makes the timeout callback.
    */
  ghost function Stop(s: State, client: LocTimer, callBack: bool): State
    requires CanStop(s, client)
  {
    var timer := s.clients[client];
    var outcome := s.outcomes[timer];
    s.(clients := s.clients[client := null],
       timers := s.timers[timer := s.timers[timer].(client := null, stopped := true)],
       log := s.log + [MsgRemove(timer.home, timer)],
       outcomes := s.outcomes[timer :=
         if callBack then outcome.(callbacks := outcome.callbacks + 1)
         else outcome.(stops := outcome.stops + 1)])
  }

  ghost predicate CanCreate(s: State, client: LocTimer) {
    && client !in s.clients && client.mLock !in s.locks
    && (forall c | c in s.clients :: c.mLock != client.mLock)
  }

  ghost function Create(s: State, client: LocTimer): State
    requires CanCreate(s, client)
  {
    s.(clients := s.clients[client := null], locks := s.locks[client.mLock := 1])
  }

  /** The end of a user of `lock`; the last user takes the lock along. */
  ghost function Drop(locks: map<LocSharedLock, int>, lock: LocSharedLock): map<LocSharedLock, int>
    requires lock in locks
  {
    if locks[lock] == 1 then locks - {lock} else locks[lock := locks[lock] - 1]
  }

  ghost predicate CanDestroy(s: State, client: LocTimer) {
    client in s.clients && s.clients[client] == null && client.mLock in s.locks
  }

  /** The end of `~LocTimer`, after its call of `stop`. */
  ghost function Destroy(s: State, client: LocTimer): State
    requires CanDestroy(s, client)
  {
    s.(clients := s.clients - {client}, locks := Drop(s.locks, client.mLock))
  }

  ghost predicate CanReceive(s: State) {
    && s.msg.Idle? && s.done < |s.log|
    && var m := s.log[s.done];
       m.box in s.heaps && (!m.MsgExpire? ==> m.timer in s.timers)
  }

  ghost function AfterUpdate(call: KernelCall, box: LocTimerContainer, doomed: Option<LocTimerDelegate>): MsgThread {
    if call.ArmForTop? then AddingPoll(box, doomed)
    else if call.DisarmTimer? then RemovingPoll(box, doomed)
    else if doomed.Some? then Deleting(doomed.value) else Idle
  }

  /** The message thread takes the next message and handles it up to its first call out. */
  ghost function Receive(s: State, now: Timespec): State
    requires CanReceive(s)
  {
    var s1 := s.(done := s.done + 1);
    match s.log[s.done]
    case MsgPush(box, timer) => HandlePush(s1, box, timer)
    case MsgRemove(box, timer) => HandleRemove(s1, box, timer)
    case MsgExpire(box) => HandleExpire(s1, box, now)
  }

  ghost function HandlePush(s: State, box: LocTimerContainer, timer: LocTimerDelegate): State
    requires box in s.heaps && timer in s.timers
  {
    var heap := Push(Sooner, s.heaps[box], timer);
    s.(heaps := s.heaps[box := heap],
       timers := s.timers[timer := s.timers[timer].(phase := Ticking)],
       msg := AfterUpdate(UpdateSoonestTime(Top(heap), Top(s.heaps[box])), box, None))
  }

  ghost function HandleRemove(s: State, box: LocTimerContainer, timer: LocTimerDelegate): State
    requires box in s.heaps && timer in s.timers
  {
    var r := Remove(Sooner, s.heaps[box], timer);
    var removed := if r.found then Some(timer) else None;
    s.(heaps := s.heaps[box := r.rest],
       timers := s.timers[timer := s.timers[timer].(phase := Leaving)],
       msg := AfterUpdate(
         if Top(s.heaps[box]) == removed then UpdateSoonestTime(Top(r.rest), None) else NoCall,
         box, Some(timer)))
  }

  /** The first pop of an Expire message looks at no deadline. */
  ghost function HandleExpire(s: State, box: LocTimerContainer, now: Timespec): State
    requires box in s.heaps
  {
    if s.heaps[box].Empty? then s.(msg := AfterUpdate(UpdateSoonestTime(None, None), box, None))
    else PopTop(s, box, now, s.heaps[box], [])
  }

  ghost function PopTop(s: State, box: LocTimerContainer, now: Timespec, start: Heap,
                        popped: seq<LocTimerDelegate>): State
    requires box in s.heaps && s.heaps[box].Node?
  {
    var timer := s.heaps[box].data;
    s.(heaps := s.heaps[box := Pop(Sooner, s.heaps[box])],
       timers := if timer in s.timers then s.timers[timer := s.timers[timer].(phase := Popped)] else s.timers,
       msg := Expiring(box, now, start, popped + [timer], timer))
  }

  ghost predicate CanCallExpire(s: State) {
    && s.msg.Expiring? && s.msg.current in s.timers
    && var client := s.timers[s.msg.current].client;
       client != null ==> CanStop(s, client)
  }

  /** `LocTimerDelegate::expire`: stop the client if there still is one, then call it back. */
  ghost function CallExpire(s: State): State
    requires CanCallExpire(s)
  {
    var Expiring(box, now, start, popped, current) := s.msg;
    var client := s.timers[current].client;
    (if client == null then s else Stop(s, client, true)).(msg := Popping(box, now, start, popped))
  }

  ghost predicate CanPopNext(s: State) {
    s.msg.Popping? && s.msg.box in s.heaps
  }

  /** `popIfOutRanks`: the next timer, unless `now` is sooner; after the last one the kernel
    * is told about the new top.
    */
  ghost function PopNext(s: State): State
    requires CanPopNext(s)
  {
    var Popping(box, now, start, popped) := s.msg;
    var heap := s.heaps[box];
    if heap.Node? && !OutRanks(now, heap.data.mFutureTime) then PopTop(s, box, now, start, popped)
    else s.(msg := AfterUpdate(UpdateSoonestTime(Top(heap), None), box, None))
  }

  ghost predicate CanAddPoll(s: State) {
    s.msg.AddingPoll? && s.msg.box in s.heaps && s.heaps[s.msg.box].Node?
  }

  ghost function AddPoll(s: State): State
    requires CanAddPoll(s)
  {
    s.(polled := s.polled + {s.msg.box},
       msg := SettingTime(s.msg.box, s.heaps[s.msg.box].data.mFutureTime, s.msg.doomed))
  }

  ghost predicate CanRemovePoll(s: State) {
    s.msg.RemovingPoll?
  }

  /** What is done for an empty heap, before the disarming. No run gets here. */
  ghost function RemovePoll(s: State): State
    requires CanRemovePoll(s)
  {
    s.(polled := s.polled - {s.msg.box}, msg := SettingTime(s.msg.box, Timespec(0, 0), s.msg.doomed))
  }

  /** Setting the time zero disarms. */
  function ArmedFor(time: Timespec): Option<Timespec> {
    if time == Timespec(0, 0) then None else Some(time)
  }

  ghost predicate CanSetTime(s: State) {
    s.msg.SettingTime?
  }

  ghost function SetTime(s: State): State
    requires CanSetTime(s)
  {
    s.(armed := s.armed[s.msg.box := ArmedFor(s.msg.time)],
       msg := if s.msg.doomed.Some? then Deleting(s.msg.doomed.value) else Idle)
  }

  ghost predicate CanDelete(s: State) {
    s.msg.Deleting? && s.msg.dead in s.timers && s.msg.dead.mLock in s.locks
  }

  /** The only place where delegates are deleted. */
  ghost function Delete(s: State): State
    requires CanDelete(s)
  {
    s.(timers := s.timers - {s.msg.dead}, locks := Drop(s.locks, s.msg.dead.mLock), msg := Idle)
  }

  /** `epoll_wait` returns with events of armed and polled descriptors whose time has come. */
  ghost predicate CanWake(s: State, todo: seq<LocTimerContainer>, now: Timespec) {
    && s.poll.Waiting? && todo != []
    && (forall i | 0 <= i < |todo| ::
          && todo[i] in s.polled && todo[i] in s.heaps && todo[i] in s.armed && s.armed[todo[i]].Some?
          && Nanos(s.armed[todo[i]].value) <= Nanos(now))
  }

  ghost function Wake(s: State, todo: seq<LocTimerContainer>, now: Timespec): State
    requires CanWake(s, todo, now)
  {
    s.(poll := Handling(todo, Disarm))
  }

  ghost predicate CanStepPoll(s: State) {
    s.poll.Handling? && s.poll.todo != []
  }

  /** The three calls of `LocTimerContainer::expire`, one at a time. */
  ghost function StepPoll(s: State): State
    requires CanStepPoll(s)
  {
    var box := s.poll.todo[0];
    match s.poll.at
    case Disarm => s.(armed := s.armed[box := None], poll := s.poll.(at := Unpoll))
    case Unpoll => s.(polled := s.polled - {box}, poll := s.poll.(at := Send))
    case Send =>
      s.(log := s.log + [MsgExpire(box)],
         poll := if |s.poll.todo| == 1 then Waiting else Handling(s.poll.todo[1..], Disarm))
  }

  datatype Event =
    | EvCreate(client: LocTimer)
    | EvDestroy(client: LocTimer)
    | EvStart(client: LocTimer, timer: LocTimerDelegate)
    | EvStop(client: LocTimer)
    | EvReceive(now: Timespec)
    | EvCallExpire
    | EvPopNext
    | EvAddPoll
    | EvRemovePoll
    | EvSetTime
    | EvDelete
    | EvWake(todo: seq<LocTimerContainer>, now: Timespec)
    | EvStepPoll

  ghost predicate CanDo(s: State, e: Event) {
    match e
    case EvCreate(client) => CanCreate(s, client)
    case EvDestroy(client) => CanDestroy(s, client)
    case EvStart(client, timer) => CanStart(s, client, timer)
    case EvStop(client) => CanStop(s, client)
    case EvReceive(now) => CanReceive(s) && IsClockReading(s, now)
    case EvCallExpire => CanCallExpire(s)
    case EvPopNext => CanPopNext(s)
    case EvAddPoll => CanAddPoll(s)
    case EvRemovePoll => CanRemovePoll(s)
    case EvSetTime => CanSetTime(s)
    case EvDelete => CanDelete(s)
    case EvWake(todo, now) => CanWake(s, todo, now)
    case EvStepPoll => CanStepPoll(s)
  }

  ghost function Next(s: State, e: Event): State
    requires CanDo(s, e)
  {
    match e
    case EvCreate(client) => Create(s, client)
    case EvDestroy(client) => Destroy(s, client)
    case EvStart(client, timer) => Start(s, client, timer)
    case EvStop(client) => Stop(s, client, false)
    case EvReceive(now) => Receive(s, now)
    case EvCallExpire => CallExpire(s)
    case EvPopNext => PopNext(s)
    case EvAddPoll => AddPoll(s)
    case EvRemovePoll => RemovePoll(s)
    case EvSetTime => SetTime(s)
    case EvDelete => Delete(s)
    case EvWake(todo, now) => Wake(s, todo, now)
    case EvStepPoll => StepPoll(s)
  }

  // ---- Hypotheses about the clock ----

  /** Normalised, and after the moment of boot, which no deadline precedes. */
  ghost predicate IsDeadline(t: Timespec) {
    Normalised(t) && t != Timespec(0, 0)
  }

  ghost predicate IsClockReading(s: State, now: Timespec) {
    Normalised(now) && forall t | t in s.timers :: Near(now, t.mFutureTime)
  }
}
