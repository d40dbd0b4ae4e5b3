/** What the events of a run tell of its states: who ended a timer, what an Expire message began
  * with, and who armed or polled a container last.
  */
module TimerHistory {
  import opened LocTimer
  import opened Options
  import opened RankedTree
  import opened Timespec
  import opened TimerProtocol
  import opened TimerInvariant
  import opened TimerSafety
  import opened TimerRuns

  // ---- What the message thread leaves alone ----

  /** Handling a message on the heap changes nothing of the clients, the kernel, the poll thread
    * or the outcomes.
    */
  ghost predicate OnlyHeaps(s: State, s': State) {
    && s'.outcomes == s.outcomes && s'.clients == s.clients && s'.log == s.log
    && s'.armed == s.armed && s'.polled == s.polled && s'.poll == s.poll
  }

  lemma ReceiveKeeps(s: State, now: Timespec)
    requires CanReceive(s)
    ensures OnlyHeaps(s, Receive(s, now))
  {
    hide HandlePush, HandleRemove, HandleExpire;
    var s1, m := s.(done := s.done + 1), s.log[s.done];
    match m
    case MsgPush(box, timer) => PushKeeps(s1, box, timer);
    case MsgRemove(box, timer) => RemoveKeeps(s1, box, timer);
    case MsgExpire(box) => ExpireKeeps(s1, box, now);
  }

  lemma PushKeeps(s: State, box: LocTimerContainer, timer: LocTimerDelegate)
    requires box in s.heaps && timer in s.timers
    ensures OnlyHeaps(s, HandlePush(s, box, timer))
  {
    hide Push, UpdateSoonestTime, AfterUpdate;
  }

  lemma RemoveKeeps(s: State, box: LocTimerContainer, timer: LocTimerDelegate)
    requires box in s.heaps && timer in s.timers
    ensures OnlyHeaps(s, HandleRemove(s, box, timer))
  {
    hide Remove, UpdateSoonestTime, AfterUpdate;
  }

  lemma ExpireKeeps(s: State, box: LocTimerContainer, now: Timespec)
    requires box in s.heaps
    ensures OnlyHeaps(s, HandleExpire(s, box, now))
  {
    hide Pop, UpdateSoonestTime, AfterUpdate;
  }

  lemma PopNextKeeps(s: State)
    requires CanPopNext(s)
    ensures OnlyHeaps(s, PopNext(s))
  {
    hide Pop, UpdateSoonestTime, AfterUpdate;
  }

  // ---- How timers end ----

  /** A popped timer calls its client back if the client still runs it; a stop by the client is
    * one of the timer that it runs. Nothing else adds to an outcome.
    */
  lemma StepEndsTimers(s: State, e: Event, t: LocTimerDelegate)
    requires ClientsOk(s.clients, s.timers, s.outcomes) && CanDo(s, e) && t in s.outcomes
    ensures var s' := Next(s, e);
      && t in s'.outcomes
      && s'.outcomes[t].callbacks == s.outcomes[t].callbacks
           + (if e.EvCallExpire? && s.msg.current == t && s.timers[t].client != null then 1 else 0)
      && s'.outcomes[t].stops == s.outcomes[t].stops
           + (if e.EvStop? && s.clients[e.client] == t then 1 else 0)
  {
    if e.EvStart? || e.EvStop? {
      ClientEndsTimers(s, e, t);
    } else if e.EvCallExpire? {
      ExpiryEndsTimers(s, t);
    } else {
      hide ClientsOk, CanDo, Next;
      OthersEndNoTimer(s, e);
    }
  }

  lemma OthersEndNoTimer(s: State, e: Event)
    requires CanDo(s, e) && !e.EvStart? && !e.EvStop? && !e.EvCallExpire?
    ensures Next(s, e).outcomes == s.outcomes
  {
    hide Receive, PopNext, Drop;
    if e.EvReceive? {
      ReceiveKeeps(s, e.now);
    } else if e.EvPopNext? {
      PopNextKeeps(s);
    }
  }

  lemma ClientEndsTimers(s: State, e: Event, t: LocTimerDelegate)
    requires (e.EvStart? || e.EvStop?) && CanDo(s, e) && t in s.outcomes
    ensures var s' := Next(s, e);
      && t in s'.outcomes && s'.outcomes[t].callbacks == s.outcomes[t].callbacks
      && s'.outcomes[t].stops == s.outcomes[t].stops + (if e.EvStop? && s.clients[e.client] == t then 1 else 0)
  {
    hide IsDeadline, Near;
  }

  lemma ExpiryEndsTimers(s: State, t: LocTimerDelegate)
    requires ClientsOk(s.clients, s.timers, s.outcomes) && CanCallExpire(s) && t in s.outcomes
    ensures var s' := CallExpire(s);
      && t in s'.outcomes && s'.outcomes[t].stops == s.outcomes[t].stops
      && s'.outcomes[t].callbacks == s.outcomes[t].callbacks
           + (if s.msg.current == t && s.timers[t].client != null then 1 else 0)
  {
    if s.timers[s.msg.current].client != null {
      CurrentIsRun(s.clients, s.timers, s.outcomes, s.msg.current);
    }
    hide ClientsOk;
  }

  lemma CurrentIsRun(clients: map<LocTimer, LocTimerDelegate?>, timers: Timers,
                     outcomes: map<LocTimerDelegate, Outcome>, t: LocTimerDelegate)
    requires ClientsOk(clients, timers, outcomes) && t in timers && timers[t].client != null
    ensures timers[t].client in clients && clients[timers[t].client] == t
  {
  }

  lemma TimersEndByCallOrStop(states: seq<State>, events: seq<Event>, n: nat, t: LocTimerDelegate)
    requires IsRun(states, events) && n < |events| && t in states[n].outcomes
    ensures var s, s', e := states[n], states[n + 1], events[n];
      && CanDo(s, e) && t in s'.outcomes
      && s'.outcomes[t].callbacks == s.outcomes[t].callbacks
           + (if e.EvCallExpire? && s.msg.current == t && s.timers[t].client != null then 1 else 0)
      && s'.outcomes[t].stops == s.outcomes[t].stops
           + (if e.EvStop? && s.clients[e.client] == t then 1 else 0)
  {
    ClientsAreOk(states, events, n);
    hide ClientsOk, Next;
    StepEndsTimers(states[n], events[n], t);
  }

  // ---- What an Expire message begins with ----

  ghost predicate InLoop(msg: MsgThread) {
    msg.Expiring? || msg.Popping?
  }

  lemma LoopGoesOn(s: State, e: Event)
    requires CanDo(s, e) && InLoop(Next(s, e).msg) && !e.EvReceive?
    ensures var m, m' := s.msg, Next(s, e).msg;
      InLoop(m) && m'.box == m.box && m'.now == m.now && m'.start == m.start
  {
    if e.EvPopNext? {
      PopNextGoesOn(s);
    } else if e.EvStart? || e.EvStop? || e.EvCreate? || e.EvDestroy? {
      ClientsKeepMsg(s, e);
      hide CanDo, Next;
    } else if e.EvCallExpire? {
      CallGoesOn(s);
      hide CallExpire;
    } else if e.EvWake? || e.EvStepPoll? {
      PollKeepsMsg(s, e);
      hide CanDo, Next;
    } else {
      NotInLoop(s, e);
      hide CanDo, Next;
    }
  }

  lemma CallGoesOn(s: State)
    requires CanCallExpire(s)
    ensures var m, m' := s.msg, CallExpire(s).msg;
      InLoop(m) && m'.Popping? && m'.box == m.box && m'.now == m.now && m'.start == m.start
  {
    hide Stop;
  }

  lemma PollKeepsMsg(s: State, e: Event)
    requires CanDo(s, e) && (e.EvWake? || e.EvStepPoll?)
    ensures Next(s, e).msg == s.msg
  {
    hide CanStepPoll, CanWake, StepPoll, Wake;
    if e.EvWake? {
      WakeKeepsMsg(s, e.todo, e.now);
    } else {
      StepPollKeepsMsg(s);
    }
  }

  lemma WakeKeepsMsg(s: State, todo: seq<LocTimerContainer>, now: Timespec)
    requires CanWake(s, todo, now)
    ensures Wake(s, todo, now).msg == s.msg
  {
  }

  lemma StepPollKeepsMsg(s: State)
    requires CanStepPoll(s)
    ensures StepPoll(s).msg == s.msg
  {
    match s.poll.at
    case Disarm =>
    case Unpoll =>
    case Send =>
  }

  lemma NotInLoop(s: State, e: Event)
    requires CanDo(s, e) && (e.EvAddPoll? || e.EvRemovePoll? || e.EvSetTime? || e.EvDelete?)
    ensures !InLoop(Next(s, e).msg)
  {
    hide Drop;
  }

  lemma ClientsKeepMsg(s: State, e: Event)
    requires CanDo(s, e) && (e.EvStart? || e.EvStop? || e.EvCreate? || e.EvDestroy?)
    ensures Next(s, e).msg == s.msg
  {
    hide IsDeadline, Near, Drop;
  }

  lemma PopNextGoesOn(s: State)
    requires CanPopNext(s)
    ensures var m, m' := s.msg, PopNext(s).msg;
      InLoop(m') ==> m'.box == m.box && m'.now == m.now && m'.start == m.start
  {
    hide Pop;
  }

  lemma LoopBegins(s: State, e: Event)
    requires CanDo(s, e) && InLoop(Next(s, e).msg) && e.EvReceive?
    ensures var m := Next(s, e).msg;
      s.log[s.done] == MsgExpire(m.box) && m.now == e.now && m.box in s.heaps && m.start == s.heaps[m.box]
  {
    hide Push, Pop, Remove;
  }

  /** The loop of an Expire message compares with the clock as it was read when the message was
    * received, and `start` is the heap as it was then.
    */
  lemma {:induction false} LoopBegan(states: seq<State>, events: seq<Event>, n: nat) returns (k: nat)
    requires IsRun(states, events) && n < |states| && InLoop(states[n].msg)
    ensures k < n && events[k].EvReceive? && CanDo(states[k], events[k])
    ensures var m := states[n].msg;
      && states[k].log[states[k].done] == MsgExpire(m.box) && m.now == events[k].now
      && m.box in states[k].heaps && m.start == states[k].heaps[m.box]
  {
    hide Next, CanDo, Initial;
    BeginsWaiting(states, events);
    var s, e := states[n - 1], events[n - 1];
    hide InLoop;
    if e.EvReceive? {
      k := n - 1;
      LoopBegins(s, e);
    } else {
      LoopGoesOn(s, e);
      k := LoopBegan(states, events, n - 1);
    }
  }

  lemma LoopEnds(s: State)
    requires CanPopNext(s) && !PopNext(s).msg.Expiring?
    ensures PopNext(s).msg == if s.heaps[s.msg.box].Node? then AddingPoll(s.msg.box, None) else Idle
  {
    hide Pop;
  }

  /** So an Expire message takes off the heap that it finds, besides its top, exactly the timers
    * that are due when the clock is read. If any are left, the kernel is told.
    */
  lemma ExpireTakesTheDue(states: seq<State>, events: seq<Event>, n: nat) returns (k: nat)
    requires IsRun(states, events) && n < |states| && states[n].msg.Popping? && CanPopNext(states[n])
    requires !PopNext(states[n]).msg.Expiring?
    ensures k < n && events[k].EvReceive? && CanDo(states[k], events[k])
    ensures var b, popped := states[n].msg.box, states[n].msg.popped;
      && states[k].log[states[k].done] == MsgExpire(b) && b in states[k].heaps && states[k].heaps[b].Node?
      && popped != [] && popped[0] == states[k].heaps[b].data
      && multiset(popped) + Elements(states[n].heaps[b]) == Elements(states[k].heaps[b])
      && (forall i | 0 < i < |popped| :: When(popped[i]) <= Nanos(events[k].now))
      && (forall t | t in Elements(states[n].heaps[b]) :: When(t) > Nanos(events[k].now))
      && PopNext(states[n]).msg == if states[n].heaps[b].Node? then AddingPoll(b, None) else Idle
  {
    LoopEnds(states[n]);
    hide IsRun, PopNext, CanDo, Elements, When, Nanos;
    k := LoopBegan(states, events, n);
    ExpireEndsWithTheDueTimers(states, events, n);
  }

  // ---- What the kernel is told ----

  /** What is left to do after a change of the top: to arm for the new one, if there is one. */
  ghost function Told(before: Heap, after: Heap, box: LocTimerContainer, doomed: Option<LocTimerDelegate>): MsgThread {
    if after.Node? && Top(after) != Top(before) then AddingPoll(box, doomed)
    else if doomed.Some? then Deleting(doomed.value) else Idle
  }

  lemma PushTells(heap: Heap, t: LocTimerDelegate, b: LocTimerContainer)
    ensures var after := Push(Sooner, heap, t);
      AfterUpdate(UpdateSoonestTime(Top(after), Top(heap)), b, None) == Told(heap, after, b, None)
  {
    TopAfterPush(Sooner, heap, t);
    hide Push;
  }

  lemma RemoveTells(heap: Heap, t: LocTimerDelegate, b: LocTimerContainer, live: set<LocTimerDelegate>)
    requires IsHeap(Sooner, heap) && RanksWell(Sooner, live) && Within(heap, live) && t in live
    requires Elements(heap)[t] <= 1
    ensures var r := Remove(Sooner, heap, t);
      var removed := if r.found then Some(t) else None;
      AfterUpdate(if Top(heap) == removed then UpdateSoonestTime(Top(r.rest), None) else NoCall, b, Some(t))
        == Told(heap, r.rest, b, Some(t))
  {
    hide Remove, IsHeap, RanksWell, Within, Elements;
    var r := Remove(Sooner, heap, t);
    RemoveKeepsHeap(Sooner, heap, t, live);
    TopIsAnElement(r.rest);
    TopStays(heap, t);
    if r.found && r.rest.Node? {
      assert Elements(r.rest)[t] == 0;
    }
  }

  lemma TopStays(heap: Heap, t: LocTimerDelegate)
    ensures Top(heap) != Some(t) ==> Top(Remove(Sooner, heap, t).rest) == Top(heap)
    ensures heap.Node? && heap.data == t ==> Remove(Sooner, heap, t).found
  {
  }

  /** Message `m` changed its own heap alone, by its own timer; and the kernel is told if and only
    * if the top has changed and there is one.
    */
  ghost predicate HandledAndTold(s: State, s': State, m: Msg)
    requires !m.MsgExpire?
  {
    && m.box in s.heaps && m.box in s'.heaps && s'.heaps == s.heaps[m.box := s'.heaps[m.box]]
    && Elements(s'.heaps[m.box])
         == (if m.MsgPush? then Elements(s.heaps[m.box]) + multiset{m.timer}
             else Elements(s.heaps[m.box]) - multiset{m.timer})
    && s'.msg == Told(s.heaps[m.box], s'.heaps[m.box], m.box, if m.MsgRemove? then Some(m.timer) else None)
  }

  lemma PushIsTold(s: State, b: LocTimerContainer, t: LocTimerDelegate, live: set<LocTimerDelegate>)
    requires b in s.heaps && t in s.timers && t in live
    requires IsHeap(Sooner, s.heaps[b]) && RanksWell(Sooner, live) && Within(s.heaps[b], live)
    ensures HandledAndTold(s, HandlePush(s, b, t), MsgPush(b, t))
  {
    hide Push, IsHeap, RanksWell, Within, UpdateSoonestTime, AfterUpdate, Top, Told, Elements;
    PushKeepsHeap(Sooner, s.heaps[b], t, live);
    PushTells(s.heaps[b], t, b);
  }

  lemma RemoveIsTold(s: State, b: LocTimerContainer, t: LocTimerDelegate, live: set<LocTimerDelegate>)
    requires b in s.heaps && t in s.timers && t in live && Elements(s.heaps[b])[t] <= 1
    requires IsHeap(Sooner, s.heaps[b]) && RanksWell(Sooner, live) && Within(s.heaps[b], live)
    ensures HandledAndTold(s, HandleRemove(s, b, t), MsgRemove(b, t))
  {
    hide Remove, IsHeap, RanksWell, Within, UpdateSoonestTime, AfterUpdate, Top, Told, Elements;
    RemoveKeepsHeap(Sooner, s.heaps[b], t, live);
    RemoveTells(s.heaps[b], t, b, live);
    var r := Remove(Sooner, s.heaps[b], t);
    assert Elements(r.rest) == Elements(s.heaps[b]) - multiset{t};
    assert HandleRemove(s, b, t).heaps == s.heaps[b := r.rest];
  }

  lemma ReceiveHandles(s: State, e: Event)
    requires CanDo(s, e) && e.EvReceive? && CanReceive(s) && !s.log[s.done].MsgExpire?
    ensures var s1, m := s.(done := s.done + 1), s.log[s.done];
      && m.box in s.heaps && m.timer in s.timers
      && Next(s, e) == if m.MsgPush? then HandlePush(s1, m.box, m.timer) else HandleRemove(s1, m.box, m.timer)
  {
    hide HandlePush, HandleRemove, HandleExpire;
  }

  lemma NewTopsAreTold(states: seq<State>, events: seq<Event>, n: nat)
    requires IsRun(states, events) && n < |events| && events[n].EvReceive? && CanReceive(states[n])
    requires !states[n].log[states[n].done].MsgExpire?
    ensures HandledAndTold(states[n], states[n + 1], states[n].log[states[n].done])
  {
    var s, m := states[n], states[n].log[states[n].done];
    RunKeepsInv(states, events, n);
    hide HeapsOk, DeadlinesOk, PlacesOk, LogOk, ClientsOk, LocksOk, MsgOk, NoTimerLost, Elements, HandledAndTold;
    hide CanReceive, CanDo, Next;
    ReceiveHandles(s, events[n]);
    HeapIsOk(s.timers, s.heaps, m.box);
    LiveTimersRankWell(s.timers.Keys);
    TicksInItsHeap(s.timers, s.heaps, m.timer);
    var s1 := s.(done := s.done + 1);
    if m.MsgPush? {
      PushIsTold(s1, m.box, m.timer, s.timers.Keys);
    } else {
      RemoveIsTold(s1, m.box, m.timer, s.timers.Keys);
    }
    SameButDone(s, s1, states[n + 1], m);
  }

  lemma SameButDone(s: State, s1: State, s': State, m: Msg)
    requires !m.MsgExpire? && s1.heaps == s.heaps && HandledAndTold(s1, s', m)
    ensures HandledAndTold(s, s', m)
  {
  }

  // ---- The kernel's side ----

  /** The container whose event the poll thread is at. */
  ghost predicate IsAt(s: State, at: PollStep, b: LocTimerContainer) {
    s.poll.Handling? && s.poll.todo != [] && s.poll.todo[0] == b && s.poll.at == at
  }

  /** Who changes what the kernel is armed for: the message thread, and the poll thread first. */
  lemma StepArms(s: State, e: Event, b: LocTimerContainer)
    requires CanDo(s, e) && b in s.armed && !(e.EvSetTime? && s.msg.box == b)
    ensures b in Next(s, e).armed
    ensures Next(s, e).armed[b] == if e.EvStepPoll? && IsAt(s, Disarm, b) then None else s.armed[b]
  {
    hide Receive, PopNext, Stop, Start, Create, Destroy, Delete;
    if e.EvReceive? {
      ReceiveKeeps(s, e.now);
    } else if e.EvPopNext? {
      PopNextKeeps(s);
    } else if IsOfDelegates(e) {
      DelegatesKeepKernel(s, e);
    }
  }

  ghost predicate IsOfDelegates(e: Event) {
    e.EvStart? || e.EvStop? || e.EvCreate? || e.EvDestroy? || e.EvDelete? || e.EvCallExpire?
  }

  lemma DelegatesKeepKernel(s: State, e: Event)
    requires CanDo(s, e) && IsOfDelegates(e)
    ensures Next(s, e).armed == s.armed && Next(s, e).polled == s.polled && Next(s, e).poll == s.poll
  {
    hide Drop, Near, IsDeadline;
  }

  lemma StepPolls(s: State, e: Event, b: LocTimerContainer)
    requires CanDo(s, e) && !(e.EvAddPoll? && s.msg.box == b) && !e.EvRemovePoll?
    ensures b in Next(s, e).polled <==> b in s.polled && !(e.EvStepPoll? && IsAt(s, Unpoll, b))
  {
    hide Receive, PopNext, Stop, Start, Create, Destroy, Delete;
    if e.EvReceive? {
      ReceiveKeeps(s, e.now);
    } else if e.EvPopNext? {
      PopNextKeeps(s);
    } else if IsOfDelegates(e) {
      DelegatesKeepKernel(s, e);
    }
  }

  lemma StepMovesPoll(s: State, e: Event)
    requires CanDo(s, e) && !e.EvWake? && !e.EvStepPoll?
    ensures Next(s, e).poll == s.poll
  {
    hide Receive, PopNext, Stop, Start, Create, Destroy, Delete;
    if e.EvReceive? {
      ReceiveKeeps(s, e.now);
    } else if e.EvPopNext? {
      PopNextKeeps(s);
    } else if IsOfDelegates(e) {
      DelegatesKeepKernel(s, e);
    }
  }

  // ---- What the kernel's events lead to ----

  /** The containers of all events that `epoll_wait` returned, in order. */
  ghost function Woken(events: seq<Event>, n: nat): seq<LocTimerContainer>
    requires n <= |events|
  {
    if n == 0 then []
    else Woken(events, n - 1) + if events[n - 1].EvWake? then events[n - 1].todo else []
  }

  /** Those that an Expire was sent for, in order. */
  ghost function Expires(log: seq<Msg>): seq<LocTimerContainer> {
    if log == [] then []
    else
      var m := log[|log| - 1];
      Expires(log[..|log| - 1]) + if m.MsgExpire? then [m.box] else []
  }

  ghost function ToDo(poll: PollThread): seq<LocTimerContainer> {
    if poll.Handling? then poll.todo else []
  }

  lemma OneMoreMsg(log: seq<Msg>, m: Msg)
    ensures Expires(log + [m]) == Expires(log) + if m.MsgExpire? then [m.box] else []
  {
    assert (log + [m])[..|log|] == log;
  }

  /** What a step sends, and what it does to the events that are still to be handled. */
  lemma StepSends(s: State, e: Event)
    requires CanDo(s, e)
    ensures Expires(Next(s, e).log) + ToDo(Next(s, e).poll)
      == Expires(s.log) + ToDo(s.poll) + if e.EvWake? then e.todo else []
  {
    hide Expires;
    if e.EvWake? {
      WakeSends(s, e.todo, e.now);
      hide Wake, CanWake;
    } else if e.EvStepPoll? {
      StepPollSends(s);
      hide StepPoll, CanStepPoll;
    } else {
      StepMovesPoll(s, e);
      OthersSend(s, e);
      hide CanDo, Next;
    }
  }

  lemma WakeSends(s: State, todo: seq<LocTimerContainer>, now: Timespec)
    requires CanWake(s, todo, now)
    ensures ToDo(s.poll) == [] && ToDo(Wake(s, todo, now).poll) == todo && Wake(s, todo, now).log == s.log
  {
  }

  lemma StepPollSends(s: State)
    requires CanStepPoll(s)
    ensures Expires(StepPoll(s).log) + ToDo(StepPoll(s).poll) == Expires(s.log) + ToDo(s.poll)
  {
    StepPollTurns(s);
    hide Expires, ToDo, StepPoll;
    if s.poll.at.Send? {
      OneMoreMsg(s.log, MsgExpire(s.poll.todo[0]));
      FirstMovesOver(Expires(s.log), s.poll.todo);
    }
  }

  lemma FirstMovesOver<T>(a: seq<T>, b: seq<T>)
    requires b != []
    ensures (a + [b[0]]) + b[1..] == a + b
  {
  }

  lemma StepPollTurns(s: State)
    requires CanStepPoll(s)
    ensures var s', todo := StepPoll(s), s.poll.todo;
      && ToDo(s.poll) == todo
      && s'.log == (if s.poll.at.Send? then s.log + [MsgExpire(todo[0])] else s.log)
      && ToDo(s'.poll) == if s.poll.at.Send? then todo[1..] else todo
  {
  }

  lemma OthersSend(s: State, e: Event)
    requires CanDo(s, e) && !e.EvWake? && !e.EvStepPoll?
    ensures Expires(Next(s, e).log) == Expires(s.log)
  {
    hide Expires, Receive, PopNext, Start, Stop, Create, Destroy, Delete, CallExpire;
    if e.EvReceive? {
      ReceiveKeeps(s, e.now);
    } else if e.EvPopNext? {
      PopNextKeeps(s);
    } else if IsOfDelegates(e) {
      DelegatesSend(s, e);
    }
  }

  lemma DelegatesSend(s: State, e: Event)
    requires CanDo(s, e) && IsOfDelegates(e)
    ensures Expires(Next(s, e).log) == Expires(s.log)
  {
    hide Expires, Drop, Near, IsDeadline;
    match e
    case EvStart(_, t) => OneMoreMsg(s.log, MsgPush(t.home, t));
    case EvStop(c) => OneMoreMsg(s.log, MsgRemove(s.clients[c].home, s.clients[c]));
    case EvCallExpire =>
      var t := s.timers[s.msg.current];
      if t.client != null {
        OneMoreMsg(s.log, MsgRemove(s.clients[t.client].home, s.clients[t.client]));
      }
    case _ =>
  }

  /** Each event of the kernel leads to one Expire, in the order of the events, and nothing else
    * does: the containers that were woken are those that an Expire was sent for and then those
    * that the poll thread has yet to handle.
    */
  lemma {:induction false} EachWakeIsServed(states: seq<State>, events: seq<Event>, n: nat)
    requires IsRun(states, events) && n < |states|
    ensures Woken(events, n) == Expires(states[n].log) + ToDo(states[n].poll)
  {
    hide CanDo, Next;
    if n == 0 {
    } else {
      hide Expires, ToDo;
      EachWakeIsServed(states, events, n - 1);
      StepSends(states[n - 1], events[n - 1]);
    }
  }

  ghost predicate StepsAt(states: seq<State>, events: seq<Event>, k: nat, at: PollStep, b: LocTimerContainer)
    requires |states| == |events| + 1 && k < |events|
  {
    events[k].EvStepPoll? && IsAt(states[k], at, b)
  }

  /** Nobody sets the time of `b` between step `k` and state `n`. */
  ghost predicate NotArmedSince(states: seq<State>, events: seq<Event>, k: nat, n: nat, b: LocTimerContainer)
    requires |states| == |events| + 1 && n < |states|
  {
    forall j | k < j < n && events[j].EvSetTime? :: !(states[j].msg.SettingTime? && states[j].msg.box == b)
  }

  ghost predicate NotPolledSince(states: seq<State>, events: seq<Event>, k: nat, n: nat, b: LocTimerContainer)
    requires |states| == |events| + 1 && n < |states|
  {
    forall j | k < j < n && events[j].EvAddPoll? :: !(states[j].msg.AddingPoll? && states[j].msg.box == b)
  }

  lemma PollStepCameFrom(s: State, e: Event, b: LocTimerContainer)
    requires CanDo(s, e)
    ensures IsAt(Next(s, e), Unpoll, b) ==> IsAt(s, if e.EvStepPoll? then Disarm else Unpoll, b)
    ensures IsAt(Next(s, e), Send, b) ==> IsAt(s, if e.EvStepPoll? then Unpoll else Send, b)
  {
    if !e.EvWake? && !e.EvStepPoll? {
      StepMovesPoll(s, e);
      hide Next, CanDo;
    }
  }

  lemma {:induction false} WasDisarmed(states: seq<State>, events: seq<Event>, n: nat, b: LocTimerContainer) returns (k: nat)
    requires IsRun(states, events) && n < |states|
    requires IsAt(states[n], Unpoll, b) || IsAt(states[n], Send, b)
    ensures k < n && StepsAt(states, events, k, Disarm, b)
    ensures NotArmedSince(states, events, k, n, b) ==> b in states[n].armed && states[n].armed[b] == None
  {
    hide CanDo, Next, Initial;
    BeginsWaiting(states, events);
    var s, e := states[n - 1], events[n - 1];
    PollStepCameFrom(s, e, b);
    if StepsAt(states, events, n - 1, Disarm, b) {
      k := n - 1;
      Disarms(s, b);
    } else {
      k := WasDisarmed(states, events, n - 1, b);
      if NotArmedSince(states, events, k, n, b) {
        assert !(e.EvSetTime? && s.msg.SettingTime? && s.msg.box == b);
        SetTimeSets(s, e);
        StepArms(s, e, b);
      }
    }
  }

  lemma {:induction false} WasUnpolled(states: seq<State>, events: seq<Event>, n: nat, b: LocTimerContainer) returns (k: nat)
    requires IsRun(states, events) && n < |states| && IsAt(states[n], Send, b)
    ensures k < n && StepsAt(states, events, k, Unpoll, b)
    ensures NotPolledSince(states, events, k, n, b) ==> b !in states[n].polled
  {
    hide CanDo, Next, Initial;
    BeginsWaiting(states, events);
    var s, e := states[n - 1], events[n - 1];
    PollStepCameFrom(s, e, b);
    if StepsAt(states, events, n - 1, Unpoll, b) {
      k := n - 1;
      Unpolls(s, b);
    } else {
      k := WasUnpolled(states, events, n - 1, b);
      if NotPolledSince(states, events, k, n, b) {
        assert !(e.EvAddPoll? && s.msg.AddingPoll? && s.msg.box == b);
        SetTimeSets(s, e);
        NobodyDisarmsInUpdate(states, events, n - 1);
        StepPolls(s, e, b);
      }
    }
  }

  lemma BeginsWaiting(states: seq<State>, events: seq<Event>)
    requires IsRun(states, events)
    ensures states[0].poll.Waiting? && states[0].msg.Idle?
  {
    hide CanDo, Next;
  }

  lemma SetTimeSets(s: State, e: Event)
    requires CanDo(s, e)
    ensures (e.EvSetTime? ==> s.msg.SettingTime?) && (e.EvAddPoll? ==> s.msg.AddingPoll?)
    ensures e.EvRemovePoll? ==> s.msg.RemovingPoll?
  {
  }

  lemma Disarms(s: State, b: LocTimerContainer)
    requires CanStepPoll(s) && IsAt(s, Disarm, b)
    ensures b in Next(s, EvStepPoll).armed && Next(s, EvStepPoll).armed[b] == None
  {
  }

  lemma Unpolls(s: State, b: LocTimerContainer)
    requires CanStepPoll(s) && IsAt(s, Unpoll, b)
    ensures b !in Next(s, EvStepPoll).polled
  {
  }

  /** The poll thread sends an Expire for a container only when it has disarmed it and then taken
    * it out of the polled set; and so it still is, unless the message thread has seen to it since.
    */
  lemma SentOnceDisarmed(states: seq<State>, events: seq<Event>, n: nat, b: LocTimerContainer) returns (k: nat, l: nat)
    requires IsRun(states, events) && n < |events| && StepsAt(states, events, n, Send, b)
    ensures k < l < n && StepsAt(states, events, k, Disarm, b) && StepsAt(states, events, l, Unpoll, b)
    ensures NotArmedSince(states, events, k, n, b) ==> b in states[n].armed && states[n].armed[b] == None
    ensures NotPolledSince(states, events, l, n, b) ==> b !in states[n].polled
    ensures states[n + 1].log == states[n].log + [MsgExpire(b)]
  {
    hide CanDo, Initial;
    l := WasUnpolled(states, events, n, b);
    k := WasDisarmed(states, events, l, b);
    hide Next;
    if NotArmedSince(states, events, k, n, b) {
      assert NotArmedSince(states, events, k, l, b);
      StaysDisarmed(states, events, l, n, b);
    }
  }

  lemma {:induction false} StaysDisarmed(states: seq<State>, events: seq<Event>, l: nat, n: nat, b: LocTimerContainer)
    requires IsRun(states, events) && l <= n < |states| && b in states[l].armed && states[l].armed[b] == None
    requires forall j | l <= j < n && events[j].EvSetTime? :: !(states[j].msg.SettingTime? && states[j].msg.box == b)
    ensures b in states[n].armed && states[n].armed[b] == None
    decreases n - l
  {
    hide CanDo, Next, Initial;
    if l == n {
    } else {
      StaysDisarmed(states, events, l, n - 1, b);
      SetTimeSets(states[n - 1], events[n - 1]);
      StepArms(states[n - 1], events[n - 1], b);
    }
  }
}
