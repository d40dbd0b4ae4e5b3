/** What holds in every run of the timer service, said without the invariant. */
module TimerRuns {
  import opened LocTimer
  import opened Options
  import opened RankedTree
  import opened Timespec
  import opened TimerProtocol
  import opened TimerInvariant
  import opened TimerSafety

  /** No client yet, and empty, unarmed containers. */
  ghost predicate Initial(s: State) {
    && s.clients == map[] && s.timers == map[] && s.locks == map[] && s.outcomes == map[]
    && s.log == [] && s.done == 0 && s.msg == Idle && s.poll == Waiting
    && s.heaps.Keys == s.armed.Keys
    && forall b | b in s.heaps :: s.heaps[b].Empty?
  }

  /** States that follow each other by steps that are possible, whichever thread makes them. */
  ghost predicate IsRun(states: seq<State>, events: seq<Event>) {
    && |states| == |events| + 1
    && Initial(states[0])
    && forall i | 0 <= i < |events| :: CanDo(states[i], events[i]) && states[i + 1] == Next(states[i], events[i])
  }

  lemma InitialIsInv(s: State)
    requires Initial(s)
    ensures Inv(s)
  {
  }

  lemma StepKeepsInv(s: State, e: Event)
    requires Inv(s) && CanDo(s, e)
    ensures Inv(Next(s, e))
  {
    hide Inv;
    match e
    case EvCreate(client) => CreateKeepsInv(s, client);
    case EvDestroy(client) => DestroyKeepsInv(s, client);
    case EvStart(client, timer) => StartKeepsInv(s, client, timer);
    case EvStop(client) => StopKeepsInv(s, client, false);
    case EvReceive(now) =>
      match s.log[s.done] {
        case MsgPush(_, _) => ReceivePushKeepsInv(s, now);
        case MsgRemove(_, _) => ReceiveRemoveKeepsInv(s, now);
        case MsgExpire(_) => ReceiveExpireKeepsInv(s, now);
      }
    case EvCallExpire => CallExpireKeepsInv(s);
    case EvPopNext => PopNextKeepsInv(s);
    case EvAddPoll => AddPollKeepsInv(s);
    case EvRemovePoll => NoPollIsRemoved(s);
    case EvSetTime => SetTimeKeepsInv(s);
    case EvDelete => DeleteKeepsInv(s);
    case EvWake(todo, now) => WakeKeepsInv(s, todo, now);
    case EvStepPoll => StepPollKeepsInv(s);
  }

  lemma {:induction false} RunKeepsInv(states: seq<State>, events: seq<Event>, n: nat)
    requires IsRun(states, events) && n < |states|
    ensures Inv(states[n])
  {
    hide Inv;
    if n == 0 {
      InitialIsInv(states[0]);
    } else {
      RunKeepsInv(states, events, n - 1);
      StepKeepsInv(states[n - 1], events[n - 1]);
    }
  }

  /** No timer is lost, at any moment of any run: a heap with timers in it is armed for its
    * soonest one and polled, or an Expire for it is in flight, or the message thread is at it.
    */
  lemma NoTimerIsLost(states: seq<State>, events: seq<Event>, n: nat, b: LocTimerContainer)
    requires IsRun(states, events) && n < |states|
    ensures var s := states[n];
      s.done <= |s.log| &&
      (b in s.heaps && s.heaps[b].Node? ==>
        || Settling(b, s.msg)
        || InFlight(b, s.poll, s.log, s.done)
        || ArmedForTop(b, s.heaps[b], s.armed, s.polled))
  {
    RunKeepsInv(states, events, n);
    hide HeapsOk, DeadlinesOk, PlacesOk, LogOk, ClientsOk, LocksOk, MsgOk;
  }

  /** When both service threads rest, every heap with timers in it is armed for its soonest. */
  lemma AtRestTheSoonestTimerIsArmed(states: seq<State>, events: seq<Event>, n: nat,
                                     b: LocTimerContainer, t: LocTimerDelegate)
    requires IsRun(states, events) && n < |states|
    requires var s := states[n]; s.msg.Idle? && s.poll.Waiting? && s.done == |s.log|
    requires b in states[n].heaps && t in Elements(states[n].heaps[b])
    ensures var s := states[n];
      && b in s.polled && b in s.armed && s.armed[b].Some?
      && Nanos(s.armed[b].value) <= When(t)
  {
    hide IsRun, HeapsOk, DeadlinesOk, PlacesOk, LogOk, ClientsOk, LocksOk, MsgOk, NoTimerLost, Elements, Nanos;
    RunKeepsInv(states, events, n);
    var s := states[n];
    TopIsSoonest(s.timers, s.heaps, b, t);
    RestingIsArmed(s.heaps, s.armed, s.polled, s.log, s.done, b);
  }

  lemma RestingIsArmed(heaps: Heaps, armed: map<LocTimerContainer, Option<Timespec>>, polled: set<LocTimerContainer>,
                       log: seq<Msg>, done: nat, b: LocTimerContainer)
    requires done == |log| && NoTimerLost(heaps, armed, polled, Idle, Waiting, log, done)
    requires b in heaps && heaps[b].Node?
    ensures ArmedForTop(b, heaps[b], armed, polled)
  {
    assert log[done..] == [];
  }

  lemma TopIsSoonest(timers: Timers, heaps: Heaps, b: LocTimerContainer, t: LocTimerDelegate)
    requires HeapsOk(heaps) && DeadlinesOk(timers.Keys) && PlacesOk(timers, heaps)
    requires b in heaps && t in Elements(heaps[b])
    ensures heaps[b].Node? && When(heaps[b].data) <= When(t)
  {
    hide DeadlinesOk;
    assert heaps[b].Node?;
    HeapIsOk(timers, heaps, b);
    LiveTimersRankWell(timers.Keys);
    TopIsAnElement(heaps[b]);
    TopIsNotOutranked(Sooner, heaps[b], timers.Keys);
    hide HeapsOk, PlacesOk, Elements;
    assert !Sooner(t, heaps[b].data);
  }

  /** The message thread never finds anything it works on gone: messages name live delegates,
    * and so do its own pointers.
    */
  lemma NothingDangles(states: seq<State>, events: seq<Event>, n: nat)
    requires IsRun(states, events) && n < |states|
    ensures var s := states[n];
      && (s.msg.Idle? && s.done < |s.log| ==> CanReceive(s))
      && (s.msg.Expiring? ==> CanCallExpire(s))
      && (s.msg.Popping? ==> CanPopNext(s))
      && (s.msg.AddingPoll? ==> CanAddPoll(s))
      && (s.msg.Deleting? ==> CanDelete(s))
      && (s.poll.Handling? ==> CanStepPoll(s))
      && (forall c | c in s.clients && s.clients[c] != null :: CanStop(s, c))
      && (forall c | c in s.clients && s.clients[c] == null :: CanDestroy(s, c))
  {
    var s := states[n];
    RunKeepsInv(states, events, n);
    if s.msg.Idle? && s.done < |s.log| {
      assert MessageOk(s.timers, s.heaps.Keys, s.outcomes.Keys, s.log[s.done], false);
    }
    hide HeapsOk, DeadlinesOk, PlacesOk, LogOk;
  }

  /** Each delegate ever created has had one Push, and at most one Remove, which comes later.
    * It has had the Remove exactly if its timer was stopped; and once it is deleted it is in no
    * heap and no waiting message names it.
    */
  lemma DelegatesComeAndGoOnce(states: seq<State>, events: seq<Event>, n: nat, t: LocTimerDelegate)
    requires IsRun(states, events) && n < |states| && t in states[n].outcomes
    ensures var s := states[n];
      && MsgPush(t.home, t) in s.log
      && (forall i, j | 0 <= i < |s.log| && 0 <= j < |s.log| ::
            s.log[i] == s.log[j] == MsgPush(t.home, t) || s.log[i] == s.log[j] == MsgRemove(t.home, t) ==> i == j)
      && (forall i, j | 0 <= i < |s.log| && 0 <= j < |s.log| ::
            s.log[i] == MsgPush(t.home, t) && s.log[j] == MsgRemove(t.home, t) ==> i < j)
      && (MsgRemove(t.home, t) in s.log <==> IsRemoved(s.timers, t))
      && (t !in s.timers ==>
            && (forall b | b in s.heaps :: t !in Elements(s.heaps[b]))
            && (forall i | s.done <= i < |s.log| :: s.log[i].MsgExpire? || s.log[i].timer != t))
  {
    hide IsRun, HeapsOk, DeadlinesOk, PlacesOk, LogOk, ClientsOk, LocksOk, MsgOk, NoTimerLost, IsRemoved, Elements;
    RunKeepsInv(states, events, n);
    var s := states[n];
    IsNamedOnce(s.timers, s.heaps.Keys, s.outcomes.Keys, s.log, s.done, t);
    if t !in s.timers {
      DeadAreInNoHeap(s.timers, s.heaps, t);
      DeadAreNotNamed(s.timers, s.heaps.Keys, s.outcomes.Keys, s.log, s.done, t);
    }
  }

  lemma IsNamedOnce(timers: Timers, boxes: set<LocTimerContainer>, created: set<LocTimerDelegate>,
                    log: seq<Msg>, done: nat, t: LocTimerDelegate)
    requires done <= |log| && LogOk(timers, boxes, created, log, done) && t in created
    ensures MsgPush(t.home, t) in log && (MsgRemove(t.home, t) in log <==> IsRemoved(timers, t))
    ensures forall i, j | 0 <= i < |log| && 0 <= j < |log| ::
      log[i] == log[j] == MsgPush(t.home, t) || log[i] == log[j] == MsgRemove(t.home, t) ==> i == j
    ensures forall i, j | 0 <= i < |log| && 0 <= j < |log| ::
      log[i] == MsgPush(t.home, t) && log[j] == MsgRemove(t.home, t) ==> i < j
  {
    hide MessageOk, IsRemoved;
  }

  lemma DeadAreInNoHeap(timers: Timers, heaps: Heaps, t: LocTimerDelegate)
    requires PlacesOk(timers, heaps) && t !in timers
    ensures forall b | b in heaps :: t !in Elements(heaps[b])
  {
    hide Elements;
  }

  lemma DeadAreNotNamed(timers: Timers, boxes: set<LocTimerContainer>, created: set<LocTimerDelegate>,
                        log: seq<Msg>, done: nat, t: LocTimerDelegate)
    requires done <= |log| && LogOk(timers, boxes, created, log, done) && t !in timers
    ensures forall i | done <= i < |log| :: log[i].MsgExpire? || log[i].timer != t
  {
    forall i | done <= i < |log|
      ensures log[i].MsgExpire? || log[i].timer != t
    {
      assert MessageOk(timers, boxes, created, log[i], false);
    }
  }

  /** A started timer comes to one end: one callback, or one stop that returned true, and none
    * before it is stopped. Until then client and delegate point at each other.
    */
  lemma TimersEndOnce(states: seq<State>, events: seq<Event>, n: nat, t: LocTimerDelegate)
    requires IsRun(states, events) && n < |states| && t in states[n].outcomes
    ensures var s := states[n];
      && s.outcomes[t].callbacks + s.outcomes[t].stops <= 1
      && (s.outcomes[t].callbacks + s.outcomes[t].stops == 1 <==> IsRemoved(s.timers, t))
      && (t in s.timers && s.timers[t].client != null ==>
            s.timers[t].client in s.clients && s.clients[s.timers[t].client] == t)
  {
    RunKeepsInv(states, events, n);
    hide HeapsOk, DeadlinesOk, PlacesOk, LogOk, LocksOk, MsgOk, NoTimerLost;
  }

  /** Where a timer is: until it is stopped, its Push waits, or it is in its own heap, once, or it
    * was popped and is about to be called back. One that is in a heap after it was stopped has its
    * Remove waiting.
    */
  lemma TimersAreHeld(states: seq<State>, events: seq<Event>, n: nat, t: LocTimerDelegate)
    requires IsRun(states, events) && n < |states| && t in states[n].timers
    ensures var s := states[n];
      && s.done <= |s.log| && t.home in s.heaps
      && var comes, ticks, popped := MsgPush(t.home, t) in s.log[s.done..], t in Elements(s.heaps[t.home]),
           s.msg.Expiring? && s.msg.current == t;
      && !(comes && ticks) && !(ticks && popped) && !(comes && popped)
      && (s.timers[t].client != null ==> comes || ticks || popped)
      && (s.timers[t].client == null && ticks ==> MsgRemove(t.home, t) in s.log[s.done..])
      && (ticks ==> Elements(s.heaps[t.home])[t] == 1)
      && (forall b | b in s.heaps && t in Elements(s.heaps[b]) :: b == t.home)
  {
    hide IsRun, HeapsOk, DeadlinesOk, PlacesOk, LogOk, ClientsOk, LocksOk, MsgOk, NoTimerLost, Elements;
    RunKeepsInv(states, events, n);
    var s := states[n];
    TicksInItsHeap(s.timers, s.heaps, t);
    PhaseIsLogged(s.timers, s.heaps.Keys, s.outcomes.Keys, s.log, s.done, t);
    PhaseOfRunning(s.clients, s.timers, s.outcomes, s.msg, s.heaps, t);
  }

  lemma TicksInItsHeap(timers: Timers, heaps: Heaps, t: LocTimerDelegate)
    requires PlacesOk(timers, heaps) && t in timers
    ensures t.home in heaps
    ensures forall b | b in heaps ::
      Elements(heaps[b])[t] == if b == t.home && timers[t].phase.Ticking? then 1 else 0
  {
    hide Elements;
  }

  lemma PhaseIsLogged(timers: Timers, boxes: set<LocTimerContainer>, created: set<LocTimerDelegate>,
                      log: seq<Msg>, done: nat, t: LocTimerDelegate)
    requires done <= |log| && LogOk(timers, boxes, created, log, done) && t in timers
    ensures timers[t].phase.Queued? <==> MsgPush(t.home, t) in log[done..]
    ensures timers[t].phase.Ticking? && timers[t].stopped ==> MsgRemove(t.home, t) in log[done..]
  {
    assert MsgPush(t.home, t) in log;
    var i :| 0 <= i < |log| && log[i] == MsgPush(t.home, t);
    assert MessageOk(timers, boxes, created, log[i], i < done);
    assert i >= done ==> log[done..][i - done] == log[i];
    forall k | 0 <= k < |log[done..]| && log[done..][k] == MsgPush(t.home, t)
      ensures timers[t].phase.Queued?
    {
      assert MessageOk(timers, boxes, created, log[done + k], false);
    }
    if timers[t].phase.Ticking? && timers[t].stopped {
      assert IsRemoved(timers, t);
      var j :| 0 <= j < |log| && log[j] == MsgRemove(t.home, t);
      assert MessageOk(timers, boxes, created, log[j], j < done);
      assert log[done..][j - done] == log[j];
    }
  }

  lemma PhaseOfRunning(clients: map<LocTimer, LocTimerDelegate?>, timers: Timers, outcomes: map<LocTimerDelegate, Outcome>,
                       msg: MsgThread, heaps: Heaps, t: LocTimerDelegate)
    requires ClientsOk(clients, timers, outcomes) && MsgOk(msg, timers, heaps) && t in timers
    ensures timers[t].client == null <==> timers[t].stopped
    ensures timers[t].client != null ==> !timers[t].phase.Leaving?
    ensures msg.Expiring? && msg.current == t ==> timers[t].phase.Popped?
    ensures timers[t].client != null && timers[t].phase.Popped? ==> msg.Expiring? && msg.current == t
  {
    hide Drained;
  }

  /** A lock lives exactly as long as it has a user, and counts its users. */
  lemma LocksLiveAsLongAsTheirUsers(states: seq<State>, events: seq<Event>, n: nat, k: LocSharedLock)
    requires IsRun(states, events) && n < |states|
    ensures var s := states[n];
      && (k in s.locks <==> Users(s.clients.Keys, s.timers.Keys, k) > 0)
      && (k in s.locks ==> s.locks[k] == Users(s.clients.Keys, s.timers.Keys, k))
  {
    var s := states[n];
    RunKeepsInv(states, events, n);
    hide HeapsOk, DeadlinesOk, PlacesOk, LogOk, ClientsOk, MsgOk, NoTimerLost;
    if Users(s.clients.Keys, s.timers.Keys, k) > 0 {
      assert ClientsOf(s.clients.Keys, k) != {} || TimersOf(s.timers.Keys, k) != {};
    }
  }

  /** `t` is no more alive in `s'` than in `s`, and its outcome is what it was. */
  ghost predicate LeavesAlone(s: State, s': State, t: LocTimerDelegate) {
    && t in s.outcomes && t in s'.outcomes && s'.outcomes[t] == s.outcomes[t]
    && IsRemoved(s'.timers, t)
    && (t !in s.timers ==> t !in s'.timers)
  }

  lemma StopLeavesTheDeadAlone(s: State, c: LocTimer, callBack: bool, t: LocTimerDelegate)
    requires ClientsOk(s.clients, s.timers, s.outcomes) && CanStop(s, c)
    requires t in s.outcomes && IsRemoved(s.timers, t)
    ensures LeavesAlone(s, Stop(s, c, callBack), t)
  {
  }

  lemma ReceiveLeavesTheDeadAlone(s: State, now: Timespec, t: LocTimerDelegate)
    requires CanReceive(s) && t in s.outcomes && IsRemoved(s.timers, t)
    ensures LeavesAlone(s, Receive(s, now), t)
  {
    hide Push, Remove, Pop, UpdateSoonestTime;
  }

  lemma CallExpireLeavesTheDeadAlone(s: State, t: LocTimerDelegate)
    requires ClientsOk(s.clients, s.timers, s.outcomes) && CanCallExpire(s)
    requires t in s.outcomes && IsRemoved(s.timers, t)
    ensures LeavesAlone(s, CallExpire(s), t)
  {
    hide ClientsOk, Stop;
    var client := s.timers[s.msg.current].client;
    if client != null {
      StopLeavesTheDeadAlone(s, client, true, t);
    }
  }

  lemma PopNextLeavesTheDeadAlone(s: State, t: LocTimerDelegate)
    requires CanPopNext(s) && t in s.outcomes && IsRemoved(s.timers, t)
    ensures LeavesAlone(s, PopNext(s), t)
  {
    hide Pop, UpdateSoonestTime;
  }

  lemma DelegatesLeaveTheDeadAlone(s: State, e: Event, t: LocTimerDelegate)
    requires e.EvStart? || e.EvDelete?
    requires CanDo(s, e) && t in s.outcomes && IsRemoved(s.timers, t)
    ensures LeavesAlone(s, Next(s, e), t)
  {
    hide IsDeadline, Near, Drop;
  }

  /** What a step cannot do: bring a deleted delegate back, or add to the outcome of a timer
    * that has come to its end.
    */
  lemma StepLeavesTheDeadAlone(s: State, e: Event, t: LocTimerDelegate)
    requires ClientsOk(s.clients, s.timers, s.outcomes) && CanDo(s, e)
    requires t in s.outcomes && IsRemoved(s.timers, t)
    ensures LeavesAlone(s, Next(s, e), t)
  {
    hide ClientsOk, Receive, CallExpire, PopNext, Start, Stop, Delete, Drop;
    match e {
      case EvStop(client) => StopLeavesTheDeadAlone(s, client, false, t);
      case EvReceive(now) => ReceiveLeavesTheDeadAlone(s, now, t);
      case EvCallExpire => CallExpireLeavesTheDeadAlone(s, t);
      case EvPopNext => PopNextLeavesTheDeadAlone(s, t);
      case EvStart(_, _) => DelegatesLeaveTheDeadAlone(s, e, t);
      case EvDelete => DelegatesLeaveTheDeadAlone(s, e, t);
      case _ =>
    }
  }

  lemma {:induction false} DeadDelegatesStayDead(states: seq<State>, events: seq<Event>, m: nat, n: nat, t: LocTimerDelegate)
    requires IsRun(states, events) && m <= n < |states|
    requires t in states[m].outcomes && IsRemoved(states[m].timers, t)
    ensures LeavesAlone(states[m], states[n], t)
    decreases n - m
  {
    hide Inv, ClientsOk, CanDo, Next;
    if m == n {
    } else {
      DeadDelegatesStayDead(states, events, m, n - 1, t);
      ClientsAreOk(states, events, n - 1);
      StepLeavesTheDeadAlone(states[n - 1], events[n - 1], t);
    }
  }

  lemma ClientsAreOk(states: seq<State>, events: seq<Event>, n: nat)
    requires IsRun(states, events) && n < |states|
    ensures ClientsOk(states[n].clients, states[n].timers, states[n].outcomes)
  {
    RunKeepsInv(states, events, n);
    hide HeapsOk, DeadlinesOk, PlacesOk, LogOk, ClientsOk, LocksOk, MsgOk, NoTimerLost;
  }

  /** An Expire message ends when the next timer is later than its `now`. It has then popped the
    * timer that was on top when it began and every other one that was due, soonest first. The
    * first timer was due as well exactly if no popped timer was early.
    */
  lemma ExpireEndsWithTheDueTimers(states: seq<State>, events: seq<Event>, n: nat)
    requires IsRun(states, events) && n < |states| && states[n].msg.Popping? && CanPopNext(states[n])
    requires !PopNext(states[n]).msg.Expiring?
    ensures var s := states[n];
      var Popping(b, now, start, popped) := s.msg;
      && start.Node? && popped != [] && popped[0] == start.data
      && multiset(popped) + Elements(s.heaps[b]) == Elements(start)
      && (forall i, j | 0 <= i < j < |popped| :: When(popped[i]) <= When(popped[j]))
      && (forall t | t in Elements(s.heaps[b]) :: When(t) > Nanos(now))
      && (forall i | 0 < i < |popped| :: When(popped[i]) <= Nanos(now))
      && (When(start.data) <= Nanos(now) <==> forall t | t in multiset(popped) :: When(t) <= Nanos(now))
  {
    var s := states[n];
    RunKeepsInv(states, events, n);
    hide LogOk, ClientsOk, LocksOk, NoTimerLost;
    HeapIsOk(s.timers, s.heaps, s.msg.box);
    var Popping(b, now, start, popped) := s.msg;
    assert Drained(start, now, popped, s.heaps[b]);
    ExpireTakesWhatIsDue(start, now, popped, s.heaps[b], s.timers.Keys);
  }

  /** The kernel is never told to disarm by `updateSoonestTime`: no caller gets to that branch. */
  lemma UpdateNeverDisarms(heap: Heap, t: LocTimerDelegate)
    ensures UpdateSoonestTime(Top(Push(Sooner, heap, t)), Top(heap)) != DisarmTimer
    ensures UpdateSoonestTime(Top(heap), None) != DisarmTimer
  {
    TopAfterPush(Sooner, heap, t);
  }

  /** In a run, the branch of `updateSoonestTime` that removes the poll and disarms is never
    * taken, and whenever the message thread sets a time it arms the kernel.
    */
  lemma NobodyDisarmsInUpdate(states: seq<State>, events: seq<Event>, n: nat)
    requires IsRun(states, events) && n < |states|
    ensures !states[n].msg.RemovingPoll?
    ensures n < |events| && events[n].EvSetTime? ==>
      states[n + 1].armed[states[n].msg.box].Some?
  {
    var s := states[n];
    RunKeepsInv(states, events, n);
    NoPollIsRemoved(s);
    if n < |events| && events[n].EvSetTime? {
      hide HeapsOk, LogOk, ClientsOk, LocksOk, MsgOk, NoTimerLost, DeadlinesOk, PlacesOk, ArmedFor;
      TimeIsThatOfTop(s.msg, s.timers, s.heaps);
    }
  }

  /** Removing the only timer of a container leaves the kernel armed for it and polled, unless an
    * Expire is on its way at that moment.
    */
  lemma RemovingTheOnlyTimerLeavesItArmed(states: seq<State>, events: seq<Event>, n: nat,
                                          b: LocTimerContainer, t: LocTimerDelegate)
    requires IsRun(states, events) && n < |events|
    requires events[n].EvReceive? && states[n].log[states[n].done] == MsgRemove(b, t)
    requires Elements(states[n].heaps[b]) == multiset{t}
    requires states[n].poll.Waiting? && MsgExpire(b) !in states[n].log[states[n].done..]
    ensures var s := states[n + 1];
      && s.heaps[b].Empty? && s.msg == Deleting(t)
      && b in s.polled && b in s.armed && s.armed[b] == Some(t.mFutureTime)
  {
    var s := states[n];
    NoTimerIsLost(states, events, n, b);
    OnlyElement(s.heaps[b], t);
    assert s.msg.Idle? && ArmedForTop(b, s.heaps[b], s.armed, s.polled);
  }

  lemma OnlyElement(heap: Heap, t: LocTimerDelegate)
    requires Elements(heap) == multiset{t}
    ensures heap.Node? && heap.data == t && heap.left.Empty? && heap.right.Empty?
  {
    if heap.Node? {
      assert Elements(heap)[heap.data] >= 1;
      assert Elements(heap) == multiset{t} + Elements(heap.left) + Elements(heap.right);
      TopIsAnElement(heap.left);
      TopIsAnElement(heap.right);
    }
  }
}
