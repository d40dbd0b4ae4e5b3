/** A run of the timer service that it does not mean to make: a stopped timer leaves the kernel
  * armed, and when that fires a timer started since is called back before its time.
  */
module TimerRaces {
  import opened LocTimer
  import opened Options
  import opened RankedTree
  import opened Timespec
  import opened TimerProtocol
  import opened TimerInvariant
  import opened TimerRuns

  ghost function Only(t: LocTimerDelegate): Heap {
    Node(1, t, Empty, Empty)
  }

  /** A client and two timers of it in one container. At `now`, which is what every reading of
    * the clock gives, the first is due and the second is not.
    */
  datatype Race = Race(c: LocTimer, t: LocTimerDelegate, u: LocTimerDelegate, b: LocTimerContainer, now: Timespec) {
    ghost predicate Valid() {
      && t != u && t.home == b && u.home == b && t.mLock == c.mLock && u.mLock == c.mLock
      && IsDeadline(t.mFutureTime) && IsDeadline(u.mFutureTime)
      && Normalised(now) && Near(now, t.mFutureTime) && Near(now, u.mFutureTime)
      && When(t) <= Nanos(now) < When(u)
    }

    function Events(): seq<Event> {
      [EvCreate(c), EvStart(c, t), EvReceive(now), EvAddPoll, EvSetTime,
       EvStop(c), EvReceive(now), EvDelete,
       EvWake([b], now), EvStepPoll, EvStepPoll, EvStart(c, u), EvStepPoll,
       EvReceive(now), EvAddPoll, EvSetTime, EvReceive(now), EvCallExpire]
    }

    ghost function Run(k: nat): State
      requires k <= |Events()|
    {
      if k == 0 then State(map[], map[], map[], map[b := Empty], map[b := None], {}, [], 0, Idle, Waiting, map[])
      else
        var s := Run(k - 1);
        if CanDo(s, Events()[k - 1]) then Next(s, Events()[k - 1]) else s
    }

    // ---- What is known of the states of the run ----

    ghost predicate Client(s: State, mTimer: LocTimerDelegate?, users: int) {
      c in s.clients && s.clients[c] == mTimer && c.mLock in s.locks && s.locks[c.mLock] == users
    }

    ghost predicate Box(s: State, heap: Heap, armed: Option<Timespec>, polled: bool) {
      b in s.heaps && s.heaps[b] == heap && b in s.armed && s.armed[b] == armed && (b in s.polled <==> polled)
    }

    /** `x` is the only delegate. */
    ghost predicate Timer(s: State, x: LocTimerDelegate, d: Delegate, o: Outcome) {
      && x in s.timers && s.timers[x] == d && x in s.outcomes && s.outcomes[x] == o
      && (forall y | y in s.timers :: y == x)
      && (x == t ==> u !in s.outcomes)
    }

    ghost predicate NoTimer(s: State) {
      s.timers == map[] && u !in s.outcomes
    }

    ghost predicate Threads(s: State, sent: nat, done: nat, msg: MsgThread, poll: PollThread)
      requires sent <= 5
    {
      && s.log == [MsgPush(b, t), MsgRemove(b, t), MsgPush(b, u), MsgExpire(b), MsgRemove(b, u)][..sent]
      && s.done == done && s.msg == msg && s.poll == poll
    }

    /** After `k` steps. */
    ghost predicate At(k: nat, s: State) {
      var running, over := Outcome(0, 0), Outcome(0, 1);
      var at, ut := Some(t.mFutureTime), Some(u.mFutureTime);
      match k
      case 0 => s == Run(0)
      case 1 =>
        && Client(s, null, 1) && NoTimer(s) && t !in s.outcomes
        && Box(s, Empty, None, false) && Threads(s, 0, 0, Idle, Waiting)
      case 2 =>
        && Client(s, t, 2) && Timer(s, t, Delegate(c, false, Queued), running)
        && Box(s, Empty, None, false) && Threads(s, 1, 0, Idle, Waiting)
      case 3 =>
        && Client(s, t, 2) && Timer(s, t, Delegate(c, false, Ticking), running)
        && Box(s, Only(t), None, false) && Threads(s, 1, 1, AddingPoll(b, None), Waiting)
      case 4 =>
        && Client(s, t, 2) && Timer(s, t, Delegate(c, false, Ticking), running)
        && Box(s, Only(t), None, true) && Threads(s, 1, 1, SettingTime(b, t.mFutureTime, None), Waiting)
      case 5 =>
        && Client(s, t, 2) && Timer(s, t, Delegate(c, false, Ticking), running)
        && Box(s, Only(t), at, true) && Threads(s, 1, 1, Idle, Waiting)
      case 6 =>
        && Client(s, null, 2) && Timer(s, t, Delegate(null, true, Ticking), over)
        && Box(s, Only(t), at, true) && Threads(s, 2, 1, Idle, Waiting)
      case 7 =>
        && Client(s, null, 2) && Timer(s, t, Delegate(null, true, Leaving), over)
        && Box(s, Empty, at, true) && Threads(s, 2, 2, Deleting(t), Waiting)
      case 8 =>
        && Client(s, null, 1) && NoTimer(s)
        && Box(s, Empty, at, true) && Threads(s, 2, 2, Idle, Waiting)
      case 9 =>
        && Client(s, null, 1) && NoTimer(s)
        && Box(s, Empty, at, true) && Threads(s, 2, 2, Idle, Handling([b], Disarm))
      case 10 =>
        && Client(s, null, 1) && NoTimer(s)
        && Box(s, Empty, None, true) && Threads(s, 2, 2, Idle, Handling([b], Unpoll))
      case 11 =>
        && Client(s, null, 1) && NoTimer(s)
        && Box(s, Empty, None, false) && Threads(s, 2, 2, Idle, Handling([b], Send))
      case 12 =>
        && Client(s, u, 2) && Timer(s, u, Delegate(c, false, Queued), running)
        && Box(s, Empty, None, false) && Threads(s, 3, 2, Idle, Handling([b], Send))
      case 13 =>
        && Client(s, u, 2) && Timer(s, u, Delegate(c, false, Queued), running)
        && Box(s, Empty, None, false) && Threads(s, 4, 2, Idle, Waiting)
      case 14 =>
        && Client(s, u, 2) && Timer(s, u, Delegate(c, false, Ticking), running)
        && Box(s, Only(u), None, false) && Threads(s, 4, 3, AddingPoll(b, None), Waiting)
      case 15 =>
        && Client(s, u, 2) && Timer(s, u, Delegate(c, false, Ticking), running)
        && Box(s, Only(u), None, true) && Threads(s, 4, 3, SettingTime(b, u.mFutureTime, None), Waiting)
      case 16 =>
        && Client(s, u, 2) && Timer(s, u, Delegate(c, false, Ticking), running)
        && Box(s, Only(u), ut, true) && Threads(s, 4, 3, Idle, Waiting)
      case 17 =>
        && Client(s, u, 2) && Timer(s, u, Delegate(c, false, Popped), running)
        && Box(s, Empty, ut, true) && Threads(s, 4, 4, Expiring(b, now, Only(u), [u], u), Waiting)
      case _ =>
        && Client(s, null, 2) && Timer(s, u, Delegate(null, true, Popped), Outcome(1, 0))
        && Box(s, Empty, ut, true) && Threads(s, 5, 4, Popping(b, now, Only(u), [u]), Waiting)
    }

    /** Step `k` is possible and leads on. */
    ghost predicate Goes(k: nat, s: State)
      requires k < |Events()|
    {
      CanDo(s, Events()[k]) && At(k + 1, Next(s, Events()[k]))
    }
  }

  /** There are such timers: due after one second and after three, with two gone by. */
  method MakeRace() returns (r: Race)
    ensures r.Valid()
  {
    var client := new LocTimer();
    var container := new LocTimerContainer();
    var first := new LocTimerDelegate(client, Timespec(1, 0), container);
    var second := new LocTimerDelegate(client, Timespec(3, 0), container);
    r := Race(client, first, second, container, Timespec(2, 0));
  }

  lemma ReceiveFirstPush(s: State, b: LocTimerContainer, t: LocTimerDelegate, now: Timespec)
    requires CanReceive(s) && s.log[s.done] == MsgPush(b, t) && s.heaps[b].Empty?
    ensures Receive(s, now) == s.(done := s.done + 1, heaps := s.heaps[b := Only(t)],
                                  timers := s.timers[t := s.timers[t].(phase := Ticking)], msg := AddingPoll(b, None))
  {
  }

  lemma ReceiveLastRemove(s: State, b: LocTimerContainer, t: LocTimerDelegate, now: Timespec)
    requires CanReceive(s) && s.log[s.done] == MsgRemove(b, t) && s.heaps[b] == Only(t)
    ensures Receive(s, now) == s.(done := s.done + 1, heaps := s.heaps[b := Empty],
                                  timers := s.timers[t := s.timers[t].(phase := Leaving)], msg := Deleting(t))
  {
    assert Remove(Sooner, Only(t), t) == Removal(true, Empty);
    hide Remove;
  }

  lemma ReceiveExpireOfOne(s: State, b: LocTimerContainer, t: LocTimerDelegate, now: Timespec)
    requires CanReceive(s) && s.log[s.done] == MsgExpire(b) && s.heaps[b] == Only(t) && t in s.timers
    ensures Receive(s, now) == s.(done := s.done + 1, heaps := s.heaps[b := Empty],
                                  timers := s.timers[t := s.timers[t].(phase := Popped)],
                                  msg := Expiring(b, now, Only(t), [t], t))
  {
    assert [] + [t] == [t];
  }

  lemma FirstTimerIsStarted(r: Race, k: nat, s: State)
    requires r.Valid() && k < 2 && r.At(k, s)
    ensures r.Goes(k, s)
  {
    hide When, Nanos, Normalised, Near, Receive, Stop, StepPoll, CallExpire, PopNext, Delete, Drop;
    match k {
      case 0 =>
      case _ =>
    }
  }

  lemma FirstTimerIsPushed(r: Race, s: State)
    requires r.Valid() && r.At(2, s)
    ensures r.Goes(2, s)
  {
    hide When, Nanos, Normalised, Near, Receive, PopTop, Push, Remove, Pop;
    ReceiveFirstPush(s, r.b, r.t, r.now);
  }

  lemma FirstTimerIsArmed(r: Race, k: nat, s: State)
    requires r.Valid() && 3 <= k < 5 && r.At(k, s)
    ensures r.Goes(k, s)
  {
    hide When, Nanos, Normalised, Near, Receive, PopTop, Push, Remove, Pop;
    match k {
      case 3 =>
      case _ =>
    }
  }

  lemma FirstTimerIsStopped(r: Race, k: nat, s: State)
    requires r.Valid() && 5 <= k < 8 && r.At(k, s)
    ensures r.Goes(k, s)
  {
    hide When, Nanos, Normalised, Near, Receive, PopTop, Push, Remove, Pop;
    match k {
      case 5 =>
      case 6 => ReceiveLastRemove(s, r.b, r.t, r.now);
      case _ =>
    }
  }

  lemma KernelFires(r: Race, k: nat, s: State)
    requires r.Valid() && 8 <= k < 11 && r.At(k, s)
    ensures r.Goes(k, s)
  {
    hide Normalised, Near, Receive, PopTop, Push, Remove, Pop;
    match k {
      case 8 =>
      case 9 =>
      case _ =>
    }
  }

  lemma SecondTimerIsStarted(r: Race, k: nat, s: State)
    requires r.Valid() && 11 <= k < 13 && r.At(k, s)
    ensures r.Goes(k, s)
  {
    hide Normalised, Near, Receive, PopTop, Push, Remove, Pop;
    match k {
      case 11 =>
      case _ =>
    }
  }

  lemma SecondTimerIsArmed(r: Race, k: nat, s: State)
    requires r.Valid() && 13 <= k < 16 && r.At(k, s)
    ensures r.Goes(k, s)
  {
    hide When, Nanos, Normalised, Near, Receive, PopTop, Push, Remove, Pop;
    match k {
      case 13 => ReceiveFirstPush(s, r.b, r.u, r.now);
      case 14 =>
      case _ =>
    }
  }

  lemma SecondTimerIsPopped(r: Race, k: nat, s: State)
    requires r.Valid() && 16 <= k < 18 && r.At(k, s)
    ensures r.Goes(k, s)
  {
    hide When, Nanos, Normalised, Near, Receive, PopTop, Push, Remove, Pop;
    match k {
      case 16 => ReceiveExpireOfOne(s, r.b, r.u, r.now);
      case _ =>
    }
  }

  lemma {:induction false} RunIsAt(r: Race, k: nat)
    requires r.Valid() && k <= |r.Events()|
    ensures r.At(k, r.Run(k))
    ensures k < |r.Events()| ==> r.Goes(k, r.Run(k))
  {
    hide CanDo, Next, Initial;
    if k == 0 {
    } else {
      RunIsAt(r, k - 1);
    }
    hide r.At, r.Goes;
    var s := r.Run(k);
    if k < 2 {
      FirstTimerIsStarted(r, k, s);
    } else if k < 3 {
      FirstTimerIsPushed(r, s);
    } else if k < 5 {
      FirstTimerIsArmed(r, k, s);
    } else if k < 8 {
      FirstTimerIsStopped(r, k, s);
    } else if k < 11 {
      KernelFires(r, k, s);
    } else if k < 13 {
      SecondTimerIsStarted(r, k, s);
    } else if k < 16 {
      SecondTimerIsArmed(r, k, s);
    } else if k < 18 {
      SecondTimerIsPopped(r, k, s);
    }
  }

  // ---- The two ends ----

  lemma RunOfRace(r: Race, n: nat) returns (states: seq<State>, events: seq<Event>)
    requires r.Valid() && n <= |r.Events()|
    ensures IsRun(states, events) && events == r.Events()[..n] && states[n] == r.Run(n)
  {
    RunBegins(r);
    hide CanDo, Next, Initial, r.Events, r.Run, r.Valid;
    states, events := seq(n + 1, k requires 0 <= k <= n => r.Run(k)), r.Events()[..n];
    forall i | 0 <= i < n
      ensures CanDo(states[i], events[i]) && states[i + 1] == Next(states[i], events[i])
    {
      RunGoes(r, i);
    }
  }

  lemma RunBegins(r: Race)
    ensures Initial(r.Run(0))
  {
  }

  lemma RunGoes(r: Race, k: nat)
    requires r.Valid() && k < |r.Events()|
    ensures CanDo(r.Run(k), r.Events()[k]) && r.Run(k + 1) == Next(r.Run(k), r.Events()[k])
  {
    hide CanDo, Next, r.At, r.Events, r.Valid;
    RunIsAt(r, k);
  }

  /** A run in which the only timer is started and stopped, the message thread has done all it
    * has to, and the kernel is still armed for the timer that is gone.
    */
  lemma KernelStaysArmed(r: Race) returns (states: seq<State>, events: seq<Event>)
    requires r.Valid()
    ensures IsRun(states, events)
    ensures var s := states[|events|];
      && s.msg.Idle? && s.poll.Waiting? && s.done == |s.log|
      && s.timers == map[] && r.b in s.heaps && s.heaps[r.b].Empty?
      && r.b in s.polled && r.b in s.armed && s.armed[r.b] == Some(r.t.mFutureTime)
  {
    hide IsRun, CanDo, Next;
    states, events := RunOfRace(r, 8);
    RunIsAt(r, 8);
  }

  /** From there the run goes on to call the client back for a timer that is not due: the kernel
    * fires for the old timer, the client starts a new one before the poll thread sends its
    * Expire, and the first pop looks at no deadline.
    */
  lemma CalledBackBeforeItsTime(r: Race) returns (states: seq<State>, events: seq<Event>)
    requires r.Valid()
    ensures IsRun(states, events)
    ensures forall e | e in events && (e.EvReceive? || e.EvWake?) :: e.now == r.now
    ensures var s := states[|events|];
      r.u in s.outcomes && s.outcomes[r.u] == Outcome(1, 0) && Nanos(r.now) < When(r.u)
  {
    hide IsRun, CanDo, Next;
    states, events := RunOfRace(r, 18);
    RunIsAt(r, 18);
  }
}
