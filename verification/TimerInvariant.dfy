/** What every reachable state of the timer service keeps. Each part of the invariant takes
  * only the parts of the state it speaks of.
  */
module TimerInvariant {
  import opened LocTimer
  import opened Options
  import opened RankedTree
  import opened Timespec
  import opened TimerProtocol

  type Timers = map<LocTimerDelegate, Delegate>
  type Heaps = map<LocTimerContainer, Heap>

  ghost predicate HeapsOk(heaps: Heaps) {
    forall b | b in heaps :: IsHeap(Sooner, heaps[b])
  }

  /** Live deadlines are less than 2^31 seconds apart. */
  ghost predicate DeadlinesOk(timers: set<LocTimerDelegate>) {
    && (forall t | t in timers :: IsDeadline(t.mFutureTime))
    && (forall t, u | t in timers && u in timers :: Near(t.mFutureTime, u.mFutureTime))
  }

  /** The ticking timers, and no others, are in the heaps: each once and in its own. */
  ghost predicate PlacesOk(timers: Timers, heaps: Heaps) {
    && (forall t | t in timers :: t.home in heaps)
    && (forall b, t | b in heaps && t in Elements(heaps[b]) :: t in timers)
    && (forall b, t | b in heaps && t in timers ::
          Elements(heaps[b])[t] == if t.home == b && timers[t].phase.Ticking? then 1 else 0)
  }

  ghost predicate IsRemoved(timers: Timers, t: LocTimerDelegate) {
    t !in timers || timers[t].stopped
  }

  /** Each delegate is the subject of one Push and, once it is stopped, of one Remove behind it.
    * Messages that are still waiting speak of live delegates only.
    */
  ghost predicate LogOk(timers: Timers, boxes: set<LocTimerContainer>, created: set<LocTimerDelegate>,
                        log: seq<Msg>, done: nat)
    requires done <= |log|
  {
    && timers.Keys <= created
    && MessagesOk(timers, boxes, created, log, done)
    && SentOnce(log)
    && SubjectsOk(timers, created, log)
  }

  ghost predicate MessagesOk(timers: Timers, boxes: set<LocTimerContainer>, created: set<LocTimerDelegate>,
                             log: seq<Msg>, done: nat)
  {
    forall i | 0 <= i < |log| :: MessageOk(timers, boxes, created, log[i], i < done)
  }

  ghost predicate SentOnce(log: seq<Msg>) {
    && (forall i, j | 0 <= i < j < |log| :: log[i] == log[j] ==> log[i].MsgExpire?)
    && (forall i, j | 0 <= i < j < |log| :: log[j].MsgPush? ==> log[i] != MsgRemove(log[j].box, log[j].timer))
  }

  ghost predicate SubjectsOk(timers: Timers, created: set<LocTimerDelegate>, log: seq<Msg>) {
    forall t | t in created ::
      && MsgPush(t.home, t) in log
      && (MsgRemove(t.home, t) in log <==> IsRemoved(timers, t))
  }

  ghost predicate MessageOk(timers: Timers, boxes: set<LocTimerContainer>, created: set<LocTimerDelegate>,
                            m: Msg, received: bool)
  {
    && m.box in boxes
    && (!m.MsgExpire? ==> m.timer in created && m.box == m.timer.home)
    && (m.MsgPush? ==>
          if received then m.timer in timers ==> !timers[m.timer].phase.Queued?
          else m.timer in timers && timers[m.timer].phase.Queued?)
    && (m.MsgRemove? ==>
          if received then m.timer in timers ==> timers[m.timer].phase.Leaving?
          else m.timer in timers && timers[m.timer].stopped && !timers[m.timer].phase.Leaving?)
  }

  /** Clients and delegates point at each other until the timer is stopped. By then exactly
    * one of two things has happened: the callback, or a stop that returned true.
    */
  ghost predicate ClientsOk(clients: map<LocTimer, LocTimerDelegate?>, timers: Timers,
                            outcomes: map<LocTimerDelegate, Outcome>)
  {
    && (forall c | c in clients ::
          clients[c] != null ==> clients[c] in timers && timers[clients[c]].client == c)
    && (forall t | t in timers ::
          && (timers[t].client == null <==> timers[t].stopped)
          && (timers[t].client != null ==> timers[t].client in clients && clients[timers[t].client] == t))
    && (forall t | t in timers :: t in outcomes)
    && (forall t | t in outcomes ::
          outcomes[t].callbacks + outcomes[t].stops == if IsRemoved(timers, t) then 1 else 0)
  }

  ghost function ClientsOf(clients: set<LocTimer>, lock: LocSharedLock): set<LocTimer> {
    set c | c in clients && c.mLock == lock
  }

  ghost function TimersOf(timers: set<LocTimerDelegate>, lock: LocSharedLock): set<LocTimerDelegate> {
    set t | t in timers && t.mLock == lock
  }

  /** The users of a lock: live clients and delegates not yet deleted. */
  ghost function Users(clients: set<LocTimer>, timers: set<LocTimerDelegate>, lock: LocSharedLock): nat {
    |ClientsOf(clients, lock)| + |TimersOf(timers, lock)|
  }

  /** A lock exists exactly as long as it has users, and it counts them. */
  ghost predicate LocksOk(clients: set<LocTimer>, timers: set<LocTimerDelegate>, locks: map<LocSharedLock, int>) {
    && (forall k | k in locks :: locks[k] == Users(clients, timers, k) > 0)
    && (forall c | c in clients :: c.mLock in locks)
    && (forall t | t in timers :: t.mLock in locks)
  }

  ghost function Doomed(msg: MsgThread): Option<LocTimerDelegate> {
    match msg
    case AddingPoll(_, d) => d
    case RemovingPoll(_, d) => d
    case SettingTime(_, _, d) => d
    case Deleting(d) => Some(d)
    case _ => None
  }

  ghost predicate MsgOk(msg: MsgThread, timers: Timers, heaps: Heaps) {
    && (Doomed(msg).Some? ==> Doomed(msg).value in timers)
    && (forall t | t in timers ::
          && (timers[t].phase.Leaving? <==> Doomed(msg) == Some(t))
          && (timers[t].phase.Leaving? ==> timers[t].stopped)
          && (timers[t].phase.Popped? && !timers[t].stopped ==> msg.Expiring? && msg.current == t))
    && (msg.AddingPoll? ==> msg.box in heaps && heaps[msg.box].Node?)
    && !msg.RemovingPoll?
    && (msg.SettingTime? ==>
          && msg.box in heaps && heaps[msg.box].Node?
          && msg.time == heaps[msg.box].data.mFutureTime)
    && (msg.Expiring? ==>
          && msg.box in heaps && msg.current in timers && timers[msg.current].phase.Popped?
          && msg.popped != [] && msg.popped[|msg.popped| - 1] == msg.current
          && Drained(msg.start, msg.now, msg.popped, heaps[msg.box]))
    && (msg.Popping? ==> msg.box in heaps && Drained(msg.start, msg.now, msg.popped, heaps[msg.box]))
  }

  ghost function When(t: LocTimerDelegate): int {
    Nanos(t.mFutureTime)
  }

  /** How far the handling of an Expire message has come: `popped` are the soonest timers of
    * `start`, soonest first, of which all but the first were due, and `rest` are the others.
    */
  ghost predicate Drained(start: Heap, now: Timespec, popped: seq<LocTimerDelegate>, rest: Heap) {
    && start.Node? && popped != [] && popped[0] == start.data
    && multiset(popped) + Elements(rest) == Elements(start)
    && SoonestFirst(now, popped, rest)
  }

  ghost predicate SoonestFirst(now: Timespec, popped: seq<LocTimerDelegate>, rest: Heap) {
    && (forall i, j | 0 <= i < j < |popped| :: When(popped[i]) <= When(popped[j]))
    && (forall i | 0 < i < |popped| :: When(popped[i]) <= Nanos(now))
    && (forall i, t | 0 <= i < |popped| && t in Elements(rest) :: When(popped[i]) <= When(t))
    && Normalised(now)
    && (forall t | t in Elements(rest) :: Near(now, t.mFutureTime))
  }

  // ---- No timer is lost ----

  /** An Expire for this container is on its way: the poll thread is bound to send it, or it
    * waits in the queue.
    */
  ghost predicate InFlight(box: LocTimerContainer, poll: PollThread, log: seq<Msg>, done: nat)
    requires done <= |log|
  {
    (poll.Handling? && box in poll.todo) || MsgExpire(box) in log[done..]
  }

  /** The message thread is about to settle what the kernel is armed for. */
  ghost predicate Settling(box: LocTimerContainer, msg: MsgThread) {
    !msg.Idle? && !msg.Deleting? && msg.box == box
  }

  ghost predicate ArmedForTop(box: LocTimerContainer, heap: Heap, armed: map<LocTimerContainer, Option<Timespec>>,
                              polled: set<LocTimerContainer>)
    requires heap.Node?
  {
    box in polled && box in armed && armed[box] == Some(heap.data.mFutureTime)
  }

  ghost predicate NoTimerLost(heaps: Heaps, armed: map<LocTimerContainer, Option<Timespec>>,
                              polled: set<LocTimerContainer>, msg: MsgThread, poll: PollThread,
                              log: seq<Msg>, done: nat)
    requires done <= |log|
  {
    && (forall b | b in heaps && heaps[b].Node? ::
          Settling(b, msg) || InFlight(b, poll, log, done) || ArmedForTop(b, heaps[b], armed, polled))
    && (msg.SettingTime? ==> msg.box in polled || InFlight(msg.box, poll, log, done))
    && (poll.Handling? ==> poll.todo != [] && forall b | b in poll.todo :: b in heaps)
    && heaps.Keys == armed.Keys
  }

  ghost predicate Inv(s: State) {
    && s.done <= |s.log|
    && HeapsOk(s.heaps)
    && DeadlinesOk(s.timers.Keys)
    && PlacesOk(s.timers, s.heaps)
    && LogOk(s.timers, s.heaps.Keys, s.outcomes.Keys, s.log, s.done)
    && ClientsOk(s.clients, s.timers, s.outcomes)
    && LocksOk(s.clients.Keys, s.timers.Keys, s.locks)
    && MsgOk(s.msg, s.timers, s.heaps)
    && NoTimerLost(s.heaps, s.armed, s.polled, s.msg, s.poll, s.log, s.done)
  }

  // ---- Facts used in several steps ----

  lemma LiveTimersRankWell(timers: set<LocTimerDelegate>)
    requires DeadlinesOk(timers)
    ensures RanksWell(Sooner, timers)
    ensures forall t, u | t in timers && u in timers :: Sooner(t, u) <==> When(t) < When(u)
  {
    forall t, u | t in timers && u in timers
      ensures Sooner(t, u) <==> When(t) < When(u)
    {
      RanksComparesTimes(t.mFutureTime, u.mFutureTime);
    }
  }

  lemma OneUserMore(clients: set<LocTimer>, timers: set<LocTimerDelegate>, t: LocTimerDelegate, k: LocSharedLock)
    requires t !in timers
    ensures Users(clients, timers + {t}, k) == Users(clients, timers, k) + if t.mLock == k then 1 else 0
  {
    if t.mLock == k {
      assert TimersOf(timers + {t}, k) == TimersOf(timers, k) + {t};
    } else {
      assert TimersOf(timers + {t}, k) == TimersOf(timers, k);
    }
  }

  lemma OneClientMore(clients: set<LocTimer>, timers: set<LocTimerDelegate>, c: LocTimer, k: LocSharedLock)
    requires c !in clients
    ensures Users(clients + {c}, timers, k) == Users(clients, timers, k) + if c.mLock == k then 1 else 0
  {
    if c.mLock == k {
      assert ClientsOf(clients + {c}, k) == ClientsOf(clients, k) + {c};
    } else {
      assert ClientsOf(clients + {c}, k) == ClientsOf(clients, k);
    }
  }

  // ---- Locks ----

  lemma LocksCoverUsers(clients: set<LocTimer>, timers: set<LocTimerDelegate>,
                        before: set<LocSharedLock>, after: set<LocSharedLock>)
    requires forall c | c in clients :: c.mLock in before
    requires forall t | t in timers :: t.mLock in before
    requires forall k | k in before :: k in after <==> Users(clients, timers, k) > 0
    ensures forall c | c in clients :: c.mLock in after
    ensures forall t | t in timers :: t.mLock in after
  {
    forall c | c in clients
      ensures c.mLock in after
    {
      assert c in ClientsOf(clients, c.mLock);
    }
    forall t | t in timers
      ensures t.mLock in after
    {
      assert t in TimersOf(timers, t.mLock);
    }
  }

  lemma CreateKeepsLocks(clients: set<LocTimer>, timers: set<LocTimerDelegate>, locks: map<LocSharedLock, int>, c: LocTimer)
    requires LocksOk(clients, timers, locks) && c !in clients && c.mLock !in locks
    ensures LocksOk(clients + {c}, timers, locks[c.mLock := 1])
  {
    assert ClientsOf(clients, c.mLock) == {} && TimersOf(timers, c.mLock) == {};
    forall k | k in locks || k == c.mLock
      ensures locks[c.mLock := 1][k] == Users(clients + {c}, timers, k) > 0
    {
      OneClientMore(clients, timers, c, k);
    }
  }

  lemma DestroyKeepsLocks(clients: set<LocTimer>, timers: set<LocTimerDelegate>, locks: map<LocSharedLock, int>, c: LocTimer)
    requires LocksOk(clients + {c}, timers, locks) && c !in clients
    ensures LocksOk(clients, timers, Drop(locks, c.mLock))
  {
    forall k | k in locks
      ensures k in Drop(locks, c.mLock) <==> Users(clients, timers, k) > 0
      ensures k in Drop(locks, c.mLock) ==> Drop(locks, c.mLock)[k] == Users(clients, timers, k)
    {
      OneClientMore(clients, timers, c, k);
    }
    LocksCoverUsers(clients, timers, locks.Keys, Drop(locks, c.mLock).Keys);
  }

  lemma StartKeepsLocks(clients: set<LocTimer>, timers: set<LocTimerDelegate>, locks: map<LocSharedLock, int>, t: LocTimerDelegate)
    requires LocksOk(clients, timers, locks) && t !in timers && t.mLock in locks
    ensures LocksOk(clients, timers + {t}, locks[t.mLock := locks[t.mLock] + 1])
  {
    forall k | k in locks
      ensures locks[t.mLock := locks[t.mLock] + 1][k] == Users(clients, timers + {t}, k)
    {
      OneUserMore(clients, timers, t, k);
    }
  }

  lemma DeleteKeepsLocks(clients: set<LocTimer>, timers: set<LocTimerDelegate>, locks: map<LocSharedLock, int>, t: LocTimerDelegate)
    requires LocksOk(clients, timers + {t}, locks) && t !in timers
    ensures LocksOk(clients, timers, Drop(locks, t.mLock))
  {
    forall k | k in locks
      ensures k in Drop(locks, t.mLock) <==> Users(clients, timers, k) > 0
      ensures k in Drop(locks, t.mLock) ==> Drop(locks, t.mLock)[k] == Users(clients, timers, k)
    {
      OneUserMore(clients, timers, t, k);
    }
    LocksCoverUsers(clients, timers, locks.Keys, Drop(locks, t.mLock).Keys);
  }

  // ---- The log ----

  lemma StartKeepsLog(timers: Timers, boxes: set<LocTimerContainer>, created: set<LocTimerDelegate>,
                      log: seq<Msg>, done: nat, t: LocTimerDelegate, d: Delegate)
    requires done <= |log| && LogOk(timers, boxes, created, log, done)
    requires t !in created && t.home in boxes && d.phase.Queued? && !d.stopped
    ensures LogOk(timers[t := d], boxes, created + {t}, log + [MsgPush(t.home, t)], done)
  {
  }

  lemma StopKeepsLog(timers: Timers, boxes: set<LocTimerContainer>, created: set<LocTimerDelegate>,
                     log: seq<Msg>, done: nat, t: LocTimerDelegate, d: Delegate)
    requires done <= |log| && LogOk(timers, boxes, created, log, done)
    requires t in timers && t.home in boxes && !timers[t].stopped && !timers[t].phase.Leaving?
    requires d.stopped && d.phase == timers[t].phase
    ensures LogOk(timers[t := d], boxes, created, log + [MsgRemove(t.home, t)], done)
  {
  }

  /** A delegate leaves the queue, or the heap; it is not queued and not leaving afterwards. */
  lemma MoveKeepsLog(timers: Timers, boxes: set<LocTimerContainer>, created: set<LocTimerDelegate>,
                     log: seq<Msg>, done: nat, t: LocTimerDelegate, phase: Phase)
    requires done <= |log| && LogOk(timers, boxes, created, log, done) && t in timers
    requires timers[t].phase.Ticking? && phase.Popped?
    ensures LogOk(timers[t := timers[t].(phase := phase)], boxes, created, log, done)
  {
  }

  lemma PushKeepsLog(timers: Timers, boxes: set<LocTimerContainer>, created: set<LocTimerDelegate>,
                     log: seq<Msg>, done: nat, t: LocTimerDelegate)
    requires done <= |log| && LogOk(timers, boxes, created, log, done)
    requires done < |log| && log[done].MsgPush? && log[done].timer == t
    ensures t in timers
    ensures LogOk(timers[t := timers[t].(phase := Ticking)], boxes, created, log, done + 1)
  {
    assert MessageOk(timers, boxes, created, log[done], false);
  }

  lemma RemoveKeepsLog(timers: Timers, boxes: set<LocTimerContainer>, created: set<LocTimerDelegate>,
                       log: seq<Msg>, done: nat, t: LocTimerDelegate)
    requires done <= |log| && LogOk(timers, boxes, created, log, done)
    requires done < |log| && log[done].MsgRemove? && log[done].timer == t
    ensures t in timers && timers[t].stopped && !timers[t].phase.Leaving? && !timers[t].phase.Queued?
    ensures LogOk(timers[t := timers[t].(phase := Leaving)], boxes, created, log, done + 1)
  {
    assert MessageOk(timers, boxes, created, log[done], false);
  }

  lemma DeleteKeepsLog(timers: Timers, boxes: set<LocTimerContainer>, created: set<LocTimerDelegate>,
                       log: seq<Msg>, done: nat, t: LocTimerDelegate)
    requires done <= |log| && LogOk(timers, boxes, created, log, done)
    requires t in timers && timers[t].phase.Leaving? && timers[t].stopped
    ensures LogOk(timers - {t}, boxes, created, log, done)
  {
  }

  lemma ExpireKeepsLog(timers: Timers, boxes: set<LocTimerContainer>, created: set<LocTimerDelegate>,
                       log: seq<Msg>, done: nat, b: LocTimerContainer)
    requires done <= |log| && LogOk(timers, boxes, created, log, done) && b in boxes
    ensures LogOk(timers, boxes, created, log + [MsgExpire(b)], done)
    ensures done < |log| && log[done].MsgExpire? ==> LogOk(timers, boxes, created, log, done + 1)
  {
  }

  // ---- Clients and delegates ----

  lemma CreateKeepsClients(clients: map<LocTimer, LocTimerDelegate?>, timers: Timers,
                           outcomes: map<LocTimerDelegate, Outcome>, c: LocTimer)
    requires ClientsOk(clients, timers, outcomes) && c !in clients
    ensures ClientsOk(clients[c := null], timers, outcomes)
  {
  }

  lemma DestroyKeepsClients(clients: map<LocTimer, LocTimerDelegate?>, timers: Timers,
                            outcomes: map<LocTimerDelegate, Outcome>, c: LocTimer)
    requires ClientsOk(clients, timers, outcomes) && c in clients && clients[c] == null
    ensures ClientsOk(clients - {c}, timers, outcomes)
  {
  }

  lemma StartKeepsClients(clients: map<LocTimer, LocTimerDelegate?>, timers: Timers,
                          outcomes: map<LocTimerDelegate, Outcome>, c: LocTimer, t: LocTimerDelegate)
    requires ClientsOk(clients, timers, outcomes)
    requires c in clients && clients[c] == null && t !in outcomes && t !in timers
    ensures ClientsOk(clients[c := t], timers[t := Delegate(c, false, Queued)], outcomes[t := Outcome(0, 0)])
  {
  }

  /** The step that makes a stopped timer's outcome one, once and for all. */
  lemma StopKeepsClients(clients: map<LocTimer, LocTimerDelegate?>, timers: Timers,
                         outcomes: map<LocTimerDelegate, Outcome>, c: LocTimer, d: Delegate, outcome: Outcome)
    requires ClientsOk(clients, timers, outcomes)
    requires c in clients && clients[c] != null
    requires d.stopped && d.client == null
    requires outcome.callbacks + outcome.stops == outcomes[clients[c]].callbacks + outcomes[clients[c]].stops + 1
    ensures ClientsOk(clients[c := null], timers[clients[c] := d], outcomes[clients[c] := outcome])
  {
  }

  lemma MoveKeepsClients(clients: map<LocTimer, LocTimerDelegate?>, timers: Timers,
                         outcomes: map<LocTimerDelegate, Outcome>, t: LocTimerDelegate, phase: Phase)
    requires ClientsOk(clients, timers, outcomes) && t in timers
    ensures ClientsOk(clients, timers[t := timers[t].(phase := phase)], outcomes)
  {
  }

  lemma DeleteKeepsClients(clients: map<LocTimer, LocTimerDelegate?>, timers: Timers,
                           outcomes: map<LocTimerDelegate, Outcome>, t: LocTimerDelegate)
    requires ClientsOk(clients, timers, outcomes) && t in timers && timers[t].stopped
    ensures ClientsOk(clients, timers - {t}, outcomes)
  {
  }

  // ---- Places ----

  lemma StartKeepsPlaces(timers: Timers, heaps: Heaps, t: LocTimerDelegate, d: Delegate)
    requires PlacesOk(timers, heaps) && t !in timers && t.home in heaps && !d.phase.Ticking?
    ensures PlacesOk(timers[t := d], heaps)
  {
  }

  lemma StopKeepsPlaces(timers: Timers, heaps: Heaps, t: LocTimerDelegate, d: Delegate)
    requires PlacesOk(timers, heaps) && t in timers && d.phase == timers[t].phase
    ensures PlacesOk(timers[t := d], heaps)
  {
  }

  lemma DeleteKeepsPlaces(timers: Timers, heaps: Heaps, t: LocTimerDelegate)
    requires PlacesOk(timers, heaps) && t in timers && !timers[t].phase.Ticking?
    ensures PlacesOk(timers - {t}, heaps)
  {
  }

  /** A delegate enters its heap. */
  lemma EnterKeepsPlaces(timers: Timers, heaps: Heaps, t: LocTimerDelegate, heap: Heap)
    requires PlacesOk(timers, heaps) && t in timers && !timers[t].phase.Ticking?
    requires Elements(heap) == Elements(heaps[t.home]) + multiset{t}
    ensures PlacesOk(timers[t := timers[t].(phase := Ticking)], heaps[t.home := heap])
  {
    hide Elements;
    var timers', heaps' := timers[t := timers[t].(phase := Ticking)], heaps[t.home := heap];
    forall b, u | b in heaps' && u in timers'
      ensures Elements(heaps'[b])[u] == if u.home == b && timers'[u].phase.Ticking? then 1 else 0
    {
      assert Elements(heaps[b])[u] == if u.home == b && timers[u].phase.Ticking? then 1 else 0;
    }
    forall b, u | b in heaps' && u in Elements(heaps'[b])
      ensures u in timers'
    {
      assert u == t || u in Elements(heaps[b]);
    }
  }

  lemma OneHeapIsLess(heaps: Heaps, home: LocTimerContainer, heap: Heap, t: LocTimerDelegate, live: set<LocTimerDelegate>)
    requires home in heaps && Elements(heaps[home])[t] <= 1
    requires forall b | b in heaps && b != home :: Elements(heaps[b])[t] == 0
    requires t in Elements(heaps[home]) ==> Elements(heaps[home]) == Elements(heap) + multiset{t}
    requires t !in Elements(heaps[home]) ==> heap == heaps[home]
    ensures var heaps' := heaps[home := heap];
      && (forall b, u | b in heaps' && u in live ::
            Elements(heaps'[b])[u] == if u == t then 0 else Elements(heaps[b])[u])
      && (forall b, u | b in heaps' && u in Elements(heaps'[b]) :: u in Elements(heaps[b]))
  {
    hide Elements;
  }

  /** A delegate leaves its heap, if it is there. */
  lemma LeaveKeepsPlaces(timers: Timers, heaps: Heaps, t: LocTimerDelegate, heap: Heap, phase: Phase)
    requires PlacesOk(timers, heaps) && t in timers && !phase.Ticking?
    requires t in Elements(heaps[t.home]) ==> Elements(heaps[t.home]) == Elements(heap) + multiset{t}
    requires t !in Elements(heaps[t.home]) ==> heap == heaps[t.home]
    ensures PlacesOk(timers[t := timers[t].(phase := phase)], heaps[t.home := heap])
  {
    hide PlacesOk, Elements;
    IsAtHome(timers, heaps, t);
    OneHeapIsLess(heaps, t.home, heap, t, timers.Keys);
    LeftPlacesAreOk(timers, heaps, t, timers[t := timers[t].(phase := phase)], heaps[t.home := heap]);
  }

  lemma IsAtHome(timers: Timers, heaps: Heaps, t: LocTimerDelegate)
    requires PlacesOk(timers, heaps) && t in timers
    ensures t.home in heaps && Elements(heaps[t.home])[t] <= 1
    ensures forall b | b in heaps && b != t.home :: Elements(heaps[b])[t] == 0
  {
    hide Elements;
  }

  lemma LeftPlacesAreOk(timers: Timers, heaps: Heaps, t: LocTimerDelegate, timers': Timers, heaps': Heaps)
    requires PlacesOk(timers, heaps) && heaps'.Keys == heaps.Keys && timers'.Keys == timers.Keys && t in timers
    requires !timers'[t].phase.Ticking? && forall u | u in timers && u != t :: timers'[u] == timers[u]
    requires forall b, u | b in heaps' && u in timers ::
      Elements(heaps'[b])[u] == if u == t then 0 else Elements(heaps[b])[u]
    requires forall b, u | b in heaps' && u in Elements(heaps'[b]) :: u in Elements(heaps[b])
    ensures PlacesOk(timers', heaps')
  {
    hide Elements;
  }

  // ---- Expiry ----

  lemma HeapOfLiveTimers(timers: Timers, heaps: Heaps, b: LocTimerContainer)
    requires PlacesOk(timers, heaps) && b in heaps
    ensures Within(heaps[b], timers.Keys)
  {
  }

  /** Popping a heap of live timers leaves only timers that are not sooner. */
  lemma PopTakesSoonest(heap: Heap, live: set<LocTimerDelegate>)
    requires heap.Node? && IsHeap(Sooner, heap) && DeadlinesOk(live) && Within(heap, live)
    ensures var rest := Pop(Sooner, heap);
      && IsHeap(Sooner, rest)
      && heap.data in live
      && Elements(heap) == Elements(rest) + multiset{heap.data}
      && (forall t | t in Elements(rest) :: t in Elements(heap) && t in live && When(heap.data) <= When(t))
  {
    LiveTimersRankWell(live);
    PopKeepsHeap(Sooner, heap, live);
    TopIsAnElement(heap);
    hide Elements, IsHeap;
  }

  lemma MoveOne(popped: seq<LocTimerDelegate>, t: LocTimerDelegate,
                before: multiset<LocTimerDelegate>, after: multiset<LocTimerDelegate>)
    requires before == after + multiset{t}
    ensures multiset(popped + [t]) + after == multiset(popped) + before
  {
    assert multiset(popped + [t]) == multiset(popped) + multiset{t};
  }

  lemma PopKeepsSoonestFirst(now: Timespec, popped: seq<LocTimerDelegate>, rest: Heap, t: LocTimerDelegate, rest': Heap)
    requires SoonestFirst(now, popped, rest) && t in Elements(rest) && When(t) <= Nanos(now)
    requires forall u | u in Elements(rest') :: u in Elements(rest) && When(t) <= When(u)
    ensures SoonestFirst(now, popped + [t], rest')
  {
    hide Elements;
  }

  /** The next pop takes the soonest of what is left. */
  lemma PopExtendsDrained(start: Heap, now: Timespec, popped: seq<LocTimerDelegate>, rest: Heap, live: set<LocTimerDelegate>)
    requires Drained(start, now, popped, rest) && rest.Node? && IsHeap(Sooner, rest)
    requires DeadlinesOk(live) && Within(rest, live) && !OutRanks(now, rest.data.mFutureTime)
    ensures Drained(start, now, popped + [rest.data], Pop(Sooner, rest))
  {
    PopTakesSoonest(rest, live);
    TopIsAnElement(rest);
    RanksComparesTimes(now, rest.data.mFutureTime);
    PopKeepsSoonestFirst(now, popped, rest, rest.data, Pop(Sooner, rest));
    hide Elements, SoonestFirst, IsHeap, Pop, OutRanks;
    MoveOne(popped, rest.data, Elements(rest), Elements(Pop(Sooner, rest)));
  }

  lemma FirstPopIsDrained(start: Heap, now: Timespec, live: set<LocTimerDelegate>)
    requires start.Node? && IsHeap(Sooner, start) && DeadlinesOk(live) && Within(start, live)
    requires Normalised(now) && forall t | t in live :: Near(now, t.mFutureTime)
    ensures Drained(start, now, [start.data], Pop(Sooner, start))
  {
    hide Elements, IsHeap, Pop, DeadlinesOk, Near, When, Within;
    PopTakesSoonest(start, live);
    var rest := Pop(Sooner, start);
    assert forall u | u in Elements(rest) :: u in live && When(start.data) <= When(u);
    FirstPopIsSoonest(now, start.data, rest, live);
    hide SoonestFirst;
    MoveOne([], start.data, Elements(start), Elements(rest));
    assert [] + [start.data] == [start.data];
  }

  lemma FirstPopIsSoonest(now: Timespec, t: LocTimerDelegate, rest: Heap, live: set<LocTimerDelegate>)
    requires Normalised(now) && forall u | u in live :: Near(now, u.mFutureTime)
    requires forall u | u in Elements(rest) :: u in live && When(t) <= When(u)
    ensures SoonestFirst(now, [t], rest)
  {
    hide Elements, Near, When;
  }

  /** When the loop of an Expire message ends, it has popped the old top and every other timer
    * that was due, soonest first, and only later timers are left.
    */
  lemma ExpireTakesWhatIsDue(start: Heap, now: Timespec, popped: seq<LocTimerDelegate>, rest: Heap, live: set<LocTimerDelegate>)
    requires Drained(start, now, popped, rest) && IsHeap(Sooner, rest)
    requires DeadlinesOk(live) && Within(rest, live)
    requires rest.Node? ==> OutRanks(now, rest.data.mFutureTime)
    ensures multiset(popped) + Elements(rest) == Elements(start) && popped[0] == start.data
    ensures forall i, j | 0 <= i < j < |popped| :: When(popped[i]) <= When(popped[j])
    ensures forall i | 0 < i < |popped| :: When(popped[i]) <= Nanos(now)
    ensures forall t | t in Elements(rest) :: When(t) > Nanos(now)
    ensures When(start.data) <= Nanos(now) <==> forall t | t in multiset(popped) :: When(t) <= Nanos(now)
  {
    if rest.Node? {
      TopIsAnElement(rest);
      RanksComparesTimes(now, rest.data.mFutureTime);
      PopTakesSoonest(rest, live);
      hide Elements, IsHeap, Pop, OutRanks;
      forall t | t in Elements(rest)
        ensures When(t) > Nanos(now)
      {
        assert t == rest.data || t in Elements(Pop(Sooner, rest));
      }
    }
    hide Elements, IsHeap;
    forall t | t in multiset(popped)
      ensures t == start.data || When(t) <= Nanos(now)
    {
      var i :| 0 <= i < |popped| && popped[i] == t;
    }
    assert start.data in multiset(popped);
  }
}
