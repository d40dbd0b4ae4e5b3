/** The timer service over its objects. Each method is one step of one thread: it makes the
  * changes that the code makes between two points where threads can switch, and is shown to be
  * the step of the same name of the state machine. `s` is the state that the objects are in.
  */
module TimerService {
  import opened LocTimer
  import opened Options
  import opened RankedTree
  import opened Timespec
  import opened TimerProtocol
  import opened TimerInvariant
  import opened TimerSafety

  ghost predicate ClientsAre(clients: map<LocTimer, LocTimerDelegate?>)
    reads clients.Keys`mTimer
  {
    forall c | c in clients :: c.mTimer == clients[c]
  }

  ghost predicate TimersAre(timers: Timers)
    reads timers.Keys`mClient, timers.Keys`mContainer
  {
    forall t | t in timers ::
      t.mClient == timers[t].client && t.mContainer == if timers[t].stopped then null else t.home
  }

  ghost predicate LocksAre(locks: map<LocSharedLock, int>)
    reads locks.Keys`mRef
  {
    forall k | k in locks :: k.mRef == locks[k]
  }

  ghost predicate BoxesAre(heaps: Heaps, armed: map<LocTimerContainer, Option<Timespec>>, polled: set<LocTimerContainer>)
    reads heaps.Keys`heap, heaps.Keys`armed, heaps.Keys`polled
  {
    && heaps.Keys == armed.Keys
    && forall b | b in heaps :: b.heap == heaps[b] && b.armed == armed[b] && (b.polled <==> b in polled)
  }

  class TimerService {
    var queue: seq<Msg>
    var msg: MsgThread
    var poll: PollThread

    ghost predicate Matches(s: State)
      reads this, s.clients.Keys`mTimer, s.timers.Keys`mClient, s.timers.Keys`mContainer, s.locks.Keys`mRef
      reads s.heaps.Keys`heap, s.heaps.Keys`armed, s.heaps.Keys`polled
    {
      && ClientsAre(s.clients) && TimersAre(s.timers) && LocksAre(s.locks)
      && BoxesAre(s.heaps, s.armed, s.polled)
      && s.done <= |s.log| && queue == s.log[s.done..]
      && msg == s.msg && poll == s.poll
    }

    static lemma Appended(log: seq<Msg>, done: nat, m: Msg)
      requires done <= |log|
      ensures (log + [m])[done..] == log[done..] + [m]
    {
    }

    /** The delegate of a timer is made, with a use of the client's lock, and is to be pushed. */
    method NewDelegate(client: LocTimer, futureTime: Timespec, container: LocTimerContainer, ghost s: State)
      returns (timer: LocTimerDelegate)
      requires client.mLock in s.locks && TimersAre(s.timers) && LocksAre(s.locks)
      modifies this`queue, client.mLock`mRef
      ensures fresh(timer) && timer.mFutureTime == futureTime && timer.home == container && timer.mLock == client.mLock
      ensures TimersAre(s.timers[timer := Delegate(client, false, Queued)])
      ensures LocksAre(s.locks[client.mLock := s.locks[client.mLock] + 1])
      ensures queue == old(queue) + [MsgPush(container, timer)]
    {
      timer := new LocTimerDelegate(client, futureTime, container);
      queue := queue + [MsgPush(container, timer)];
    }

    ghost predicate Started(s: State, client: LocTimer, futureTime: Timespec, timer: LocTimerDelegate)
      reads this, s.clients.Keys`mTimer, s.timers.Keys`mClient, s.timers.Keys`mContainer, s.locks.Keys`mRef
      reads s.heaps.Keys`heap, s.heaps.Keys`armed, s.heaps.Keys`polled, timer`mClient, timer`mContainer
    {
      && timer.mFutureTime == futureTime
      && CanStart(s, client, timer)
      && Matches(TimerProtocol.Start(s, client, timer))
    }

    method StartIdle(client: LocTimer, futureTime: Timespec, container: LocTimerContainer, ghost s: State)
      requires Matches(s) && client in s.clients && client.mLock in s.locks && container in s.heaps
      requires IsDeadline(futureTime) && forall t | t in s.timers :: Near(futureTime, t.mFutureTime)
      requires s.clients[client] == null
      modifies this`queue, client`mTimer, client.mLock`mRef
      ensures client.mTimer != null && Started(s, client, futureTime, client.mTimer)
    {
      hide TimersAre, LocksAre, BoxesAre, Near, Normalised;
      var timer := NewDelegate(client, futureTime, container, s);
      client.mTimer := timer;
      assert Started(s, client, futureTime, timer) by {
        Appended(s.log, s.done, MsgPush(container, timer));
      }
    }

    /** `LocTimer::start`; `now` is what the boot clock reads. */
    method Start(client: LocTimer, now: Timespec, timeOutInMs: nat, container: LocTimerContainer, ghost s: State)
      returns (success: bool)
      requires Matches(s) && client in s.clients && client.mLock in s.locks && container in s.heaps
      requires IsDeadline(Deadline(now, timeOutInMs))
      requires forall t | t in s.timers :: Near(Deadline(now, timeOutInMs), t.mFutureTime)
      modifies this`queue, client`mTimer, client.mLock`mRef
      ensures success <==> s.clients[client] == null
      ensures if success then client.mTimer != null && Started(s, client, Deadline(now, timeOutInMs), client.mTimer)
              else Matches(s)
    {
      success := client.mTimer == null;
      if success {
        StartIdle(client, Deadline(now, timeOutInMs), container, s);
      }
    }

    // ---- Stopping ----

    /** `destroyLocked`: the delegate forgets its client and is to be removed. */
    method DestroyLocked(timer: LocTimerDelegate, ghost s: State)
      requires TimersAre(s.timers) && timer in s.timers && !s.timers[timer].stopped
      modifies this`queue, timer`mClient, timer`mContainer
      ensures TimersAre(s.timers[timer := s.timers[timer].(client := null, stopped := true)])
      ensures queue == old(queue) + [MsgRemove(timer.home, timer)]
    {
      timer.mClient := null;
      var container := timer.mContainer;
      if container != null {
        timer.mContainer := null;
        queue := queue + [MsgRemove(container, timer)];
      }
    }

    method StopRunning(client: LocTimer, timer: LocTimerDelegate, ghost callBack: bool, ghost s: State)
      requires Matches(s) && Inv(s) && client in s.clients && s.clients[client] == timer
      modifies this`queue, client`mTimer, timer`mClient, timer`mContainer
      ensures CanStop(s, client) && Matches(TimerProtocol.Stop(s, client, callBack))
    {
      hide Inv, TimersAre, LocksAre, BoxesAre;
      StopIsPossible(s, client);
      client.mTimer := null;
      DestroyLocked(timer, s);
      Appended(s.log, s.done, MsgRemove(timer.home, timer));
    }

    /** `LocTimer::stop`, by a client. */
    method Stop(client: LocTimer, ghost s: State) returns (success: bool)
      requires Matches(s) && Inv(s) && client in s.clients
      modifies this`queue, client`mTimer, client.mTimer
      ensures success <==> s.clients[client] != null
      ensures if success then CanStop(s, client) && Matches(TimerProtocol.Stop(s, client, false)) else Matches(s)
    {
      success := client.mTimer != null;
      if client.mTimer != null {
        StopRunning(client, client.mTimer, false, s);
      }
    }

    // ---- The message thread ----

    /** Up to the first kernel call, if there is one. */
    method UpdateSoonestTime(box: LocTimerContainer, priorTop: Option<LocTimerDelegate>, doomed: Option<LocTimerDelegate>)
      modifies this`msg
      ensures msg == AfterUpdate(TimerProtocol.UpdateSoonestTime(Top(box.heap), priorTop), box, doomed)
    {
      var curTop := Top(box.heap);
      msg := if doomed.Some? then Deleting(doomed.value) else Idle;
      if curTop != priorTop {
        if curTop == None {
          msg := RemovingPoll(box, doomed);
        } else if priorTop == None || Sooner(curTop.value, priorTop.value) {
          msg := AddingPoll(box, doomed);
        }
      }
    }

    method SetHeap(box: LocTimerContainer, heap: Heap, ghost s: State)
      requires BoxesAre(s.heaps, s.armed, s.polled) && box in s.heaps
      modifies box`heap
      ensures box.heap == heap && BoxesAre(s.heaps[box := heap], s.armed, s.polled)
    {
      box.heap := heap;
    }

    static lemma PhasesDoNotShow(timers: Timers, t: LocTimerDelegate, phase: Phase)
      requires TimersAre(timers) && t in timers
      ensures TimersAre(timers[t := timers[t].(phase := phase)])
    {
    }

    static lemma BoxIs(s: State, box: LocTimerContainer)
      requires BoxesAre(s.heaps, s.armed, s.polled) && box in s.heaps
      ensures box.heap == s.heaps[box]
    {
    }

    static lemma PushIsReceived(s: State, now: Timespec)
      requires CanReceive(s) && s.log[s.done].MsgPush?
      ensures var MsgPush(box, timer) := s.log[s.done];
        var heap := Push(Sooner, s.heaps[box], timer);
        Receive(s, now)
          == s.(done := s.done + 1, heaps := s.heaps[box := heap],
                timers := s.timers[timer := s.timers[timer].(phase := Ticking)],
                msg := AfterUpdate(TimerProtocol.UpdateSoonestTime(Top(heap), Top(s.heaps[box])), box, None))
    {
      hide Push, TimerProtocol.UpdateSoonestTime, AfterUpdate;
    }

    static lemma RemoveIsReceived(s: State, now: Timespec)
      requires CanReceive(s) && s.log[s.done].MsgRemove?
      ensures var MsgRemove(box, timer) := s.log[s.done];
        var r := Remove(Sooner, s.heaps[box], timer);
        var wasTop := Top(s.heaps[box]) == if r.found then Some(timer) else None;
        Receive(s, now)
          == s.(done := s.done + 1, heaps := s.heaps[box := r.rest],
                timers := s.timers[timer := s.timers[timer].(phase := Leaving)],
                msg := AfterUpdate(if wasTop then TimerProtocol.UpdateSoonestTime(Top(r.rest), None) else NoCall,
                                   box, Some(timer)))
    {
      hide Remove, TimerProtocol.UpdateSoonestTime, AfterUpdate;
    }

    method ReceivePush(ghost now: Timespec, ghost s: State)
      requires Matches(s) && CanReceive(s) && s.log[s.done].MsgPush?
      modifies this`queue, this`msg, s.log[s.done].box`heap
      ensures Matches(Receive(s, now))
    {
      hide ClientsAre, TimersAre, LocksAre, BoxesAre, Push, TimerProtocol.UpdateSoonestTime, Receive, AfterUpdate;
      var MsgPush(box, timer) := queue[0];
      PushIsReceived(s, now);
      BoxIs(s, box);
      PhasesDoNotShow(s.timers, timer, Ticking);
      queue := queue[1..];
      var priorTop := Top(box.heap);
      SetHeap(box, Push(Sooner, box.heap, timer), s);
      UpdateSoonestTime(box, priorTop, None);
    }

    method ReceiveRemove(ghost now: Timespec, ghost s: State)
      requires Matches(s) && CanReceive(s) && s.log[s.done].MsgRemove?
      modifies this`queue, this`msg, s.log[s.done].box`heap
      ensures Matches(Receive(s, now))
    {
      hide ClientsAre, TimersAre, LocksAre, BoxesAre, Remove, TimerProtocol.UpdateSoonestTime, Receive, AfterUpdate;
      var MsgRemove(box, timer) := queue[0];
      RemoveIsReceived(s, now);
      BoxIs(s, box);
      PhasesDoNotShow(s.timers, timer, Leaving);
      queue := queue[1..];
      var priorTop := Top(box.heap);
      var r := Remove(Sooner, box.heap, timer);
      SetHeap(box, r.rest, s);
      AfterRemoval(box, priorTop == if r.found then Some(timer) else None, timer);
    }

    /** Only if the removed timer was the top is the kernel told about the new top. */
    method AfterRemoval(box: LocTimerContainer, wasTop: bool, timer: LocTimerDelegate)
      modifies this`msg
      ensures msg == AfterUpdate(if wasTop then TimerProtocol.UpdateSoonestTime(Top(box.heap), None) else NoCall,
                                 box, Some(timer))
    {
      if wasTop {
        UpdateSoonestTime(box, None, Some(timer));
      } else {
        msg := Deleting(timer);
      }
    }

    /** The next timer leaves the heap and is about to expire. */
    method PopTop(box: LocTimerContainer, now: Timespec, ghost start: Heap, ghost popped: seq<LocTimerDelegate>, ghost s: State)
      requires Matches(s) && box in s.heaps && s.heaps[box].Node?
      modifies this`msg, box`heap
      ensures Matches(TimerProtocol.PopTop(s, box, now, start, popped))
    {
      hide ClientsAre, TimersAre, LocksAre, BoxesAre, Pop;
      BoxIs(s, box);
      var timer := box.heap.data;
      ghost var s' := TimerProtocol.PopTop(s, box, now, start, popped);
      assert s' == s.(heaps := s.heaps[box := Pop(Sooner, s.heaps[box])], timers := s'.timers,
                      msg := Expiring(box, now, start, popped + [timer], timer));
      assert s'.timers == if timer in s.timers then s.timers[timer := s.timers[timer].(phase := Popped)] else s.timers;
      hide TimerProtocol.PopTop;
      if timer in s.timers {
        PhasesDoNotShow(s.timers, timer, Popped);
      }
      SetHeap(box, Pop(Sooner, box.heap), s);
      msg := Expiring(box, now, start, popped + [timer], timer);
    }

    /** `now` is what the boot clock reads. */
    method ReceiveExpire(now: Timespec, ghost s: State)
      requires Matches(s) && CanReceive(s) && s.log[s.done].MsgExpire?
      modifies this`queue, this`msg, s.log[s.done].box`heap
      ensures Matches(Receive(s, now))
    {
      hide ClientsAre, TimersAre, LocksAre, BoxesAre, Pop;
      var MsgExpire(box) := queue[0];
      BoxIs(s, box);
      queue := queue[1..];
      if box.heap.Node? {
        PopTop(box, now, box.heap, [], s.(done := s.done + 1));
      } else {
        UpdateSoonestTime(box, None, None);
      }
    }

    /** `LocTimerDelegate::expire`; the callback follows if the client was still running. */
    method CallExpire(current: LocTimerDelegate, ghost s: State) returns (callBack: bool)
      requires Matches(s) && Inv(s) && CanCallExpire(s) && current == s.msg.current
      modifies this`queue, this`msg, current`mClient, current`mContainer
      modifies if current.mClient == null then {} else {current.mClient}
      ensures Matches(TimerProtocol.CallExpire(s))
      ensures callBack <==> s.timers[current].client != null
    {
      hide Inv, ClientsAre, TimersAre, LocksAre, BoxesAre, TimerProtocol.Stop;
      var Expiring(box, now, start, popped, _) := msg;
      TimerIs(s, current);
      var client := current.mClient;
      callBack := client != null;
      if client != null {
        DelegateIsCurrent(s, current);
        StopRunning(client, current, true, s);
      }
      msg := Popping(box, now, start, popped);
    }

    static lemma TimerIs(s: State, t: LocTimerDelegate)
      requires TimersAre(s.timers) && t in s.timers
      ensures t.mClient == s.timers[t].client
    {
    }

    static lemma DelegateIsCurrent(s: State, t: LocTimerDelegate)
      requires Inv(s) && t in s.timers && s.timers[t].client != null
      ensures s.timers[t].client in s.clients && s.clients[s.timers[t].client] == t
    {
      hide HeapsOk, DeadlinesOk, PlacesOk, LogOk, LocksOk, MsgOk, NoTimerLost;
      ClientIsCurrent(s.clients, s.timers, s.outcomes, t);
    }

    /** `popIfOutRanks`, and what follows the last timer. */
    method PopNext(ghost s: State)
      requires Matches(s) && CanPopNext(s)
      modifies this`msg, s.msg.box`heap
      ensures Matches(TimerProtocol.PopNext(s))
    {
      hide ClientsAre, TimersAre, LocksAre, BoxesAre, Pop;
      var Popping(box, now, start, popped) := msg;
      BoxIs(s, box);
      if box.heap.Node? && !OutRanks(now, box.heap.data.mFutureTime) {
        PopTop(box, now, start, popped, s);
      } else {
        UpdateSoonestTime(box, None, None);
      }
    }

    // ---- Kernel calls ----

    /** `timerfd_settime` */
    method SetArmed(box: LocTimerContainer, time: Option<Timespec>, ghost s: State)
      requires BoxesAre(s.heaps, s.armed, s.polled) && box in s.heaps
      modifies box`armed
      ensures BoxesAre(s.heaps, s.armed[box := time], s.polled)
    {
      box.armed := time;
    }

    /** `epoll_ctl` */
    method SetPolled(box: LocTimerContainer, polled: bool, ghost s: State)
      requires BoxesAre(s.heaps, s.armed, s.polled) && box in s.heaps
      modifies box`polled
      ensures BoxesAre(s.heaps, s.armed, if polled then s.polled + {box} else s.polled - {box})
    {
      box.polled := polled;
    }

    method AddPoll(box: LocTimerContainer, ghost s: State)
      requires Matches(s) && CanAddPoll(s) && box == s.msg.box
      modifies this`msg, box`polled
      ensures Matches(TimerProtocol.AddPoll(s))
    {
      hide ClientsAre, TimersAre, LocksAre, BoxesAre;
      BoxIs(s, box);
      SetPolled(box, true, s);
      msg := SettingTime(box, box.heap.data.mFutureTime, msg.doomed);
    }

    /** `TimerRuns.NobodyDisarmsInUpdate` shows that no run needs it. */
    method RemovePoll(box: LocTimerContainer, ghost s: State)
      requires Matches(s) && CanRemovePoll(s) && box == s.msg.box && box in s.heaps
      modifies this`msg, box`polled
      ensures Matches(TimerProtocol.RemovePoll(s))
    {
      hide ClientsAre, TimersAre, LocksAre, BoxesAre;
      SetPolled(box, false, s);
      msg := SettingTime(box, Timespec(0, 0), msg.doomed);
    }

    method SetTime(box: LocTimerContainer, ghost s: State)
      requires Matches(s) && CanSetTime(s) && box == s.msg.box && box in s.heaps
      modifies this`msg, box`armed
      ensures Matches(TimerProtocol.SetTime(s))
    {
      hide ClientsAre, TimersAre, LocksAre, BoxesAre, ArmedFor;
      SetArmed(box, ArmedFor(msg.time), s);
      msg := if msg.doomed.Some? then Deleting(msg.doomed.value) else Idle;
    }

    // ---- Ends ----

    /** One use of a lock less; the lock goes with the last. */
    method DropLock(lock: LocSharedLock, ghost s: State)
      requires LocksAre(s.locks) && lock in s.locks
      modifies lock`mRef
      ensures LocksAre(Drop(s.locks, lock))
    {
      var _ := lock.Drop();
    }

    method Delete(dead: LocTimerDelegate, ghost s: State)
      requires Matches(s) && CanDelete(s) && dead == s.msg.dead
      modifies this`msg, dead.mLock`mRef
      ensures Matches(TimerProtocol.Delete(s))
    {
      hide ClientsAre, LocksAre, BoxesAre, Drop;
      DropLock(dead.mLock, s);
      msg := Idle;
    }

    method Create(ghost s: State) returns (client: LocTimer)
      requires Matches(s)
      ensures CanCreate(s, client) && Matches(TimerProtocol.Create(s, client))
    {
      client := NewClient(s);
      assert client !in s.clients && client.mLock !in s.locks;
      assert forall c | c in s.clients :: c.mLock != client.mLock;
      hide ClientsAre, TimersAre, LocksAre, BoxesAre;
    }

    method NewClient(ghost s: State) returns (client: LocTimer)
      requires Matches(s)
      ensures fresh(client) && fresh(client.mLock) && Matches(s)
      ensures ClientsAre(s.clients[client := null]) && LocksAre(s.locks[client.mLock := 1])
    {
      client := new LocTimer();
    }

    static ghost function Stopped(s: State, client: LocTimer): State
      requires client in s.clients && (s.clients[client] != null ==> CanStop(s, client))
    {
      if s.clients[client] == null then s else TimerProtocol.Stop(s, client, false)
    }

    /** `~LocTimer`. Other threads may get in between its two steps. */
    method Destroy(client: LocTimer, ghost s: State)
      requires Matches(s) && Inv(s) && client in s.clients
      modifies this`queue, client`mTimer, client.mTimer, client.mLock`mRef
      ensures s.clients[client] != null ==> CanStop(s, client)
      ensures CanDestroy(Stopped(s, client), client)
      ensures Matches(TimerProtocol.Destroy(Stopped(s, client), client))
    {
      StoppedIsIdle(s, client);
      hide Inv, ClientsAre, TimersAre, LocksAre, BoxesAre, CanStop, CanDestroy, TimerProtocol.Stop, TimerProtocol.Destroy;
      var _ := Stop(client, s);
      DropClient(client, Stopped(s, client));
    }

    static lemma StoppedIsIdle(s: State, client: LocTimer)
      requires Inv(s) && client in s.clients
      ensures s.clients[client] != null ==> CanStop(s, client)
      ensures CanDestroy(Stopped(s, client), client)
    {
      if s.clients[client] != null {
        StopIsPossible(s, client);
      }
      hide HeapsOk, DeadlinesOk, PlacesOk, LogOk, ClientsOk, MsgOk, NoTimerLost;
    }

    /** The end of `~LocTimer`. */
    method DropClient(client: LocTimer, ghost s: State)
      requires Matches(s) && CanDestroy(s, client)
      modifies client.mLock`mRef
      ensures Matches(TimerProtocol.Destroy(s, client))
    {
      hide TimersAre, LocksAre, BoxesAre, Drop;
      DropLock(client.mLock, s);
    }

    // ---- The poll thread ----

    /** `todo` is what `epoll_wait` returns. */
    method Wake(todo: seq<LocTimerContainer>, ghost now: Timespec, ghost s: State)
      requires Matches(s) && CanWake(s, todo, now)
      modifies this`poll
      ensures Matches(TimerProtocol.Wake(s, todo, now))
    {
      poll := Handling(todo, Disarm);
    }

    /** The first call of `LocTimerContainer::expire`. */
    method DisarmBox(box: LocTimerContainer, ghost s: State)
      requires Matches(s) && CanStepPoll(s) && box == s.poll.todo[0] && box in s.heaps && s.poll.at.Disarm?
      modifies this`poll, box`armed
      ensures Matches(TimerProtocol.StepPoll(s))
    {
      hide ClientsAre, TimersAre, LocksAre, BoxesAre;
      SetArmed(box, None, s);
      poll := Handling(poll.todo, Unpoll);
    }

    method UnpollBox(box: LocTimerContainer, ghost s: State)
      requires Matches(s) && CanStepPoll(s) && box == s.poll.todo[0] && box in s.heaps && s.poll.at.Unpoll?
      modifies this`poll, box`polled
      ensures Matches(TimerProtocol.StepPoll(s))
    {
      hide ClientsAre, TimersAre, LocksAre, BoxesAre;
      SetPolled(box, false, s);
      poll := Handling(poll.todo, Send);
    }

    method SendExpire(box: LocTimerContainer, ghost s: State)
      requires Matches(s) && CanStepPoll(s) && box == s.poll.todo[0] && s.poll.at.Send?
      modifies this`poll, this`queue
      ensures Matches(TimerProtocol.StepPoll(s))
    {
      hide ClientsAre, TimersAre, LocksAre, BoxesAre;
      queue := queue + [MsgExpire(box)];
      Appended(s.log, s.done, MsgExpire(box));
      poll := if |poll.todo| == 1 then Waiting else Handling(poll.todo[1..], Disarm);
    }
  }
}
