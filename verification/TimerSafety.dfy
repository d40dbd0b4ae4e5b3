/** Every step of the timer service keeps its invariant. */
module TimerSafety {
  import opened LocTimer
  import opened Options
  import opened RankedTree
  import opened Timespec
  import opened TimerProtocol
  import opened TimerInvariant

  // ---- No timer is lost ----

  lemma SendLosesNoTimer(heaps: Heaps, armed: map<LocTimerContainer, Option<Timespec>>, polled: set<LocTimerContainer>,
                         msg: MsgThread, poll: PollThread, log: seq<Msg>, done: nat, m: Msg)
    requires done <= |log| && NoTimerLost(heaps, armed, polled, msg, poll, log, done)
    ensures NoTimerLost(heaps, armed, polled, msg, poll, log + [m], done)
  {
    assert (log + [m])[done..] == log[done..] + [m];
  }

  lemma PushLosesNoTimer(heaps: Heaps, armed: map<LocTimerContainer, Option<Timespec>>, polled: set<LocTimerContainer>,
                         poll: PollThread, log: seq<Msg>, done: nat, b: LocTimerContainer, t: LocTimerDelegate)
    requires done < |log| && NoTimerLost(heaps, armed, polled, Idle, poll, log, done)
    requires log[done] == MsgPush(b, t) && b in heaps
    ensures var heap := Push(Sooner, heaps[b], t);
      NoTimerLost(heaps[b := heap], armed, polled,
                  AfterUpdate(UpdateSoonestTime(Top(heap), Top(heaps[b])), b, None), poll, log, done + 1)
  {
    assert log[done..] == [log[done]] + log[done + 1..];
    TopAfterPush(Sooner, heaps[b], t);
    hide Push;
  }

  lemma RemoveLosesNoTimer(heaps: Heaps, armed: map<LocTimerContainer, Option<Timespec>>, polled: set<LocTimerContainer>,
                           poll: PollThread, log: seq<Msg>, done: nat, b: LocTimerContainer, t: LocTimerDelegate)
    requires done < |log| && NoTimerLost(heaps, armed, polled, Idle, poll, log, done)
    requires log[done] == MsgRemove(b, t) && b in heaps
    ensures var r := Remove(Sooner, heaps[b], t);
      var removed := if r.found then Some(t) else None;
      NoTimerLost(heaps[b := r.rest], armed, polled,
                  AfterUpdate(if Top(heaps[b]) == removed then UpdateSoonestTime(Top(r.rest), None) else NoCall, b, Some(t)),
                  poll, log, done + 1)
  {
    assert log[done..] == [log[done]] + log[done + 1..];
    if heaps[b].Node? {
      if heaps[b].data == t {
        assert Remove(Sooner, heaps[b], t).found;
      } else {
        RemoveKeepsTop(Sooner, heaps[b], t);
      }
    }
    hide Remove;
  }

  lemma ExpireLosesNoTimer(heaps: Heaps, armed: map<LocTimerContainer, Option<Timespec>>, polled: set<LocTimerContainer>,
                           poll: PollThread, log: seq<Msg>, done: nat, b: LocTimerContainer, heap: Heap, msg: MsgThread)
    requires done < |log| && NoTimerLost(heaps, armed, polled, Idle, poll, log, done)
    requires log[done] == MsgExpire(b) && b in heaps
    requires if heaps[b].Node? then msg.Expiring? && msg.box == b else msg.Idle? && heap == heaps[b]
    ensures NoTimerLost(heaps[b := heap], armed, polled, msg, poll, log, done + 1)
  {
    assert log[done..] == [log[done]] + log[done + 1..];
  }

  /** In the loop of an Expire message: the next pop, or the end. */
  lemma LoopLosesNoTimer(heaps: Heaps, armed: map<LocTimerContainer, Option<Timespec>>, polled: set<LocTimerContainer>,
                         poll: PollThread, log: seq<Msg>, done: nat, msg: MsgThread, heap: Heap, msg': MsgThread)
    requires done <= |log| && NoTimerLost(heaps, armed, polled, msg, poll, log, done)
    requires (msg.Popping? || msg.Expiring?) && msg.box in heaps
    requires if msg'.Idle? then heap.Empty? && heap == heaps[msg.box] else Settling(msg.box, msg') && !msg'.SettingTime?
    ensures NoTimerLost(heaps[msg.box := heap], armed, polled, msg', poll, log, done)
  {
  }

  // ---- The message thread ----

  lemma StartKeepsMsg(msg: MsgThread, timers: Timers, heaps: Heaps, t: LocTimerDelegate, client: LocTimer)
    requires MsgOk(msg, timers, heaps) && t !in timers
    ensures MsgOk(msg, timers[t := Delegate(client, false, Queued)], heaps)
  {
    hide Drained;
  }

  lemma StopKeepsMsg(msg: MsgThread, timers: Timers, heaps: Heaps, t: LocTimerDelegate)
    requires MsgOk(msg, timers, heaps) && t in timers
    ensures MsgOk(msg, timers[t := timers[t].(client := null, stopped := true)], heaps)
  {
    hide Drained;
  }

  lemma PushKeepsMsg(timers: Timers, heaps: Heaps, b: LocTimerContainer, t: LocTimerDelegate)
    requires MsgOk(Idle, timers, heaps) && t in timers && b in heaps
    ensures var heap := Push(Sooner, heaps[b], t);
      MsgOk(AfterUpdate(UpdateSoonestTime(Top(heap), Top(heaps[b])), b, None),
            timers[t := timers[t].(phase := Ticking)], heaps[b := heap])
  {
    hide Drained;
    TopAfterPush(Sooner, heaps[b], t);
  }

  lemma RemoveKeepsMsg(timers: Timers, heaps: Heaps, b: LocTimerContainer, t: LocTimerDelegate)
    requires MsgOk(Idle, timers, heaps) && t in timers && b in heaps && timers[t].stopped
    ensures var r := Remove(Sooner, heaps[b], t);
      var removed := if r.found then Some(t) else None;
      MsgOk(AfterUpdate(if Top(heaps[b]) == removed then UpdateSoonestTime(Top(r.rest), None) else NoCall, b, Some(t)),
            timers[t := timers[t].(phase := Leaving)], heaps[b := r.rest])
  {
    hide Drained, Remove;
  }

  lemma PopKeepsMsg(msg: MsgThread, timers: Timers, heaps: Heaps, b: LocTimerContainer, now: Timespec,
                    start: Heap, popped: seq<LocTimerDelegate>)
    requires MsgOk(msg, timers, heaps) && (msg.Idle? || msg.Popping?)
    requires b in heaps && heaps[b].Node? && heaps[b].data in timers
    requires !timers[heaps[b].data].phase.Leaving?
    requires Drained(start, now, popped + [heaps[b].data], Pop(Sooner, heaps[b]))
    ensures var t := heaps[b].data;
      MsgOk(Expiring(b, now, start, popped + [t], t), timers[t := timers[t].(phase := Popped)],
            heaps[b := Pop(Sooner, heaps[b])])
  {
    hide Drained, Pop;
  }

  // ---- The steps ----

  lemma CreateKeepsInv(s: State, c: LocTimer)
    requires Inv(s) && CanCreate(s, c)
    ensures Inv(Create(s, c))
  {
    hide HeapsOk, DeadlinesOk, PlacesOk, LogOk, ClientsOk, LocksOk, MsgOk, NoTimerLost;
    assert Create(s, c).clients.Keys == s.clients.Keys + {c};
    CreateKeepsLocks(s.clients.Keys, s.timers.Keys, s.locks, c);
    CreateKeepsClients(s.clients, s.timers, s.outcomes, c);
  }

  lemma DestroyKeepsInv(s: State, c: LocTimer)
    requires Inv(s) && CanDestroy(s, c)
    ensures Inv(Destroy(s, c))
  {
    hide HeapsOk, DeadlinesOk, PlacesOk, LogOk, ClientsOk, LocksOk, MsgOk, NoTimerLost;
    var clients := Destroy(s, c).clients;
    assert s.clients.Keys == clients.Keys + {c};
    DestroyKeepsLocks(clients.Keys, s.timers.Keys, s.locks, c);
    DestroyKeepsClients(s.clients, s.timers, s.outcomes, c);
  }

  lemma StartKeepsDeadlines(timers: set<LocTimerDelegate>, t: LocTimerDelegate)
    requires DeadlinesOk(timers) && IsDeadline(t.mFutureTime)
    requires forall u | u in timers :: Near(t.mFutureTime, u.mFutureTime)
    ensures DeadlinesOk(timers + {t})
  {
  }

  lemma StartKeepsInv(s: State, c: LocTimer, t: LocTimerDelegate)
    requires Inv(s) && CanStart(s, c, t)
    ensures Inv(Start(s, c, t))
  {
    hide HeapsOk, DeadlinesOk, PlacesOk, LogOk, ClientsOk, LocksOk, MsgOk, NoTimerLost, Near, IsDeadline;
    var s', d := Start(s, c, t), Delegate(c, false, Queued);
    assert s'.timers.Keys == s.timers.Keys + {t} && s'.clients.Keys == s.clients.Keys;
    assert s'.outcomes.Keys == s.outcomes.Keys + {t};
    StartKeepsDeadlines(s.timers.Keys, t);
    StartKeepsPlaces(s.timers, s.heaps, t, d);
    StartKeepsLog(s.timers, s.heaps.Keys, s.outcomes.Keys, s.log, s.done, t, d);
    StartKeepsClients(s.clients, s.timers, s.outcomes, c, t);
    StartKeepsLocks(s.clients.Keys, s.timers.Keys, s.locks, t);
    StartKeepsMsg(s.msg, s.timers, s.heaps, t, c);
    SendLosesNoTimer(s.heaps, s.armed, s.polled, s.msg, s.poll, s.log, s.done, MsgPush(t.home, t));
  }

  lemma StopIsPossible(s: State, c: LocTimer)
    requires Inv(s) && c in s.clients && s.clients[c] != null
    ensures CanStop(s, c)
    ensures var t := s.clients[c];
      t.home in s.heaps && !s.timers[t].stopped && !s.timers[t].phase.Leaving? && s.timers[t].client == c
  {
    hide HeapsOk, LogOk, LocksOk, NoTimerLost;
  }

  lemma StopKeepsInv(s: State, c: LocTimer, callBack: bool)
    requires Inv(s) && CanStop(s, c)
    ensures Inv(Stop(s, c, callBack))
  {
    hide HeapsOk, DeadlinesOk, PlacesOk, LogOk, ClientsOk, LocksOk, MsgOk, NoTimerLost;
    StopIsPossible(s, c);
    var s', t := Stop(s, c, callBack), s.clients[c];
    var d := s.timers[t].(client := null, stopped := true);
    assert s'.timers.Keys == s.timers.Keys && s'.clients.Keys == s.clients.Keys;
    assert s'.outcomes.Keys == s.outcomes.Keys;
    StopKeepsPlaces(s.timers, s.heaps, t, d);
    StopKeepsLog(s.timers, s.heaps.Keys, s.outcomes.Keys, s.log, s.done, t, d);
    StopKeepsClients(s.clients, s.timers, s.outcomes, c, d, s'.outcomes[t]);
    StopKeepsMsg(s.msg, s.timers, s.heaps, t);
    SendLosesNoTimer(s.heaps, s.armed, s.polled, s.msg, s.poll, s.log, s.done, MsgRemove(t.home, t));
  }

  lemma ReceivePushKeepsInv(s: State, now: Timespec)
    requires Inv(s) && CanReceive(s) && s.log[s.done].MsgPush?
    ensures Inv(Receive(s, now))
  {
    hide HeapsOk, DeadlinesOk, PlacesOk, LogOk, ClientsOk, LocksOk, MsgOk, NoTimerLost;
    var MsgPush(b, t) := s.log[s.done];
    PendingPush(s.timers, s.heaps.Keys, s.outcomes.Keys, s.log, s.done);
    PushKeepsHeaps(s.timers, s.heaps, t);
    PushKeepsLog(s.timers, s.heaps.Keys, s.outcomes.Keys, s.log, s.done, t);
    MoveKeepsClients(s.clients, s.timers, s.outcomes, t, Ticking);
    PushKeepsMsg(s.timers, s.heaps, b, t);
    PushLosesNoTimer(s.heaps, s.armed, s.polled, s.poll, s.log, s.done, b, t);
    assert Receive(s, now).timers.Keys == s.timers.Keys;
    assert Receive(s, now).heaps.Keys == s.heaps.Keys;
  }

  lemma PendingPush(timers: Timers, boxes: set<LocTimerContainer>, created: set<LocTimerDelegate>, log: seq<Msg>, done: nat)
    requires done < |log| && LogOk(timers, boxes, created, log, done) && log[done].MsgPush?
    ensures var t := log[done].timer;
      t in timers && log[done].box == t.home && timers[t].phase.Queued?
  {
    assert MessageOk(timers, boxes, created, log[done], false);
  }

  lemma PendingRemove(timers: Timers, boxes: set<LocTimerContainer>, created: set<LocTimerDelegate>, log: seq<Msg>, done: nat)
    requires done < |log| && LogOk(timers, boxes, created, log, done) && log[done].MsgRemove?
    ensures var t := log[done].timer;
      t in timers && log[done].box == t.home && timers[t].stopped
  {
    assert MessageOk(timers, boxes, created, log[done], false);
  }

  lemma PushKeepsHeaps(timers: Timers, heaps: Heaps, t: LocTimerDelegate)
    requires HeapsOk(heaps) && DeadlinesOk(timers.Keys) && PlacesOk(timers, heaps)
    requires t in timers && !timers[t].phase.Ticking?
    ensures t.home in heaps
    ensures var heaps' := heaps[t.home := Push(Sooner, heaps[t.home], t)];
      HeapsOk(heaps') && PlacesOk(timers[t := timers[t].(phase := Ticking)], heaps')
  {
    HeapOfLiveTimers(timers, heaps, t.home);
    LiveTimersRankWell(timers.Keys);
    PushKeepsHeap(Sooner, heaps[t.home], t, timers.Keys);
    EnterKeepsPlaces(timers, heaps, t, Push(Sooner, heaps[t.home], t));
  }

  lemma RemoveKeepsHeaps(timers: Timers, heaps: Heaps, t: LocTimerDelegate)
    requires HeapsOk(heaps) && DeadlinesOk(timers.Keys) && PlacesOk(timers, heaps) && t in timers
    ensures t.home in heaps
    ensures var heaps' := heaps[t.home := Remove(Sooner, heaps[t.home], t).rest];
      HeapsOk(heaps') && PlacesOk(timers[t := timers[t].(phase := Leaving)], heaps')
  {
    HeapOfLiveTimers(timers, heaps, t.home);
    LiveTimersRankWell(timers.Keys);
    RemoveKeepsHeap(Sooner, heaps[t.home], t, timers.Keys);
    LeaveKeepsPlaces(timers, heaps, t, Remove(Sooner, heaps[t.home], t).rest, Leaving);
  }

  lemma PopKeepsHeaps(timers: Timers, heaps: Heaps, b: LocTimerContainer)
    requires HeapsOk(heaps) && DeadlinesOk(timers.Keys) && PlacesOk(timers, heaps)
    requires b in heaps && heaps[b].Node?
    ensures var t := heaps[b].data;
      var heaps' := heaps[b := Pop(Sooner, heaps[b])];
      && t in timers && t.home == b && timers[t].phase.Ticking?
      && HeapsOk(heaps') && PlacesOk(timers[t := timers[t].(phase := Popped)], heaps')
  {
    var t := heaps[b].data;
    TopIsAnElement(heaps[b]);
    HeapOfLiveTimers(timers, heaps, b);
    PopTakesSoonest(heaps[b], timers.Keys);
    assert t.home == b;
    LeaveKeepsPlaces(timers, heaps, t, Pop(Sooner, heaps[b]), Popped);
  }

  lemma ReceiveRemoveKeepsInv(s: State, now: Timespec)
    requires Inv(s) && CanReceive(s) && s.log[s.done].MsgRemove?
    ensures Inv(Receive(s, now))
  {
    hide HeapsOk, DeadlinesOk, PlacesOk, LogOk, ClientsOk, LocksOk, MsgOk, NoTimerLost;
    var MsgRemove(b, t) := s.log[s.done];
    PendingRemove(s.timers, s.heaps.Keys, s.outcomes.Keys, s.log, s.done);
    RemoveKeepsHeaps(s.timers, s.heaps, t);
    RemoveKeepsLog(s.timers, s.heaps.Keys, s.outcomes.Keys, s.log, s.done, t);
    MoveKeepsClients(s.clients, s.timers, s.outcomes, t, Leaving);
    RemoveKeepsMsg(s.timers, s.heaps, b, t);
    RemoveLosesNoTimer(s.heaps, s.armed, s.polled, s.poll, s.log, s.done, b, t);
    assert Receive(s, now).timers.Keys == s.timers.Keys;
    assert Receive(s, now).heaps.Keys == s.heaps.Keys;
  }

  lemma PopTopKeepsInv(s: State, b: LocTimerContainer, now: Timespec, start: Heap, popped: seq<LocTimerDelegate>)
    requires b in s.heaps && s.heaps[b].Node? && s.done <= |s.log|
    requires HeapsOk(s.heaps) && DeadlinesOk(s.timers.Keys) && PlacesOk(s.timers, s.heaps)
    requires LogOk(s.timers, s.heaps.Keys, s.outcomes.Keys, s.log, s.done)
    requires ClientsOk(s.clients, s.timers, s.outcomes) && LocksOk(s.clients.Keys, s.timers.Keys, s.locks)
    requires MsgOk(s.msg, s.timers, s.heaps) && (s.msg.Idle? || s.msg.Popping?)
    requires Drained(start, now, popped + [s.heaps[b].data], Pop(Sooner, s.heaps[b]))
    requires var s' := PopTop(s, b, now, start, popped);
      NoTimerLost(s'.heaps, s'.armed, s'.polled, s'.msg, s'.poll, s'.log, s'.done)
    ensures Inv(PopTop(s, b, now, start, popped))
  {
    hide HeapsOk, DeadlinesOk, PlacesOk, LogOk, ClientsOk, LocksOk, MsgOk, NoTimerLost, Drained;
    var t := s.heaps[b].data;
    PopKeepsHeaps(s.timers, s.heaps, b);
    MoveKeepsLog(s.timers, s.heaps.Keys, s.outcomes.Keys, s.log, s.done, t, Popped);
    MoveKeepsClients(s.clients, s.timers, s.outcomes, t, Popped);
    PopKeepsMsg(s.msg, s.timers, s.heaps, b, now, start, popped);
    assert PopTop(s, b, now, start, popped).timers.Keys == s.timers.Keys;
    assert PopTop(s, b, now, start, popped).heaps.Keys == s.heaps.Keys;
  }

  lemma ReceiveExpireKeepsInv(s: State, now: Timespec)
    requires Inv(s) && CanReceive(s) && IsClockReading(s, now) && s.log[s.done].MsgExpire?
    ensures Inv(Receive(s, now))
  {
    hide HeapsOk, DeadlinesOk, PlacesOk, LogOk, ClientsOk, LocksOk, MsgOk, NoTimerLost, Drained;
    var b := s.log[s.done].box;
    var s1, s' := s.(done := s.done + 1), Receive(s, now);
    ExpireKeepsLog(s.timers, s.heaps.Keys, s.outcomes.Keys, s.log, s.done, b);
    if s.heaps[b].Node? {
      ReceiveFirstExpired(s, now);
      PopTopKeepsInv(s1, b, now, s.heaps[b], []);
    } else {
      ExpireLosesNoTimer(s.heaps, s.armed, s.polled, s.poll, s.log, s.done, b, s.heaps[b], Idle);
      assert s.heaps[b := s.heaps[b]] == s.heaps;
    }
  }

  lemma ReceiveFirstExpired(s: State, now: Timespec)
    requires Inv(s) && CanReceive(s) && IsClockReading(s, now) && s.log[s.done].MsgExpire?
    requires s.heaps[s.log[s.done].box].Node?
    ensures var b := s.log[s.done].box;
      var s' := Receive(s, now);
      && Drained(s.heaps[b], now, [] + [s.heaps[b].data], Pop(Sooner, s.heaps[b]))
      && NoTimerLost(s'.heaps, s'.armed, s'.polled, s'.msg, s'.poll, s'.log, s'.done)
  {
    hide HeapsOk, DeadlinesOk, PlacesOk, LogOk, ClientsOk, LocksOk, MsgOk, NoTimerLost, Drained, Pop;
    var b := s.log[s.done].box;
    var s' := Receive(s, now);
    HeapIsOk(s.timers, s.heaps, b);
    FirstPopIsDrained(s.heaps[b], now, s.timers.Keys);
    assert [] + [s.heaps[b].data] == [s.heaps[b].data];
    ExpireLosesNoTimer(s.heaps, s.armed, s.polled, s.poll, s.log, s.done, b, s'.heaps[b], s'.msg);
  }

  lemma HeapIsOk(timers: Timers, heaps: Heaps, b: LocTimerContainer)
    requires HeapsOk(heaps) && PlacesOk(timers, heaps) && b in heaps
    ensures IsHeap(Sooner, heaps[b]) && Within(heaps[b], timers.Keys)
  {
  }

  lemma CallExpireKeepsInv(s: State)
    requires Inv(s) && CanCallExpire(s)
    ensures Inv(CallExpire(s))
  {
    hide HeapsOk, DeadlinesOk, PlacesOk, LogOk, ClientsOk, LocksOk, MsgOk, NoTimerLost;
    var client := s.timers[s.msg.current].client;
    var s1 := if client == null then s else Stop(s, client, true);
    if client == null {
      ClientIsGone(s.clients, s.timers, s.outcomes, s.msg.current);
    } else {
      ClientIsCurrent(s.clients, s.timers, s.outcomes, s.msg.current);
      StopKeepsInv(s, client, true);
    }
    CallEnds(s1.msg, s1.timers, s1.heaps);
    LoopLosesNoTimer(s1.heaps, s1.armed, s1.polled, s1.poll, s1.log, s1.done, s1.msg, s1.heaps[s.msg.box], CallExpire(s).msg);
    assert s1.heaps[s.msg.box := s1.heaps[s.msg.box]] == s1.heaps;
  }

  lemma ClientIsGone(clients: map<LocTimer, LocTimerDelegate?>, timers: Timers,
                     outcomes: map<LocTimerDelegate, Outcome>, t: LocTimerDelegate)
    requires ClientsOk(clients, timers, outcomes) && t in timers && timers[t].client == null
    ensures timers[t].stopped
  {
  }

  lemma ClientIsCurrent(clients: map<LocTimer, LocTimerDelegate?>, timers: Timers,
                        outcomes: map<LocTimerDelegate, Outcome>, t: LocTimerDelegate)
    requires ClientsOk(clients, timers, outcomes) && t in timers && timers[t].client != null
    ensures timers[t].client in clients && clients[timers[t].client] == t && t in outcomes
  {
  }

  lemma CallEnds(msg: MsgThread, timers: Timers, heaps: Heaps)
    requires MsgOk(msg, timers, heaps) && msg.Expiring? && msg.current in timers && timers[msg.current].stopped
    ensures msg.box in heaps
    ensures MsgOk(Popping(msg.box, msg.now, msg.start, msg.popped), timers, heaps)
  {
    hide Drained;
  }

  /** What the message thread knows when it looks for the next timer, and when there is none. */
  lemma LoopKeepsMsg(msg: MsgThread, timers: Timers, heaps: Heaps)
    requires msg.Popping? && MsgOk(msg, timers, heaps)
    ensures msg.box in heaps && Drained(msg.start, msg.now, msg.popped, heaps[msg.box])
    ensures MsgOk(AfterUpdate(UpdateSoonestTime(Top(heaps[msg.box]), None), msg.box, None), timers, heaps)
  {
    hide Drained;
  }

  lemma PopNextKeepsInv(s: State)
    requires Inv(s) && CanPopNext(s)
    ensures Inv(PopNext(s))
  {
    hide HeapsOk, DeadlinesOk, PlacesOk, LogOk, ClientsOk, LocksOk, MsgOk, NoTimerLost, Drained, Pop, OutRanks;
    var Popping(b, now, start, popped) := s.msg;
    var heap, s' := s.heaps[b], PopNext(s);
    LoopKeepsMsg(s.msg, s.timers, s.heaps);
    LoopLosesNoTimer(s.heaps, s.armed, s.polled, s.poll, s.log, s.done, s.msg, s'.heaps[b], s'.msg);
    if heap.Node? && !OutRanks(now, heap.data.mFutureTime) {
      HeapIsOk(s.timers, s.heaps, b);
      PopExtendsDrained(start, now, popped, heap, s.timers.Keys);
      PopTopKeepsInv(s, b, now, start, popped);
    } else {
      assert s.heaps[b := heap] == s.heaps;
    }
  }

  lemma AddPollKeepsInv(s: State)
    requires Inv(s) && CanAddPoll(s)
    ensures Inv(AddPoll(s))
  {
    hide HeapsOk, DeadlinesOk, PlacesOk, LogOk, ClientsOk, LocksOk, Drained;
  }

  lemma SetTimeKeepsInv(s: State)
    requires Inv(s) && CanSetTime(s)
    ensures Inv(SetTime(s))
  {
    hide HeapsOk, DeadlinesOk, PlacesOk, LogOk, ClientsOk, LocksOk, MsgOk, NoTimerLost;
    TimeIsThatOfTop(s.msg, s.timers, s.heaps);
    SettingTimeKeepsMsg(s.msg, s.timers, s.heaps, SetTime(s).msg);
    SettingTimeLosesNoTimer(s.heaps, s.armed, s.polled, s.msg, s.poll, s.log, s.done, SetTime(s).msg);
  }

  lemma TimeIsThatOfTop(msg: MsgThread, timers: Timers, heaps: Heaps)
    requires msg.SettingTime? && MsgOk(msg, timers, heaps) && DeadlinesOk(timers.Keys) && PlacesOk(timers, heaps)
    ensures msg.box in heaps && heaps[msg.box].Node? && msg.time == heaps[msg.box].data.mFutureTime
    ensures ArmedFor(msg.time) == Some(msg.time)
  {
    TopIsAnElement(heaps[msg.box]);
    hide Elements;
  }

  lemma SettingTimeKeepsMsg(msg: MsgThread, timers: Timers, heaps: Heaps, msg': MsgThread)
    requires msg.SettingTime? && MsgOk(msg, timers, heaps)
    requires msg' == if msg.doomed.Some? then Deleting(msg.doomed.value) else Idle
    ensures MsgOk(msg', timers, heaps)
  {
  }

  lemma SettingTimeLosesNoTimer(heaps: Heaps, armed: map<LocTimerContainer, Option<Timespec>>, polled: set<LocTimerContainer>,
                                msg: MsgThread, poll: PollThread, log: seq<Msg>, done: nat, msg': MsgThread)
    requires done <= |log| && NoTimerLost(heaps, armed, polled, msg, poll, log, done)
    requires msg.SettingTime? && msg.box in heaps && heaps[msg.box].Node?
    requires msg.time == heaps[msg.box].data.mFutureTime && (msg'.Idle? || msg'.Deleting?)
    ensures NoTimerLost(heaps, armed[msg.box := Some(msg.time)], polled, msg', poll, log, done)
  {
  }

  lemma DeleteKeepsInv(s: State)
    requires Inv(s) && CanDelete(s)
    ensures Inv(Delete(s))
  {
    hide HeapsOk, DeadlinesOk, PlacesOk, LogOk, ClientsOk, LocksOk, MsgOk, NoTimerLost, Drop;
    var t, timers := s.msg.dead, s.timers - {s.msg.dead};
    assert s.timers.Keys == timers.Keys + {t};
    FewerDeadlines(timers.Keys, s.timers.Keys);
    DeletingKeepsMsg(s.timers, s.heaps, t);
    DeleteKeepsPlaces(s.timers, s.heaps, t);
    DeleteKeepsLog(s.timers, s.heaps.Keys, s.outcomes.Keys, s.log, s.done, t);
    DeleteKeepsClients(s.clients, s.timers, s.outcomes, t);
    DeleteKeepsLocks(s.clients.Keys, timers.Keys, s.locks, t);
    DeletingLosesNoTimer(s);
  }

  lemma FewerDeadlines(timers: set<LocTimerDelegate>, more: set<LocTimerDelegate>)
    requires DeadlinesOk(more) && timers <= more
    ensures DeadlinesOk(timers)
  {
  }

  lemma DeletingKeepsMsg(timers: Timers, heaps: Heaps, t: LocTimerDelegate)
    requires MsgOk(Deleting(t), timers, heaps) && t in timers
    ensures timers[t].phase.Leaving? && timers[t].stopped
    ensures MsgOk(Idle, timers - {t}, heaps)
  {
  }

  lemma DeletingLosesNoTimer(s: State)
    requires s.done <= |s.log| && s.msg.Deleting?
    requires NoTimerLost(s.heaps, s.armed, s.polled, s.msg, s.poll, s.log, s.done)
    ensures NoTimerLost(s.heaps, s.armed, s.polled, Idle, s.poll, s.log, s.done)
  {
  }

  lemma NoPollIsRemoved(s: State)
    requires Inv(s)
    ensures !CanRemovePoll(s)
  {
    hide HeapsOk, DeadlinesOk, PlacesOk, LogOk, ClientsOk, LocksOk, NoTimerLost;
  }

  lemma WakeKeepsInv(s: State, todo: seq<LocTimerContainer>, now: Timespec)
    requires Inv(s) && CanWake(s, todo, now)
    ensures Inv(Wake(s, todo, now))
  {
    hide HeapsOk, DeadlinesOk, PlacesOk, LogOk, ClientsOk, LocksOk, MsgOk;
  }

  lemma StepPollKeepsInv(s: State)
    requires Inv(s) && CanStepPoll(s)
    ensures Inv(StepPoll(s))
  {
    hide HeapsOk, DeadlinesOk, PlacesOk, LogOk, ClientsOk, LocksOk, MsgOk, NoTimerLost;
    var b := s.poll.todo[0];
    PollLosesNoTimer(s.heaps, s.armed, s.polled, s.msg, s.poll, s.log, s.done);
    match s.poll.at {
      case Disarm =>
        assert StepPoll(s) == s.(armed := s.armed[b := None], poll := s.poll.(at := Unpoll));
      case Unpoll =>
        assert StepPoll(s) == s.(polled := s.polled - {b}, poll := s.poll.(at := Send));
      case Send =>
        ExpireKeepsLog(s.timers, s.heaps.Keys, s.outcomes.Keys, s.log, s.done, b);
    }
  }

  /** While the poll thread has not sent its Expire, what it undoes at the kernel is in flight. */
  lemma PollLosesNoTimer(heaps: Heaps, armed: map<LocTimerContainer, Option<Timespec>>, polled: set<LocTimerContainer>,
                         msg: MsgThread, poll: PollThread, log: seq<Msg>, done: nat)
    requires done <= |log| && NoTimerLost(heaps, armed, polled, msg, poll, log, done)
    requires poll.Handling? && poll.todo != []
    ensures var b := poll.todo[0];
      && b in heaps
      && NoTimerLost(heaps, armed[b := None], polled, msg, poll.(at := Unpoll), log, done)
      && NoTimerLost(heaps, armed, polled - {b}, msg, poll.(at := Send), log, done)
      && NoTimerLost(heaps, armed, polled, msg,
                     if |poll.todo| == 1 then Waiting else Handling(poll.todo[1..], Disarm), log + [MsgExpire(b)], done)
  {
    var b := poll.todo[0];
    assert b in poll.todo;
    assert (log + [MsgExpire(b)])[done..] == log[done..] + [MsgExpire(b)];
    assert poll.todo == [b] + poll.todo[1..];
  }
}
