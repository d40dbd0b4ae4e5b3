/** The message queue as a state machine of its senders and receivers. Each section under the
  * queue's mutex is one step; a wait ends by a signal or without one.
  */
module MsgQueue {
  import opened Options
  import opened LinkedList

  type Thread = nat

  /** What becomes of a message that was accepted and is no longer queued. */
  datatype Fate = Received | ThrownAway

  datatype Consumed<T> = Consumed(item: Item<T>, fate: Fate)

  /** What a call of `rcv` came to. */
  datatype Outcome<T> = Waits | Unblocked | Gets(data: T)

  datatype State<T> = State(
    list: seq<Item<T>>,            // head first: the last one is next
    unblocked: bool,
    destroyed: bool,
    waiting: set<Thread>,          // in `rcv`, waiting
    signalled: set<Thread>,        // those of them that were woken
    deallocated: seq<T>,
    ghost accepted: seq<Item<T>>,
    ghost consumed: seq<Consumed<T>>)

  // ---- Steps ----

  ghost predicate CanSend<T>(s: State<T>, woken: Option<Thread>) {
    && !s.destroyed
    && match woken
       case Some(t) => t in s.waiting && t !in s.signalled
       case None => s.waiting <= s.signalled
  }

  /** `msg_q_snd`; the signal wakes a thread that waits unwoken, if there is one. */
  ghost function Send<T>(s: State<T>, item: Item<T>, woken: Option<Thread>): State<T>
    requires CanSend(s, woken)
  {
    if s.unblocked then s
    else
      s.(list := [item] + s.list,
         accepted := s.accepted + [item],
         signalled := match woken case Some(t) => s.signalled + {t} case None => s.signalled)
  }

  /** Takes the message at the tail, with none if the queue is unblocked and empty. */
  ghost function Take<T>(s: State<T>): State<T> {
    if s.list == [] then s
    else
      var last := s.list[|s.list| - 1];
      s.(list := s.list[..|s.list| - 1], consumed := s.consumed + [Consumed(last, Received)])
  }

  ghost predicate CanReceive<T>(s: State<T>, t: Thread) {
    !s.destroyed && t !in s.waiting
  }

  /** `msg_q_rcv` up to its wait, or to its end. */
  ghost function Receive<T>(s: State<T>, t: Thread): State<T>
    requires CanReceive(s, t)
  {
    if s.unblocked then s
    else if s.list == [] then s.(waiting := s.waiting + {t}, signalled := s.signalled - {t})
    else Take(s)
  }

  ghost function ReceiveOutcome<T>(s: State<T>, t: Thread): Outcome<T>
    requires CanReceive(s, t)
  {
    if s.unblocked then Unblocked
    else if s.list == [] then Waits
    else Gets(s.list[|s.list| - 1].data)
  }

  ghost predicate CanWake<T>(s: State<T>, t: Thread) {
    t in s.waiting && !s.destroyed
  }

  /** The wait ends: back to waiting, or on to taking a message if there is one. */
  ghost function Wake<T>(s: State<T>, t: Thread): State<T>
    requires CanWake(s, t)
  {
    var s1 := s.(signalled := s.signalled - {t});
    if s.list == [] && !s.unblocked then s1 else Take(s1.(waiting := s.waiting - {t}))
  }

  ghost function WakeOutcome<T>(s: State<T>, t: Thread): Outcome<T>
    requires CanWake(s, t)
  {
    if s.list == [] then if s.unblocked then Unblocked else Waits
    else Gets(s.list[|s.list| - 1].data)
  }

  /** All of a list, oldest first, as thrown away. */
  ghost function ThrowAway<T>(list: seq<Item<T>>): seq<Consumed<T>> {
    if list == [] then [] else ThrowAway(list[1..]) + [Consumed(list[0], ThrownAway)]
  }

  ghost function Flush<T>(s: State<T>): State<T> {
    s.(list := [], deallocated := s.deallocated + Deallocated(s.list), consumed := s.consumed + ThrowAway(s.list))
  }

  ghost function Unblock<T>(s: State<T>): State<T> {
    if s.unblocked then s else s.(unblocked := true, signalled := s.waiting)
  }

  /** Nobody may use the queue while, or after, it is destroyed. */
  ghost predicate CanDestroy<T>(s: State<T>) {
    !s.destroyed && s.waiting == {}
  }

  ghost function Destroy<T>(s: State<T>): State<T>
    requires CanDestroy(s)
  {
    Flush(s).(destroyed := true, unblocked := false)
  }

  datatype Event<T> =
    | EvSend(item: Item<T>, woken: Option<Thread>)
    | EvReceive(t: Thread)
    | EvWake(t: Thread)
    | EvFlush
    | EvUnblock
    | EvDestroy

  ghost predicate CanDo<T>(s: State<T>, e: Event<T>) {
    match e
    case EvSend(_, woken) => CanSend(s, woken)
    case EvReceive(t) => CanReceive(s, t)
    case EvWake(t) => CanWake(s, t)
    case EvFlush => !s.destroyed
    case EvUnblock => !s.destroyed
    case EvDestroy => CanDestroy(s)
  }

  ghost function Next<T>(s: State<T>, e: Event<T>): State<T>
    requires CanDo(s, e)
  {
    match e
    case EvSend(item, woken) => Send(s, item, woken)
    case EvReceive(t) => Receive(s, t)
    case EvWake(t) => Wake(s, t)
    case EvFlush => Flush(s)
    case EvUnblock => Unblock(s)
    case EvDestroy => Destroy(s)
  }

  ghost predicate Initial<T>(s: State<T>) {
    s == State([], false, false, {}, {}, [], [], [])
  }

  ghost predicate IsRun<T>(states: seq<State<T>>, events: seq<Event<T>>) {
    && |states| == |events| + 1
    && Initial(states[0])
    && forall k | 0 <= k < |events| :: CanDo(states[k], events[k]) && states[k + 1] == Next(states[k], events[k])
  }

  // ---- The invariant ----

  ghost function Reversed<T>(xs: seq<T>): (r: seq<T>)
    ensures |r| == |xs|
  {
    if xs == [] then [] else Reversed(xs[1..]) + [xs[0]]
  }

  ghost function Items<T>(consumed: seq<Consumed<T>>): (items: seq<Item<T>>)
    ensures |items| == |consumed| && forall i | 0 <= i < |items| :: items[i] == consumed[i].item
  {
    if consumed == [] then [] else Items(consumed[..|consumed| - 1]) + [consumed[|consumed| - 1].item]
  }

  /** The data of those that were thrown away and came with a function to deallocate them. */
  ghost function Doomed<T>(consumed: seq<Consumed<T>>): multiset<T> {
    if consumed == [] then multiset{}
    else
      var last := consumed[|consumed| - 1];
      Doomed(consumed[..|consumed| - 1])
      + if last.fate.ThrownAway? && last.item.dealloc then multiset{last.item.data} else multiset{}
  }

  /** Every accepted message is consumed or queued, in order; what was thrown away was
    * deallocated if it could be; and no waiting thread is left behind.
    */
  ghost predicate Inv<T>(s: State<T>) {
    && s.accepted == Items(s.consumed) + Reversed(s.list)
    && multiset(s.deallocated) == Doomed(s.consumed)
    && s.signalled <= s.waiting
    && (s.signalled < s.waiting ==> !s.unblocked && |s.list| <= |s.signalled|)
    && (s.destroyed ==> s.list == [] && s.waiting == {})
  }

  lemma {:induction false} ReversedEnds<T>(xs: seq<T>)
    requires xs != []
    ensures Reversed(xs) == [xs[|xs| - 1]] + Reversed(xs[..|xs| - 1])
  {
    if |xs| == 1 {
    } else {
      ReversedEnds(xs[1..]);
      assert xs[1..][..|xs| - 2] == xs[..|xs| - 1][1..];
    }
  }

  lemma ConsumeOne<T>(consumed: seq<Consumed<T>>, c: Consumed<T>)
    ensures Items(consumed + [c]) == Items(consumed) + [c.item]
    ensures Doomed(consumed + [c])
         == Doomed(consumed) + if c.fate.ThrownAway? && c.item.dealloc then multiset{c.item.data} else multiset{}
  {
    assert (consumed + [c])[..|consumed|] == consumed;
  }

  lemma {:induction false} ConsumeAll<T>(consumed: seq<Consumed<T>>, list: seq<Item<T>>)
    ensures Items(consumed + ThrowAway(list)) == Items(consumed) + Reversed(list)
  {
    hide Items;
    if list == [] {
      assert consumed + ThrowAway(list) == consumed;
    } else {
      var c, before := Consumed(list[0], ThrownAway), consumed + ThrowAway(list[1..]);
      assert consumed + ThrowAway(list) == before + [c];
      assert Reversed(list) == Reversed(list[1..]) + [list[0]];
      hide ThrowAway, Reversed;
      ConsumeAll(consumed, list[1..]);
      ConsumeOne(before, c);
    }
  }

  lemma {:induction false} ThrownAwayIsDoomed<T>(consumed: seq<Consumed<T>>, list: seq<Item<T>>)
    ensures Doomed(consumed + ThrowAway(list)) == Doomed(consumed) + multiset(Deallocated(list))
  {
    hide Doomed;
    if list == [] {
      assert consumed + ThrowAway(list) == consumed;
      assert multiset(Deallocated(list)) == multiset{};
    } else {
      var c, before := Consumed(list[0], ThrownAway), consumed + ThrowAway(list[1..]);
      assert consumed + ThrowAway(list) == before + [c];
      DeallocatedOneMore(list);
      hide ThrowAway, Deallocated;
      ThrownAwayIsDoomed(consumed, list[1..]);
      ConsumeOne(before, c);
    }
  }

  lemma DeallocatedOneMore<T>(list: seq<Item<T>>)
    requires list != []
    ensures multiset(Deallocated(list))
         == multiset(Deallocated(list[1..])) + if list[0].dealloc then multiset{list[0].data} else multiset{}
  {
    var rest := Deallocated(list[1..]);
    if list[0].dealloc {
      assert Deallocated(list) == [list[0].data] + rest;
    } else {
      assert Deallocated(list) == rest;
    }
  }

  lemma TakeKeepsOrder<T>(s: State<T>)
    requires s.accepted == Items(s.consumed) + Reversed(s.list) && multiset(s.deallocated) == Doomed(s.consumed)
    ensures var s' := Take(s);
      && s'.accepted == Items(s'.consumed) + Reversed(s'.list)
      && multiset(s'.deallocated) == Doomed(s'.consumed)
  {
    hide Items, Doomed, Reversed;
    if s.list != [] {
      ReversedEnds(s.list);
      ConsumeOne(s.consumed, Consumed(s.list[|s.list| - 1], Received));
    }
  }

  lemma SendKeepsInv<T>(s: State<T>, item: Item<T>, woken: Option<Thread>)
    requires Inv(s) && CanSend(s, woken)
    ensures Inv(Send(s, item, woken))
  {
    hide Items, Doomed;
    if !s.unblocked {
      assert ([item] + s.list)[1..] == s.list;
      assert Reversed([item] + s.list) == Reversed(s.list) + [item];
      hide Reversed;
      if woken.Some? {
        assert woken.value in s.waiting - s.signalled && s.signalled < s.waiting;
        assert |s.signalled + {woken.value}| == |s.signalled| + 1;
      }
    }
  }

  lemma WakeKeepsInv<T>(s: State<T>, t: Thread)
    requires Inv(s) && CanWake(s, t)
    ensures Inv(Wake(s, t))
  {
    hide Items, Doomed, Reversed;
    var s1 := s.(signalled := s.signalled - {t});
    if t in s.signalled {
      assert |s1.signalled| == |s.signalled| - 1;
    } else {
      assert s1.signalled == s.signalled && s.signalled < s.waiting;
    }
    TakeKeepsOrder(s1.(waiting := s.waiting - {t}));
  }

  lemma FlushKeepsInv<T>(s: State<T>)
    requires Inv(s)
    ensures Inv(Flush(s))
  {
    ConsumeAll(s.consumed, s.list);
    ThrownAwayIsDoomed(s.consumed, s.list);
    assert multiset(s.deallocated + Deallocated(s.list)) == multiset(s.deallocated) + multiset(Deallocated(s.list));
    hide Items, Doomed;
  }

  lemma StepKeepsInv<T>(s: State<T>, e: Event<T>)
    requires Inv(s) && CanDo(s, e)
    ensures Inv(Next(s, e))
  {
    match e
    case EvSend(item, woken) => SendKeepsInv(s, item, woken);
    case EvReceive(t) => TakeKeepsOrder(s);
    case EvWake(t) => WakeKeepsInv(s, t);
    case EvFlush => FlushKeepsInv(s);
    case EvUnblock =>
    case EvDestroy => FlushKeepsInv(s);
  }

  lemma {:induction false} RunKeepsInv<T>(states: seq<State<T>>, events: seq<Event<T>>, n: nat)
    requires IsRun(states, events) && n < |states|
    ensures Inv(states[n])
  {
    hide Inv;
    if n == 0 {
      InitialIsInv(states[0]);
    } else {
      RunKeepsInv(states, events, n - 1);
      StepKeepsInv(states[n - 1], events[n - 1]);
    }
  }

  lemma InitialIsInv<T>(s: State<T>)
    requires Initial(s)
    ensures Inv(s)
  {
  }

  // ---- What holds in every run ----

  /** Messages leave in the order in which they were accepted, each once: it was received, or
    * it was thrown away and then deallocated if it came with a function for that. Those that
    * have not left are queued.
    */
  lemma MessagesLeaveInOrder<T>(states: seq<State<T>>, events: seq<Event<T>>, n: nat)
    requires IsRun(states, events) && n < |states|
    ensures var s := states[n];
      && |s.accepted| == |s.consumed| + |s.list|
      && (forall i | 0 <= i < |s.consumed| :: s.consumed[i].item == s.accepted[i])
      && (forall i | 0 <= i < |s.list| :: s.list[i] == s.accepted[|s.accepted| - 1 - i])
      && multiset(s.deallocated) == Doomed(s.consumed)
  {
    RunKeepsInv(states, events, n);
    var s := states[n];
    forall i | 0 <= i < |s.list|
      ensures Reversed(s.list)[|s.list| - 1 - i] == s.list[i]
    {
      ReversedAt(s.list, |s.list| - 1 - i);
    }
  }

  lemma {:induction false} ReversedAt<T>(xs: seq<T>, i: nat)
    requires i < |xs|
    ensures Reversed(xs)[i] == xs[|xs| - 1 - i]
  {
    if i == |xs| - 1 {
    } else {
      ReversedAt(xs[1..], i);
    }
  }

  // ---- What was accepted ----

  /** The items sent before the queue was unblocked, in order. */
  ghost function Sent<T>(events: seq<Event<T>>, n: nat): seq<Item<T>>
    requires n <= |events|
  {
    if n == 0 then []
    else Sent(events, n - 1) + if events[n - 1].EvSend? && EvUnblock !in events[..n - 1] then [events[n - 1].item] else []
  }

  ghost predicate IsAsTold<T>(s: State<T>, events: seq<Event<T>>, n: nat)
    requires n <= |events|
  {
    && s.accepted == Sent(events, n)
    && (s.destroyed <==> EvDestroy in events[..n])
    && (s.unblocked <==> EvUnblock in events[..n] && !s.destroyed)
  }

  /** Accepted are exactly the messages sent before the queue was unblocked, in order. */
  lemma {:induction false} AcceptedAreSent<T>(states: seq<State<T>>, events: seq<Event<T>>, n: nat)
    requires IsRun(states, events) && n < |states|
    ensures IsAsTold(states[n], events, n)
  {
    if n == 0 {
      hide CanDo, Next;
    } else {
      hide CanDo, Next, IsAsTold;
      AcceptedAreSent(states, events, n - 1);
      StepIsAsTold(states[n - 1], events, n - 1);
    }
  }

  lemma StepIsAsTold<T>(s: State<T>, events: seq<Event<T>>, n: nat)
    requires n < |events| && IsAsTold(s, events, n) && CanDo(s, events[n])
    ensures IsAsTold(Next(s, events[n]), events, n + 1)
  {
    assert events[..n + 1] == events[..n] + [events[n]];
    hide Take, ThrowAway, Deallocated;
    TakeKeepsRest(s);
    match events[n]
    case EvWake(t) => TakeKeepsRest(s.(signalled := s.signalled - {t}, waiting := s.waiting - {t}));
    case _ =>
  }

  lemma TakeKeepsRest<T>(s: State<T>)
    ensures var s' := Take(s);
      s'.accepted == s.accepted && s'.destroyed == s.destroyed && s'.unblocked == s.unblocked
  {
  }

  // ---- What callers get ----

  /** What a call of `rcv`, or its going on after a wait, comes to. */
  ghost function OutcomeOf<T>(s: State<T>, e: Event<T>): Outcome<T>
    requires (e.EvReceive? || e.EvWake?) && CanDo(s, e)
  {
    if e.EvReceive? then ReceiveOutcome(s, e.t) else WakeOutcome(s, e.t)
  }

  lemma OutcomeIsConsumed<T>(s: State<T>, e: Event<T>)
    requires Inv(s) && (e.EvReceive? || e.EvWake?) && CanDo(s, e)
    ensures var s', o, i := Next(s, e), OutcomeOf(s, e), |s.consumed|;
      && i <= |s.accepted|
      && o == (if e.EvReceive? && s.unblocked then Unblocked
               else if i < |s.accepted| then Gets(s.accepted[i].data)
               else if s.unblocked then Unblocked else Waits)
      && s'.consumed == (if o.Gets? then s.consumed + [Consumed(s.accepted[i], Received)] else s.consumed)
      && s'.accepted == s.accepted
      && s'.waiting == (if o.Waits? then s.waiting + {e.t} else s.waiting - {e.t})
  {
    hide Doomed, Items;
    if s.list != [] {
      ReversedAt(s.list, 0);
    }
    hide Reversed;
  }

  /** In a run, such a call gets the oldest message that is not yet consumed, and consumes it; it
    * waits if there is none, and gets none once the queue is unblocked.
    */
  lemma CallsGetTheOldest<T>(states: seq<State<T>>, events: seq<Event<T>>, n: nat)
    requires IsRun(states, events) && n < |events| && (events[n].EvReceive? || events[n].EvWake?)
    ensures var s, s', i := states[n], states[n + 1], |states[n].consumed|;
      var o := OutcomeOf(s, events[n]);
      && i <= |s.accepted|
      && o == (if events[n].EvReceive? && s.unblocked then Unblocked
               else if i < |s.accepted| then Gets(s.accepted[i].data)
               else if s.unblocked then Unblocked else Waits)
      && s'.consumed == (if o.Gets? then s.consumed + [Consumed(s.accepted[i], Received)] else s.consumed)
      && s'.accepted == s.accepted
      && s'.waiting == (if o.Waits? then s.waiting + {events[n].t} else s.waiting - {events[n].t})
  {
    RunKeepsInv(states, events, n);
    hide Inv, Next;
    OutcomeIsConsumed(states[n], events[n]);
  }

  /** The data that calls have handed out, in order. */
  ghost function HandedOut<T>(states: seq<State<T>>, events: seq<Event<T>>, n: nat): seq<T>
    requires IsRun(states, events) && n < |states|
  {
    if n == 0 then []
    else
      var s, e := states[n - 1], events[n - 1];
      HandedOut(states, events, n - 1)
      + if (e.EvReceive? || e.EvWake?) && OutcomeOf(s, e).Gets? then [OutcomeOf(s, e).data] else []
  }

  lemma {:induction false} HandedOutIsReceived<T>(states: seq<State<T>>, events: seq<Event<T>>, n: nat)
    requires IsRun(states, events) && n < |states|
    ensures HandedOut(states, events, n) == Data(states[n].consumed)
  {
    hide Next, Inv;
    if n == 0 {
    } else {
      var s, e := states[n - 1], events[n - 1];
      HandedOutIsReceived(states, events, n - 1);
      if e.EvReceive? || e.EvWake? {
        CallsGetTheOldest(states, events, n - 1);
        hide CanDo, Data, OutcomeOf;
        if OutcomeOf(s, e).Gets? {
          ConsumedData(s.consumed, Consumed(s.accepted[|s.consumed|], Received));
        }
      } else {
        OthersReceiveNothing(s, e);
      }
    }
  }

  lemma OthersReceiveNothing<T>(s: State<T>, e: Event<T>)
    requires CanDo(s, e) && !e.EvReceive? && !e.EvWake?
    ensures Data(Next(s, e).consumed) == Data(s.consumed)
  {
    if Loses(s, e) {
      AllThrownAway(s.list);
      NoneReceived(s.consumed, ThrowAway(s.list));
    } else {
      assert s.consumed + [] == s.consumed;
    }
  }

  lemma {:induction false} NoneReceived<T>(c: seq<Consumed<T>>, more: seq<Consumed<T>>)
    requires forall m | m in more :: m.fate.ThrownAway?
    ensures Data(c + more) == Data(c)
  {
    if more == [] {
      assert c + more == c;
    } else {
      var before, last := more[..|more| - 1], more[|more| - 1];
      assert c + more == (c + before) + [last];
      NoneReceived(c, before);
      ConsumedData(c + before, last);
    }
  }

  // ---- Received messages as a prefix ----

  /** The data of the received messages, in the order of their receipt. */
  ghost function Data<T>(consumed: seq<Consumed<T>>): seq<T> {
    if consumed == [] then []
    else
      var last := consumed[|consumed| - 1];
      Data(consumed[..|consumed| - 1]) + if last.fate.Received? then [last.item.data] else []
  }

  /** No message was received that was accepted after one that was thrown away. */
  ghost predicate ReceivedFirst<T>(consumed: seq<Consumed<T>>) {
    forall i, j | 0 <= i < j < |consumed| && consumed[j].fate.Received? :: consumed[i].fate.Received?
  }

  /** A flush, or the end, of a queue with messages in it. */
  ghost predicate Loses<T>(s: State<T>, e: Event<T>) {
    (e.EvFlush? || e.EvDestroy?) && s.list != []
  }

  /** A call of `rcv` that comes to get a message. */
  ghost predicate GetsOne<T>(s: State<T>, e: Event<T>) {
    && CanDo(s, e)
    && ((e.EvReceive? && ReceiveOutcome(s, e.t).Gets?) || (e.EvWake? && WakeOutcome(s, e.t).Gets?))
  }

  /** In the first `n` steps, nobody gets a message after a queue with messages was flushed. */
  ghost predicate NoneReceivedAfterLoss<T>(states: seq<State<T>>, events: seq<Event<T>>, n: nat)
    requires |states| == |events| + 1 && n < |states|
  {
    forall k, m | 0 <= k < m < n :: !(Loses(states[k], events[k]) && GetsOne(states[m], events[m]))
  }

  ghost predicate SomeThrownAway<T>(consumed: seq<Consumed<T>>) {
    exists i :: 0 <= i < |consumed| && consumed[i].fate.ThrownAway?
  }

  /** What a step adds to the consumed messages. */
  lemma StepConsumes<T>(s: State<T>, e: Event<T>)
    requires CanDo(s, e)
    ensures Next(s, e).consumed
         == if Loses(s, e) then s.consumed + ThrowAway(s.list)
            else if GetsOne(s, e) then s.consumed + [Consumed(s.list[|s.list| - 1], Received)]
            else s.consumed
    ensures GetsOne(s, e) ==> s.list != [] && !Loses(s, e)
  {
    if s.list == [] {
      assert s.consumed + ThrowAway(s.list) == s.consumed;
    }
  }

  lemma {:induction false} AllThrownAway<T>(list: seq<Item<T>>)
    ensures |ThrowAway(list)| == |list|
    ensures forall c | c in ThrowAway(list) :: c.fate.ThrownAway?
  {
    if list == [] {
    } else {
      AllThrownAway(list[1..]);
    }
  }

  ghost predicate SomeLoss<T>(states: seq<State<T>>, events: seq<Event<T>>, n: nat)
    requires |states| == |events| + 1 && n < |states|
  {
    exists k :: 0 <= k < n && Loses(states[k], events[k])
  }

  lemma OneStepMore<T>(states: seq<State<T>>, events: seq<Event<T>>, n: nat)
    requires |states| == |events| + 1 && n < |events|
    ensures SomeLoss(states, events, n + 1) <==> SomeLoss(states, events, n) || Loses(states[n], events[n])
    ensures NoneReceivedAfterLoss(states, events, n + 1)
      <==> NoneReceivedAfterLoss(states, events, n) && !(SomeLoss(states, events, n) && GetsOne(states[n], events[n]))
  {
    hide Loses, GetsOne;
    if NoneReceivedAfterLoss(states, events, n + 1) && SomeLoss(states, events, n) {
      var k :| 0 <= k < n && Loses(states[k], events[k]);
      assert !(Loses(states[k], events[k]) && GetsOne(states[n], events[n]));
    }
  }

  lemma {:induction false} LossesThrowAway<T>(states: seq<State<T>>, events: seq<Event<T>>, n: nat)
    requires IsRun(states, events) && n < |states|
    ensures SomeThrownAway(states[n].consumed) <==> SomeLoss(states, events, n)
    ensures ReceivedFirst(states[n].consumed) <==> NoneReceivedAfterLoss(states, events, n)
  {
    if n == 0 {
      hide CanDo, Next, Loses, GetsOne;
    } else {
      hide CanDo, Next, Loses, GetsOne, SomeLoss, NoneReceivedAfterLoss, SomeThrownAway, ReceivedFirst;
      LossesThrowAway(states, events, n - 1);
      OneStepMore(states, events, n - 1);
      var s, e := states[n - 1], events[n - 1];
      assert CanDo(s, e) && states[n] == Next(s, e);
      StepConsumes(s, e);
      if Loses(s, e) {
        LossAddsThrownAway(s, e);
      } else if GetsOne(s, e) {
        ReceiptAddsReceived(s.consumed, s.list[|s.list| - 1]);
      }
    }
  }

  lemma LossAddsThrownAway<T>(s: State<T>, e: Event<T>)
    requires CanDo(s, e) && Loses(s, e)
    ensures SomeThrownAway(Next(s, e).consumed)
    ensures ReceivedFirst(Next(s, e).consumed) <==> ReceivedFirst(s.consumed)
  {
    StepConsumes(s, e);
    AllThrownAway(s.list);
    var c, more := s.consumed, ThrowAway(s.list);
    hide ThrowAway, Next;
    assert (c + more)[|c|] == more[0] && more[0] in more;
    assert forall i | 0 <= i < |c| :: (c + more)[i] == c[i];
    assert forall i | |c| <= i < |c + more| :: (c + more)[i] == more[i - |c|] && more[i - |c|] in more;
  }

  lemma ReceiptAddsReceived<T>(c: seq<Consumed<T>>, item: Item<T>)
    ensures var c' := c + [Consumed(item, Received)];
      && (SomeThrownAway(c') <==> SomeThrownAway(c))
      && (ReceivedFirst(c') <==> ReceivedFirst(c) && !SomeThrownAway(c))
  {
    var c' := c + [Consumed(item, Received)];
    assert forall i | 0 <= i < |c| :: c'[i] == c[i];
    assert c'[|c|].fate.Received?;
  }

  lemma {:induction false} DataOfReceivedFirst<T>(c: seq<Consumed<T>>)
    ensures |Data(c)| <= |c|
    ensures ReceivedFirst(c) ==> forall i | 0 <= i < |Data(c)| :: Data(c)[i] == c[i].item.data
    ensures ReceivedFirst(c) && !SomeThrownAway(c) ==> |Data(c)| == |c|
  {
    if c == [] {
    } else {
      var before, last := c[..|c| - 1], c[|c| - 1];
      DataOfReceivedFirst(before);
      assert forall i | 0 <= i < |before| :: before[i] == c[i];
      assert last.fate.Received? ==> Data(c) == Data(before) + [last.item.data];
    }
  }

  /** The received messages are, by index, the first of the accepted ones, if and only if nobody
    * got a message after a queue with messages in it was flushed. And then what was received is
    * the beginning of what was accepted.
    */
  lemma ReceivedIsPrefix<T>(states: seq<State<T>>, events: seq<Event<T>>, n: nat)
    requires IsRun(states, events) && n < |states|
    ensures var s := states[n];
      && (ReceivedFirst(s.consumed) <==> NoneReceivedAfterLoss(states, events, n))
      && (NoneReceivedAfterLoss(states, events, n) ==>
            && |Data(s.consumed)| <= |s.accepted|
            && forall i | 0 <= i < |Data(s.consumed)| :: Data(s.consumed)[i] == s.accepted[i].data)
  {
    LossesThrowAway(states, events, n);
    MessagesLeaveInOrder(states, events, n);
    DataOfReceivedFirst(states[n].consumed);
  }

  const SEND_FLUSH_SEND: seq<Event<int>> :=
    [EvSend(Item(10, false), None), EvFlush, EvSend(Item(20, false), None), EvReceive(0)]

  /** A run in which it fails: the first message is thrown away, and the second is received. */
  lemma ReceivedAfterAFlush() returns (states: seq<State<int>>)
    ensures IsRun(states, SEND_FLUSH_SEND)
    ensures states[4].accepted == [Item(10, false), Item(20, false)] && Data(states[4].consumed) == [20]
  {
    var one, two := Item(10, false), Item(20, false);
    var s0 := State([], false, false, {}, {}, [], [], []);
    var s1 := Send(s0, one, None);
    var s2 := Flush(s1);
    var s3 := Send(s2, two, None);
    var s4 := Take(s3);
    states := [s0, s1, s2, s3, s4];
    assert s1.list == [one] && s1.list[1..] == [];
    assert ThrowAway(s1.list) == ThrowAway(s1.list[1..]) + [Consumed(one, ThrownAway)];
    assert s2.consumed == [] + [Consumed(one, ThrownAway)];
    assert s3.list == [two];
    ConsumedData(s2.consumed, Consumed(two, Received));
    ConsumedData([], Consumed(one, ThrownAway));
  }

  lemma ConsumedData<T>(consumed: seq<Consumed<T>>, c: Consumed<T>)
    ensures Data(consumed + [c]) == Data(consumed) + if c.fate.Received? then [c.item.data] else []
  {
    assert (consumed + [c])[..|consumed|] == consumed;
  }

  /** Once the queue is unblocked, nothing is accepted any more until it is destroyed; and a call
    * of `rcv` that begins then gets nothing.
    */
  lemma {:induction false} NothingIsAcceptedAfterUnblock<T>(states: seq<State<T>>, events: seq<Event<T>>, m: nat, n: nat)
    requires IsRun(states, events) && m <= n < |states|
    requires states[m].unblocked && !states[n].destroyed
    ensures states[n].unblocked && states[n].accepted == states[m].accepted
    ensures n < |events| && events[n].EvReceive? ==>
      ReceiveOutcome(states[n], events[n].t) == Unblocked && states[n + 1] == states[n]
    decreases n - m
  {
    if m == n {
    } else {
      assert !states[n - 1].destroyed;
      NothingIsAcceptedAfterUnblock(states, events, m, n - 1);
    }
  }

  /** No receiver is left behind: with a thread waiting unwoken, the queue is not unblocked, and
    * as many threads are awake as there are messages. So if all are asleep, there is none.
    */
  lemma NoReceiverIsLeftBehind<T>(states: seq<State<T>>, events: seq<Event<T>>, n: nat, t: Thread)
    requires IsRun(states, events) && n < |states|
    requires t in states[n].waiting && t !in states[n].signalled
    ensures var s := states[n];
      !s.unblocked && |s.list| <= |s.signalled| && (s.signalled == {} ==> s.list == [])
  {
    RunKeepsInv(states, events, n);
    assert t in states[n].waiting - states[n].signalled;
    hide Items, Doomed, Reversed;
  }
}
