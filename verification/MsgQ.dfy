/** The message queue over its list. Each method is what a thread does while it holds the mutex,
  * and is shown to be the step of the same name; `s` is the state that the queue is part of.
  */
module MsgQ {
  import opened Options
  import opened LinkedList
  import opened MsgQueue

  class MsgQ<T> {
    const msgList: LinkedList<T>
    var unblocked: bool

    ghost predicate Matches(s: State<T>)
      reads this, msgList, msgList.elements
    {
      && msgList.Valid()
      && s.list == msgList.contents && s.deallocated == msgList.deallocated
      && s.unblocked == unblocked && !s.destroyed
    }

    constructor ()
      ensures Matches(State([], false, false, {}, {}, [], [], []))
      ensures fresh(msgList)
    {
      msgList := new LinkedList<T>();
      unblocked := false;
    }

    method Snd(data: T, dealloc: bool, ghost woken: Option<Thread>, ghost s: State<T>) returns (status: Status)
      requires Matches(s) && CanSend(s, woken)
      modifies msgList, msgList.elements
      ensures Matches(Send(s, Item(data, dealloc), woken))
      ensures status.Success? <==> !s.unblocked
    {
      if unblocked {
        return UnavailableResource;
      }
      msgList.Add(data, dealloc);
      return Success;
    }

    /** Called with a message in the list, or after the queue was unblocked. */
    method TakeLast(ghost s: State<T>) returns (outcome: Outcome<T>)
      requires Matches(s)
      modifies msgList, msgList.elements
      ensures Matches(Take(s))
      ensures outcome == if s.list == [] then Unblocked else Gets(s.list[|s.list| - 1].data)
    {
      var status, data := msgList.Remove();
      outcome := if status.Success? then Gets(data.value) else Unblocked;
    }

    /** `msg_q_rcv`, to its end or to its wait. */
    method Rcv(ghost t: Thread, ghost s: State<T>) returns (outcome: Outcome<T>)
      requires Matches(s) && CanReceive(s, t)
      modifies msgList, msgList.elements
      ensures Matches(Receive(s, t)) && outcome == ReceiveOutcome(s, t)
    {
      if unblocked {
        return Unblocked;
      }
      var empty := msgList.Empty();
      if empty && !unblocked {
        return Waits;
      }
      outcome := TakeLast(s);
    }

    /** A wait in `msg_q_rcv` ends: the loop tests again. */
    method RcvWakes(ghost t: Thread, ghost s: State<T>) returns (outcome: Outcome<T>)
      requires Matches(s) && CanWake(s, t)
      modifies msgList, msgList.elements
      ensures Matches(Wake(s, t)) && outcome == WakeOutcome(s, t)
    {
      var empty := msgList.Empty();
      if empty && !unblocked {
        return Waits;
      }
      outcome := TakeLast(s.(signalled := s.signalled - {t}, waiting := s.waiting - {t}));
    }

    method FlushAll(ghost s: State<T>)
      requires Matches(s)
      modifies msgList
      ensures Matches(MsgQueue.Flush(s))
    {
      msgList.Flush();
    }

    method UnblockAll(ghost s: State<T>) returns (status: Status)
      requires Matches(s)
      modifies this
      ensures Matches(Unblock(s))
      ensures status.Success? <==> !s.unblocked
    {
      if unblocked {
        return UnavailableResource;
      }
      unblocked := true;
      return Success;
    }
  }
}
