/** The objects of the timer service: clients, the delegates that tick for them, the locks the
  * two share, and the containers delegates tick in.
  */
module LocTimer {
  import opened Options
  import opened RankedTree
  import opened Timespec

  /** A mutex with a count of its users. Only the count is modelled. */
  class LocSharedLock {
    var mRef: int

    constructor ()
      ensures mRef == 1
    {
      mRef := 1;
    }

    method Share()
      modifies this`mRef
      ensures mRef == old(mRef) + 1
    {
      mRef := mRef + 1;
    }

    /** Gives up one use; the last one to do so deletes the lock. */
    method Drop() returns (deleted: bool)
      modifies this`mRef
      ensures mRef == old(mRef) - 1
      ensures deleted <==> mRef == 0
    {
      deleted := mRef == 1;
      mRef := mRef - 1;
    }
  }

  class LocTimer {
    var mTimer: LocTimerDelegate?
    const mLock: LocSharedLock

    constructor ()
      ensures mTimer == null && fresh(mLock) && mLock.mRef == 1
    {
      mTimer := null;
      mLock := new LocSharedLock();
    }
  }

  class LocTimerDelegate {
    var mClient: LocTimer?
    var mContainer: LocTimerContainer?
    const mLock: LocSharedLock
    const mFutureTime: Timespec
    ghost const home: LocTimerContainer  // the container it was created for

    constructor (client: LocTimer, futureTime: Timespec, container: LocTimerContainer)
      modifies client.mLock`mRef
      ensures mClient == client && mContainer == home == container
      ensures mLock == client.mLock && mFutureTime == futureTime
      ensures mLock.mRef == old(client.mLock.mRef) + 1
    {
      mClient, mContainer, home := client, container, container;
      mLock, mFutureTime := client.mLock, futureTime;
      new;
      mLock.Share();
    }
  }

  predicate Sooner(a: LocTimerDelegate, b: LocTimerDelegate) {
    OutRanks(a.mFutureTime, b.mFutureTime)
  }

  /** A heap of ticking delegates, with the kernel's side of its timer descriptor: the time it
    * is armed for, and whether it is in the set that is polled. The heap is kept as the value
    * that a `LocHeap` ranked by `Sooner` represents.
    */
  class LocTimerContainer {
    var heap: Tree<LocTimerDelegate>
    var armed: Option<Timespec>
    var polled: bool

    constructor ()
      ensures heap.Empty? && armed == None && !polled
    {
      heap, armed, polled := Empty, None, false;
    }
  }
}
