/** The device that merges the events of all sub-modules, over its queues. */
module SensorsPollContext {
  import opened Options
  import opened SensorEventQueue
  import opened SensorHandles
  import opened MultiHal

  class SensorsPollContext {
    var globalToFull: map<int, FullHandle>
    var fullToGlobal: map<FullHandle, int>
    var nextGlobalHandle: int
    const queues: seq<SensorEventQueue<SensorEvent>>
    var nextReadIndex: nat

    /** The queues share nothing. */
    ghost predicate Separate() {
      forall i, j | 0 <= i < j < |queues| :: queues[i] != queues[j] && queues[i].mData != queues[j].mData
    }

    ghost function Maps(): HandleMaps
      reads this
    {
      HandleMaps(globalToFull, fullToGlobal, nextGlobalHandle)
    }

    ghost predicate QueuesAre(values: seq<Queue>)
      reads queues, set q | q in queues :: q.mData
    {
      && Separate() && |values| == |queues|
      && forall i | 0 <= i < |queues| :: queues[i].Valid() && queues[i].Value() == values[i]
    }

    /** The queues, and the place in the round, are those of `s`. */
    ghost predicate Matches(s: Scan)
      reads this, queues, set q | q in queues :: q.mData
    {
      s.Valid() && QueuesAre(s.queues) && |s.queues| == |queues| && nextReadIndex == s.nextReadIndex
    }

    constructor (queues: seq<SensorEventQueue<SensorEvent>>)
      ensures Maps() == NO_HANDLES && nextReadIndex == 0 && this.queues == queues
    {
      globalToFull, fullToGlobal, nextGlobalHandle := map[], map[], 1;
      this.queues, nextReadIndex := queues, 0;
    }

    method AssignGlobalHandle(moduleIndex: int, localHandle: int) returns (globalHandle: int)
      modifies this`globalToFull, this`fullToGlobal, this`nextGlobalHandle
      ensures Maps() == old(Maps()).Assign(FullHandle(moduleIndex, localHandle))
      ensures globalHandle == old(nextGlobalHandle)
    {
      globalHandle := nextGlobalHandle;
      nextGlobalHandle := nextGlobalHandle + 1;
      var fullHandle := FullHandle(moduleIndex, localHandle);
      fullToGlobal := fullToGlobal[fullHandle := globalHandle];
      globalToFull := globalToFull[globalHandle := fullHandle];
    }

    method GetLocalHandle(globalHandle: int) returns (localHandle: int)
      ensures localHandle == Maps().LocalHandle(globalHandle)
    {
      if globalHandle !in globalToFull {
        return -1;
      }
      return globalToFull[globalHandle].localHandle;
    }

    method GetModuleIndex(globalHandle: int) returns (moduleIndex: int)
      ensures moduleIndex == Maps().ModuleIndex(globalHandle)
    {
      if globalHandle !in globalToFull {
        return -1;
      }
      return globalToFull[globalHandle].moduleIndex;
    }

    method GetGlobalHandle(fullHandle: FullHandle) returns (globalHandle: int)
      ensures globalHandle == Maps().GlobalHandle(fullHandle)
    {
      globalHandle := -1;
      if fullHandle in fullToGlobal {
        globalHandle := fullToGlobal[fullHandle];
      }
    }

    method CopyEventRemapHandle(dest: array<SensorEvent>, at: nat, src: SensorEvent, subIndex: nat)
      requires at < dest.Length
      modifies dest
      ensures dest[..] == old(dest[..])[at := Maps().RemapHandle(src, subIndex)]
    {
      match src {
        case MetaData(sensor, what, about) =>
          var globalHandle := GetGlobalHandle(FullHandle(subIndex, about));
          dest[at] := MetaData(sensor, what, globalHandle);
        case Normal(sensor, reading) =>
          var globalHandle := GetGlobalHandle(FullHandle(subIndex, sensor));
          dest[at] := Normal(globalHandle, reading);
      }
    }

    method PeekAt(i: nat, ghost values: seq<Queue>) returns (event: Option<SensorEvent>)
      requires QueuesAre(values) && i < |queues| == |values| && values[i].Valid()
      ensures event == if values[i].Contents() == [] then None else Some(values[i].Contents()[0])
    {
      event := queues[i].Peek();
    }

    method DequeueFrom(i: nat, ghost values: seq<Queue>)
      requires QueuesAre(values) && i < |queues| == |values| && values[i].Valid()
      modifies queues[i]
      ensures QueuesAre(values[i := values[i].Dequeue()])
    {
      queues[i].Dequeue();
    }

    /** Stores an event of the queue that is visited; a bad event is overwritten by the next. */
    method StoreEvent(data: array<SensorEvent>, eventsRead: nat, event: SensorEvent) returns (eventsRead': nat)
      requires eventsRead < data.Length
      modifies data
      ensures eventsRead' <= data.Length
      ensures var out := Maps().RemapHandle(event, nextReadIndex);
        data[..eventsRead'] == old(data[..eventsRead]) + if out.sensor == -1 then [] else [out]
    {
      CopyEventRemapHandle(data, eventsRead, event, nextReadIndex);
      eventsRead' := eventsRead;
      if data[eventsRead].sensor != -1 {
        eventsRead' := eventsRead + 1;
      }
      assert data[..][..eventsRead] == old(data[..][..eventsRead]);
    }

    method TakeEvent(data: array<SensorEvent>, eventsRead: nat, event: SensorEvent, ghost values: seq<Queue>)
      returns (eventsRead': nat)
      requires QueuesAre(values) && nextReadIndex < |queues| == |values| && values[nextReadIndex].Valid()
      requires eventsRead < data.Length && forall i | 0 <= i < |queues| :: data != queues[i].mData
      modifies data, queues[nextReadIndex]
      ensures QueuesAre(values[nextReadIndex := values[nextReadIndex].Dequeue()])
      ensures eventsRead' <= data.Length
      ensures var out := Maps().RemapHandle(event, nextReadIndex);
        data[..eventsRead'] == old(data[..eventsRead]) + if out.sensor == -1 then [] else [out]
    {
      eventsRead' := StoreEvent(data, eventsRead, event);
      assert QueuesAre(values);
      hide QueuesAre, HandleMaps.RemapHandle, Queue.Dequeue;
      DequeueFrom(nextReadIndex, values);
    }

    /** On to the next queue in the round. */
    method Advance(ghost values: seq<Queue>)
      requires QueuesAre(values) && nextReadIndex < |queues|
      modifies this`nextReadIndex
      ensures QueuesAre(values) && nextReadIndex == (old(nextReadIndex) + 1) % |queues|
    {
      nextReadIndex := (nextReadIndex + 1) % |queues|;
    }

    /** One visit: the body of the loop in `poll`. */
    method VisitNext(data: array<SensorEvent>, eventsRead: nat, empties: nat, ghost s: Scan)
      returns (eventsRead': nat, empties': nat)
      requires Matches(s) && empties == s.empties < |queues|
      requires eventsRead == |s.data| < data.Length && data[..eventsRead] == s.data
      requires forall i | 0 <= i < |queues| :: data != queues[i].mData
      modifies this`nextReadIndex, data, queues
      ensures Matches(Visit(s, Maps()))
      ensures empties' == Visit(s, Maps()).empties && eventsRead' == |Visit(s, Maps()).data|
      ensures eventsRead' <= data.Length && data[..eventsRead'] == Visit(s, Maps()).data
    {
      VisitKeepsValid(s, Maps());
      VisitSteps(s, Maps());
      assert nextReadIndex < |queues| && s.queues[nextReadIndex].Valid();
      hide QueuesAre, HandleMaps.RemapHandle, Queue.Dequeue, Queue.Contents, Queue.Valid, Visit, Scan.Valid;
      var event := PeekAt(nextReadIndex, s.queues);
      eventsRead', empties' := eventsRead, empties;
      if event == None {
        empties' := empties' + 1;
      } else {
        empties' := 0;
        eventsRead' := TakeEvent(data, eventsRead, event.value, s.queues);
      }
      Advance(Visit(s, Maps()).queues);
    }

    /** The inner loop of `poll`, which runs under the mutex: from its start or from a wakeup
      * until it has something to return or must wait.
      */
    method ScanQueues(data: array<SensorEvent>, maxReads: nat, ghost s: Scan)
      returns (eventsRead: nat, ghost s': Scan)
      requires Matches(s) && s.empties == 0 && s.data == []
      requires maxReads <= data.Length && forall i | 0 <= i < |queues| :: data != queues[i].mData
      modifies this`nextReadIndex, data, queues
      ensures s' == MultiHal.ScanQueues(s, Maps(), maxReads) && Matches(s')
      ensures eventsRead == |s'.data| <= data.Length && data[..eventsRead] == s'.data
    {
      hide QueuesAre, Separate, MultiHal.ScanQueues, Visit;
      var empties := 0;
      eventsRead, s' := 0, s;
      while empties < |queues| && eventsRead < maxReads
        invariant Matches(s') && empties == s'.empties <= |queues|
        invariant eventsRead == |s'.data| <= data.Length && data[..eventsRead] == s'.data
        invariant MultiHal.ScanQueues(s', Maps(), maxReads) == MultiHal.ScanQueues(s, Maps(), maxReads)
        decreases Queued(s'.queues), |queues| - empties
      {
        VisitKeepsValid(s', Maps());
        ScanGoesOn(s', Maps(), maxReads);
        eventsRead, empties := VisitNext(data, eventsRead, empties, s');
        s' := Visit(s', Maps());
      }
      ScanGoesOn(s', Maps(), maxReads);
    }
  }
}
