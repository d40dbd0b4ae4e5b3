/** Which handles events are handed on with, told by the events of a run alone. */
module MultiHalHandles {
  import opened SensorEventQueue
  import opened SensorHandles
  import opened MultiHal
  import opened MultiHalProtocol
  import opened MultiHalRuns

  /** The sensors registered so far, in order. */
  ghost function Registered(events: seq<Event>, n: nat): seq<FullHandle>
    requires n <= |events|
  {
    if n == 0 then []
    else Registered(events, n - 1) + if events[n - 1].EvRegister? then [events[n - 1].f] else []
  }

  /** Handle `g` is that of the `g`th registration, and a sensor's is that of its last one. */
  ghost predicate MapsAre(m: HandleMaps, all: seq<FullHandle>) {
    && m.nextGlobalHandle == |all| + 1
    && (forall g :: g in m.globalToFull <==> 1 <= g <= |all|)
    && (forall g | 1 <= g <= |all| :: m.globalToFull[g] == all[g - 1])
    && (forall f :: f in m.fullToGlobal <==> f in all)
    && (forall f | f in m.fullToGlobal :: 1 <= m.fullToGlobal[f] <= |all| && all[m.fullToGlobal[f] - 1] == f)
    && (forall f, k | f in m.fullToGlobal && m.fullToGlobal[f] <= k < |all| :: all[k] != f)
  }

  lemma AssignIsRegistered(m: HandleMaps, all: seq<FullHandle>, f: FullHandle)
    requires MapsAre(m, all)
    ensures MapsAre(m.Assign(f), all + [f])
  {
  }

  lemma ScanKeepsMaps(s: State, e: Event)
    requires CanDo(s, e) && !e.EvRegister?
    ensures Next(s, e).maps == s.maps
  {
    hide ScanQueues;
  }

  lemma {:induction false} MapsAreRegistrations(states: seq<State>, events: seq<Event>, n: nat)
    requires IsRun(states, events) && n < |states|
    ensures MapsAre(states[n].maps, Registered(events, n))
  {
    if n == 0 {
      hide CanDo, Next;
    } else {
      hide CanDo, MapsAre;
      MapsAreRegistrations(states, events, n - 1);
      if events[n - 1].EvRegister? {
        AssignIsRegistered(states[n - 1].maps, Registered(events, n - 1), events[n - 1].f);
      } else {
        ScanKeepsMaps(states[n - 1], events[n - 1]);
        hide Next;
      }
    }
  }

  /** What the handles of a run translate to, both ways; what was never given out, to -1. */
  lemma HandlesAreRegistrations(states: seq<State>, events: seq<Event>, n: nat, g: int, f: FullHandle)
    requires IsRun(states, events) && n < |states|
    ensures var m, all := states[n].maps, Registered(events, n);
      && m.ModuleIndex(g) == (if 1 <= g <= |all| then all[g - 1].moduleIndex else -1)
      && m.LocalHandle(g) == (if 1 <= g <= |all| then all[g - 1].localHandle else -1)
      && (f !in all ==> m.GlobalHandle(f) == -1)
      && (f in all ==>
            var h := m.GlobalHandle(f);
            1 <= h <= |all| && all[h - 1] == f && forall k | h <= k < |all| :: all[k] != f)
  {
    hide IsRun;
    MapsAreRegistrations(states, events, n);
  }

  // ---- The handles that events were handed on with ----

  ghost predicate TakenBehind(before: seq<Taken>, after: seq<Taken>, maps: HandleMaps) {
    && |before| <= |after| && after[..|before|] == before
    && forall j | |before| <= j < |after| :: after[j].maps == maps
  }

  lemma {:induction false} ScanTakesWith(s: Scan, maps: HandleMaps, maxReads: int)
    requires s.Valid()
    ensures TakenBehind(s.taken, ScanQueues(s, maps, maxReads).taken, maps)
    decreases Queued(s.queues), |s.queues| - s.empties
  {
    if s.empties == |s.queues| || |s.data| >= maxReads {
    } else {
      VisitKeepsValid(s, maps);
      ScanTakesWith(Visit(s, maps), maps, maxReads);
    }
  }

  lemma StepTakesWith(s: State, e: Event)
    requires CanDo(s, e)
    ensures TakenBehind(s.scan.taken, Next(s, e).scan.taken, s.maps)
    ensures !e.EvPoll? && !e.EvWake? ==> Next(s, e).scan.taken == s.scan.taken
  {
    if e.EvPoll? {
      ScanTakesWith(s.scan.(empties := 0, data := []), s.maps, e.maxReads);
    } else if e.EvWake? {
      ScanTakesWith(s.scan.(empties := 0, data := []), s.maps, s.poller.maxReads);
    }
    hide ScanQueues;
  }

  /** Step `k` took event `j`. */
  ghost predicate TakenAt(states: seq<State>, events: seq<Event>, k: nat, j: nat)
    requires k < |events| && |states| == |events| + 1
  {
    && (events[k].EvPoll? || events[k].EvWake?)
    && |states[k].scan.taken| <= j < |states[k + 1].scan.taken|
  }

  /** Each event was taken off by one poll, and handed on with the handles as they were then. */
  lemma {:induction false} TakenWithHandlesOfItsTime(states: seq<State>, events: seq<Event>, n: nat, j: nat) returns (k: nat)
    requires IsRun(states, events) && n < |states| && j < |states[n].scan.taken|
    ensures k < n && TakenAt(states, events, k, j) && states[n].scan.taken[j].maps == states[k].maps
  {
    hide CanDo, Next;
    var before, after := states[n - 1].scan.taken, states[n].scan.taken;
    StepTakesWith(states[n - 1], events[n - 1]);
    if j < |before| {
      k := TakenWithHandlesOfItsTime(states, events, n - 1, j);
      assert after[..|before|][j] == before[j];
    } else {
      k := n - 1;
    }
  }

  lemma {:induction false} TakenStays(states: seq<State>, events: seq<Event>, m: nat, n: nat)
    requires IsRun(states, events) && m <= n < |states|
    ensures states[m].scan.taken <= states[n].scan.taken
    decreases n - m
  {
    hide CanDo, Next;
    if m == n {
    } else {
      TakenStays(states, events, m, n - 1);
      StepTakesWith(states[n - 1], events[n - 1]);
    }
  }

  ghost predicate NoneRegistered(events: seq<Event>, m: nat, n: nat, i: nat)
    requires n <= |events|
  {
    forall k | m <= k < n && events[k].EvRegister? :: events[k].f.moduleIndex != i
  }

  lemma {:induction false} SameHandles(states: seq<State>, events: seq<Event>, m: nat, n: nat, f: FullHandle)
    requires IsRun(states, events) && m <= n < |states| && f.moduleIndex >= 0
    requires NoneRegistered(events, m, n, f.moduleIndex)
    ensures states[n].maps.GlobalHandle(f) == states[m].maps.GlobalHandle(f)
    decreases n - m
  {
    hide CanDo;
    if m == n {
    } else {
      SameHandles(states, events, m, n - 1, f);
      if !events[n - 1].EvRegister? {
        ScanKeepsMaps(states[n - 1], events[n - 1]);
        hide Next;
      }
    }
  }

  /** If none of a module's sensors is registered any more when its first event is taken, what is
    * delivered from the module is what its writer marked, remapped and without bad events, up to
    * what is still queued.
    */
  lemma DeliveredOnceRegistered(states: seq<State>, events: seq<Event>, m: nat, n: nat, i: nat)
    requires IsRun(states, events) && m <= n < |states| && i < |states[n].scan.queues|
    requires NoneRegistered(events, m, n, i) && forall t | t in states[m].scan.taken :: t.moduleIndex != i
    ensures var s := states[n];
      && |s.marked| == |s.scan.queues| && s.scan.queues[i].Valid()
      && |s.scan.queues[i].Contents()| <= |s.marked[i]|
      && var handedOn := s.marked[i][..|s.marked[i]| - |s.scan.queues[i].Contents()|];
         Delivered(From(s.scan.taken, i)) == Remapped(s.maps, i, handedOn)
  {
    hide IsRun, Delivered, Remapped, From, NoneRegistered;
    TakenStays(states, events, m, n);
    forall t | t in states[n].scan.taken && t.moduleIndex == i
      ensures HandledAsIn(t, states[n].maps)
    {
      var j :| 0 <= j < |states[n].scan.taken| && states[n].scan.taken[j] == t;
      TakenLater(states, events, m, n, j);
    }
    DeliveredFromModule(states, events, n, i);
  }

  lemma TakenLater(states: seq<State>, events: seq<Event>, m: nat, n: nat, j: nat)
    requires IsRun(states, events) && m <= n < |states| && j < |states[n].scan.taken|
    requires var t := states[n].scan.taken[j];
      NoneRegistered(events, m, n, t.moduleIndex) && t !in states[m].scan.taken
    ensures HandledAsIn(states[n].scan.taken[j], states[n].maps)
  {
    hide CanDo, Next, HandleMaps.GlobalHandle;
    var t := states[n].scan.taken[j];
    var k := TakenWithHandlesOfItsTime(states, events, n, j);
    TakenStays(states, events, m, n);
    assert forall l | 0 <= l < |states[m].scan.taken| :: states[m].scan.taken[l] == states[n].scan.taken[l];
    if k < m {
      TakenStays(states, events, k + 1, m);
    }
    SameHandles(states, events, k, n, FullHandle(t.moduleIndex, Subject(t.raw)));
  }
}
