/** The two maps between the handles that sub-modules give their sensors and the handles that
  * callers know, and the events that carry them.
  */
module SensorHandles {
  datatype FullHandle = FullHandle(moduleIndex: int, localHandle: int)

  /** A meta-data event names a sensor in its payload (`about`), any other in its own field. */
  datatype SensorEvent =
    | Normal(sensor: int, reading: seq<int>)
    | MetaData(sensor: int, what: int, about: int)

  datatype HandleMaps = HandleMaps(
    globalToFull: map<int, FullHandle>,
    fullToGlobal: map<FullHandle, int>,
    nextGlobalHandle: int)
  {
    /** Handles are given out from 1 upwards; a full handle leads to the latest one it was given. */
    ghost predicate Valid() {
      && nextGlobalHandle >= 1
      && (forall g :: g in globalToFull <==> 1 <= g < nextGlobalHandle)
      && (forall f | f in fullToGlobal ::
            fullToGlobal[f] in globalToFull && globalToFull[fullToGlobal[f]] == f)
      && (forall g | g in globalToFull ::
            globalToFull[g] in fullToGlobal && g <= fullToGlobal[globalToFull[g]])
    }

    function Assign(f: FullHandle): HandleMaps {
      HandleMaps(globalToFull[nextGlobalHandle := f], fullToGlobal[f := nextGlobalHandle], nextGlobalHandle + 1)
    }

    function LocalHandle(g: int): int {
      if g in globalToFull then globalToFull[g].localHandle else -1
    }

    function ModuleIndex(g: int): int {
      if g in globalToFull then globalToFull[g].moduleIndex else -1
    }

    function GlobalHandle(f: FullHandle): int {
      if f in fullToGlobal then fullToGlobal[f] else -1
    }

    /** What once was known stays known; a full handle may come to lead to a later handle. */
    ghost predicate Extends(earlier: HandleMaps) {
      && (forall g | g in earlier.globalToFull :: g in globalToFull && globalToFull[g] == earlier.globalToFull[g])
      && (forall f | f in earlier.fullToGlobal :: f in fullToGlobal && earlier.fullToGlobal[f] <= fullToGlobal[f])
    }

    function RemapHandle(event: SensorEvent, subIndex: int): SensorEvent {
      match event
      case Normal(sensor, reading) => Normal(GlobalHandle(FullHandle(subIndex, sensor)), reading)
      case MetaData(sensor, what, about) => MetaData(sensor, what, GlobalHandle(FullHandle(subIndex, about)))
    }
  }

  const NO_HANDLES := HandleMaps(map[], map[], 1)

  /** The sensor an event is about. */
  function Subject(event: SensorEvent): int {
    if event.MetaData? then event.about else event.sensor
  }

  lemma AssignKeepsMaps(m: HandleMaps, f: FullHandle)
    requires m.Valid()
    ensures m.Assign(f).Valid() && m.Assign(f).Extends(m)
    ensures m.nextGlobalHandle !in m.globalToFull && m.Assign(f).GlobalHandle(f) == m.nextGlobalHandle
  {
  }

  lemma ExtendsIsTransitive(a: HandleMaps, b: HandleMaps, c: HandleMaps)
    requires b.Extends(a) && c.Extends(b)
    ensures c.Extends(a)
  {
  }

  /** The way back from a full handle is always right, even after more handles were given out. */
  lemma FullHandlesRoundTrip(m: HandleMaps, later: HandleMaps, f: FullHandle)
    requires m.Valid() && later.Extends(m)
    ensures m.GlobalHandle(f) != -1 <==> f in m.fullToGlobal
    ensures f in m.fullToGlobal ==>
      && later.ModuleIndex(m.GlobalHandle(f)) == f.moduleIndex
      && later.LocalHandle(m.GlobalHandle(f)) == f.localHandle
  {
    if f in m.fullToGlobal {
      assert m.fullToGlobal[f] in m.globalToFull;
    }
  }

  /** The way back from a global handle is right exactly for the latest of its full handle: if
    * the same sensor is registered twice, both handles lead to it and it leads to the second.
    */
  lemma GlobalHandlesRoundTrip(m: HandleMaps, g: int)
    requires m.Valid() && g in m.globalToFull
    ensures m.GlobalHandle(m.globalToFull[g]) == g
      <==> forall h | h in m.globalToFull && m.globalToFull[h] == m.globalToFull[g] :: h <= g
  {
  }

  /** Two sensors never share a handle. */
  lemma HandlesAreDistinct(m: HandleMaps, f: FullHandle, f': FullHandle)
    requires m.Valid() && f in m.fullToGlobal && f' in m.fullToGlobal
    ensures m.GlobalHandle(f) == m.GlobalHandle(f') <==> f == f'
  {
  }

  /** A remapped event is the same event about the same sensor: its new handle translates back,
    * then and later. It is marked as bad, with a -1 for its sensor, exactly if it is a normal
    * event of an unregistered sensor (or the device said so itself in a meta-data event).
    */
  lemma RemapKeepsMeaning(m: HandleMaps, later: HandleMaps, event: SensorEvent, subIndex: int)
    requires m.Valid() && later.Extends(m)
    ensures var out := m.RemapHandle(event, subIndex);
      var f := FullHandle(subIndex, Subject(event));
      && (event.Normal? <==> out.Normal?)
      && (event.Normal? ==> out.reading == event.reading)
      && (event.MetaData? ==> out.what == event.what && out.sensor == event.sensor)
      && (Subject(out) == -1 <==> f !in m.fullToGlobal)
      && (f in m.fullToGlobal ==>
            later.ModuleIndex(Subject(out)) == subIndex && later.LocalHandle(Subject(out)) == Subject(event))
      && (out.sensor == -1 <==> if event.Normal? then f !in m.fullToGlobal else event.sensor == -1)
  {
    FullHandlesRoundTrip(m, later, FullHandle(subIndex, Subject(event)));
  }
}
