/** What holds in every run of the NAT cache, whatever the hardware answers to additions. */
module NatRuns {
  import opened Options
  import opened NatCache
  import opened NatInvariant
  import opened NatEvents

  datatype Event =
    | EvAddTable(pubIp: nat, table: Option<nat>, answers: seq<Option<nat>>)
    | EvDeleteTable(pubIp: nat, success: bool)
    | EvAddEntry(rule: Entry, answer: Option<nat>)
    | EvCacheEntry(rule: Entry, start: nat)
    | EvDeleteEntry(t: FiveTuple)
    | EvUpdatePwrSaveIf(ip: nat)
    | EvResetPwrSaveIf(ip: nat, answers: seq<Option<nat>>)
    | EvDelEntriesOnClntDiscon(ip: nat)
    | EvDelEntriesOnSTAClntDiscon(ip: nat)

  /** Handles are fresh, and the search of `CacheEntry` begins within the cache. */
  ghost predicate CanDo(s: Nat, e: Event) {
    match e
    case EvAddTable(_, table, answers) =>
      && (table.Some? ==> table.value != 0)
      && |answers| == |s.cache| && FreshAnswers(answers, 0, map[])
    case EvDeleteTable(_, _) => true
    case EvAddEntry(rule, answer) => FreshAnswer(answer, s.hw)
    case EvCacheEntry(_, start) => start <= |s.cache|
    case EvDeleteEntry(_) => true
    case EvUpdatePwrSaveIf(_) => true
    case EvResetPwrSaveIf(_, answers) => |answers| == |s.cache| && FreshAnswers(answers, 0, s.hw)
    case EvDelEntriesOnClntDiscon(_) => true
    case EvDelEntriesOnSTAClntDiscon(_) => true
  }

  ghost function Next(s: Nat, algPorts: set<(nat, nat)>, reset: ResetKind, e: Event): Nat
    requires CanDo(s, e)
  {
    match e
    case EvAddTable(pubIp, table, answers) => AddTable(s, pubIp, table, answers)
    case EvDeleteTable(pubIp, success) => DeleteTable(s, pubIp, success, reset)
    case EvAddEntry(rule, answer) => AddEntry(s, algPorts, rule, answer)
    case EvCacheEntry(rule, start) => CacheEntry(s, rule, start)
    case EvDeleteEntry(t) => DeleteEntry(s, t)
    case EvUpdatePwrSaveIf(ip) => UpdatePwrSaveIf(s, ip)
    case EvResetPwrSaveIf(ip, answers) => ResetPwrSaveIf(s, ip, answers)
    case EvDelEntriesOnClntDiscon(ip) => DelEntriesOnClntDiscon(s, ip)
    case EvDelEntriesOnSTAClntDiscon(ip) => DelEntriesOnSTAClntDiscon(s, ip)
  }

  /** An empty cache and no table. The list of clients in power save and the previous address
    * are whatever they are.
    */
  ghost predicate Initial(s: Nat) {
    && (forall i | 0 <= i < |s.cache| :: s.cache[i] == BLANK)
    && s.curCnt == 0 && s.natTableHdl == 0 && s.hw == map[]
  }

  /** A run with either form of `Reset`. */
  ghost predicate IsRun(states: seq<Nat>, algPorts: set<(nat, nat)>, reset: ResetKind, events: seq<Event>) {
    && |states| == |events| + 1
    && Initial(states[0])
    && forall k | 0 <= k < |events| ::
         CanDo(states[k], events[k]) && states[k + 1] == Next(states[k], algPorts, reset, events[k])
  }

  // ---- Cache and table ----

  /** No table is granted for another address than the previous one while slots are enabled. */
  ghost predicate Harmless(s: Nat, e: Event) {
    e.EvAddTable? && e.table.Some? ==> e.pubIp == s.pubIpAddrPre || NoneEnabled(s.cache)
  }

  /** With either form of `Reset`, exactly the harmless events keep cache and table in step. */
  lemma StepKeepsInStep(s: Nat, algPorts: set<(nat, nat)>, reset: ResetKind, e: Event)
    requires InStep(s) && CanDo(s, e)
    ensures InStep(Next(s, algPorts, reset, e)) <==> Harmless(s, e)
  {
    if e.EvAddTable? {
      AddTableIsInStep(s, e.pubIp, e.table, e.answers);
    } else {
      StepCounts(s, algPorts, reset, e, |Occupied(s.cache)| - s.curCnt);
      if s.natTableHdl == 0 {
        NoTableComes(s, algPorts, reset, e);
      } else if !e.EvDeleteTable? {
        StepKeepsInv(s, algPorts, e);
      }
      hide CacheOk, HwMatches, Occupied;
    }
  }

  lemma NoTableComes(s: Nat, algPorts: set<(nat, nat)>, reset: ResetKind, e: Event)
    requires CanDo(s, e) && !e.EvAddTable? && s.natTableHdl == 0
    ensures Next(s, algPorts, reset, e).natTableHdl == 0
  {
    hide SaveFrom, RecoverFrom, DisconnectFrom, ForgetFrom;
  }

  ghost predicate AllHarmless(states: seq<Nat>, events: seq<Event>, n: nat)
    requires |states| == |events| + 1 && n < |states|
  {
    forall k | 0 <= k < n :: Harmless(states[k], events[k])
  }

  ghost predicate AllInStep(states: seq<Nat>, n: nat)
    requires n < |states|
  {
    forall k | 0 <= k <= n :: InStep(states[k])
  }

  /** A run, with either form of `Reset`, stays in step as long as its events are harmless, and
    * no longer.
    */
  lemma {:induction false} RunStaysInStep(states: seq<Nat>, algPorts: set<(nat, nat)>, reset: ResetKind,
                                          events: seq<Event>, n: nat)
    requires IsRun(states, algPorts, reset, events) && n < |states|
    ensures AllInStep(states, n) <==> AllHarmless(states, events, n)
  {
    hide Harmless, CanDo, Next;
    if n == 0 {
      assert InStep(states[0]);
    } else {
      hide InStep;
      RunStaysInStep(states, algPorts, reset, events, n - 1);
      assert AllInStep(states, n) <==> AllInStep(states, n - 1) && InStep(states[n]);
      if InStep(states[n - 1]) {
        StepKeepsInStep(states[n - 1], algPorts, reset, events[n - 1]);
      }
    }
  }

  /** As long as all events are harmless, a table that is up has exactly the rules of the enabled
    * slots, each under the handle of its slot and of no other.
    */
  lemma TableHasTheEnabledSlots(states: seq<Nat>, algPorts: set<(nat, nat)>, reset: ResetKind, events: seq<Event>, n: nat)
    requires IsRun(states, algPorts, reset, events) && n < |states| && AllHarmless(states, events, n)
    requires states[n].natTableHdl != 0
    ensures var s := states[n];
      && (forall i | 0 <= i < |s.cache| && s.cache[i].enabled ::
            && s.cache[i].ruleHdl in s.hw
            && s.hw[s.cache[i].ruleHdl] == Rule(s.cache[i].tuple, s.cache[i].publicPort))
      && (forall h | h in s.hw :: exists i :: 0 <= i < |s.cache| && Holds(s.cache[i], h))
      && (forall h, i, j | 0 <= i < |s.cache| && 0 <= j < |s.cache| && Holds(s.cache[i], h) && Holds(s.cache[j], h) ::
            i == j)
  {
    RunStaysInStep(states, algPorts, reset, events, n);
    assert InStep(states[n]);
    hide CacheOk;
  }

  // ---- With `Reset` as its comment says ----

  /** No table is added while slots are enabled, unless it is granted for the previous address. */
  ghost predicate HarmlessAsCommented(s: Nat, e: Event) {
    e.EvAddTable? ==> NoneEnabled(s.cache) || (e.table.Some? && e.pubIp == s.pubIpAddrPre)
  }

  /** Exactly these events then also keep all slots disabled while no table is up. */
  lemma StepKeepsInv(s: Nat, algPorts: set<(nat, nat)>, e: Event)
    requires Inv(s) && CanDo(s, e)
    ensures Inv(Next(s, algPorts, AsCommented, e)) <==> HarmlessAsCommented(s, e)
    ensures !e.EvDeleteTable? ==> forall reset :: Next(s, algPorts, reset, e) == Next(s, algPorts, AsCommented, e)
  {
    hide Inv;
    match e
    case EvAddTable(pubIp, table, answers) => AddTableKeepsInv(s, pubIp, table, answers);
    case EvDeleteTable(pubIp, success) => DeleteTableKeepsInv(s, pubIp, success);
    case EvAddEntry(rule, answer) => AddEntryKeepsInv(s, algPorts, rule, answer);
    case EvCacheEntry(rule, start) => CacheEntryKeepsInv(s, rule, start);
    case EvDeleteEntry(t) => DeleteEntryKeepsInv(s, t);
    case EvUpdatePwrSaveIf(ip) =>
      ListDoesNotMatter(s, ReplaceFirst(s.pwrSaveIfs, 0, ip));
      SaveKeepsInv(s.(pwrSaveIfs := ReplaceFirst(s.pwrSaveIfs, 0, ip)), ip, 0);
    case EvResetPwrSaveIf(ip, answers) =>
      if ip != INVALID_IP_ADDR {
        ListDoesNotMatter(s, ReplaceFirst(s.pwrSaveIfs, ip, 0));
        RecoverKeepsInv(s.(pwrSaveIfs := ReplaceFirst(s.pwrSaveIfs, ip, 0)), ip, 0, answers);
      }
    case EvDelEntriesOnClntDiscon(ip) =>
      ListDoesNotMatter(s, ReplaceFirst(s.pwrSaveIfs, ip, 0));
      DisconnectKeepsInv(s.(pwrSaveIfs := ReplaceFirst(s.pwrSaveIfs, ip, 0)), ip, 0);
    case EvDelEntriesOnSTAClntDiscon(ip) =>
      if ip != INVALID_IP_ADDR {
        ForgetKeepsInv(s, ip, 0);
      }
  }

  lemma ListDoesNotMatter(s: Nat, list: seq<nat>)
    ensures Inv(s.(pwrSaveIfs := list)) == Inv(s)
    ensures forall z :: Counted(s.(pwrSaveIfs := list), z) == Counted(s, z)
  {
    hide HwMatches, Occupied, CacheOk;
  }

  ghost predicate AllInv(states: seq<Nat>, n: nat)
    requires n < |states|
  {
    forall k | 0 <= k <= n :: Inv(states[k])
  }

  lemma {:induction false} RunKeepsInv(states: seq<Nat>, algPorts: set<(nat, nat)>, events: seq<Event>, n: nat)
    requires IsRun(states, algPorts, AsCommented, events) && n < |states|
    ensures AllInv(states, n) <==> forall k | 0 <= k < n :: HarmlessAsCommented(states[k], events[k])
  {
    hide HarmlessAsCommented, CanDo, Next;
    if n == 0 {
      assert Inv(states[0]);
    } else {
      hide Inv;
      RunKeepsInv(states, algPorts, events, n - 1);
      assert AllInv(states, n) <==> AllInv(states, n - 1) && Inv(states[n]);
      if Inv(states[n - 1]) {
        StepKeepsInv(states[n - 1], algPorts, events[n - 1]);
      }
    }
  }

  /** And then, while no table is up, nothing is enabled and the hardware has no rule. */
  lemma WithoutTableNothingIsLeft(states: seq<Nat>, algPorts: set<(nat, nat)>, events: seq<Event>, n: nat)
    requires IsRun(states, algPorts, AsCommented, events) && n < |states| && states[n].natTableHdl == 0
    requires forall k | 0 <= k < n :: HarmlessAsCommented(states[k], events[k])
    ensures NoneEnabled(states[n].cache) && states[n].hw == map[]
  {
    RunKeepsInv(states, algPorts, events, n);
    assert Inv(states[n]);
    TableDownIsEmpty(states[n]);
  }

  // ---- Slots and the counter ----

  /** How many deletions of an all-zero tuple took a free slot for the entry. */
  ghost function Miscounts(states: seq<Nat>, events: seq<Event>, n: nat): nat
    requires |states| == |events| + 1 && n < |states|
  {
    if n == 0 then 0
    else
      var e := events[n - 1];
      Miscounts(states, events, n - 1) + if e.EvDeleteEntry? && TakesFreeSlot(states[n - 1], e.t) then 1 else 0
  }

  lemma StepCounts(s: Nat, algPorts: set<(nat, nat)>, reset: ResetKind, e: Event, z: int)
    requires Counted(s, z) && CanDo(s, e)
    ensures Counted(Next(s, algPorts, reset, e), z + if e.EvDeleteEntry? && TakesFreeSlot(s, e.t) then 1 else 0)
  {
    hide Counted;
    match e
    case EvAddTable(pubIp, table, answers) => AddTableKeepsCount(s, pubIp, table, answers, z);
    case EvDeleteTable(pubIp, success) => DeleteTableKeepsCount(s, pubIp, success, reset, z);
    case EvAddEntry(rule, answer) => AddEntryKeepsCount(s, algPorts, rule, answer, z);
    case EvCacheEntry(rule, start) => CacheEntryKeepsCount(s, rule, start, z);
    case EvDeleteEntry(t) => DeleteEntryCounts(s, t, z);
    case EvUpdatePwrSaveIf(ip) =>
      ListDoesNotMatter(s, ReplaceFirst(s.pwrSaveIfs, 0, ip));
      SaveKeepsCount(s.(pwrSaveIfs := ReplaceFirst(s.pwrSaveIfs, 0, ip)), ip, 0, z);
    case EvResetPwrSaveIf(ip, answers) =>
      if ip != INVALID_IP_ADDR {
        ListDoesNotMatter(s, ReplaceFirst(s.pwrSaveIfs, ip, 0));
        RecoverKeepsCount(s.(pwrSaveIfs := ReplaceFirst(s.pwrSaveIfs, ip, 0)), ip, 0, answers, z);
      }
    case EvDelEntriesOnClntDiscon(ip) =>
      ListDoesNotMatter(s, ReplaceFirst(s.pwrSaveIfs, ip, 0));
      DisconnectKeepsCount(s.(pwrSaveIfs := ReplaceFirst(s.pwrSaveIfs, ip, 0)), ip, 0, z);
    case EvDelEntriesOnSTAClntDiscon(ip) =>
      if ip != INVALID_IP_ADDR {
        ForgetKeepsCount(s, ip, 0, z);
      }
  }

  lemma {:induction false} RunCounts(states: seq<Nat>, algPorts: set<(nat, nat)>, reset: ResetKind, events: seq<Event>, n: nat)
    requires IsRun(states, algPorts, reset, events) && n < |states|
    ensures Counted(states[n], Miscounts(states, events, n))
  {
    if n == 0 {
      assert Occupied(states[0].cache) == {};
    } else {
      hide Counted;
      RunCounts(states, algPorts, reset, events, n - 1);
      StepCounts(states[n - 1], algPorts, reset, events[n - 1], Miscounts(states, events, n - 1));
    }
  }

  /** In every run, a slot is free or holds a complete connection, each connection once. The
    * counter counts them, less one for each all-zero tuple that was deleted out of a free slot.
    */
  lemma SlotsHoldConnections(states: seq<Nat>, algPorts: set<(nat, nat)>, reset: ResetKind, events: seq<Event>, n: nat)
    requires IsRun(states, algPorts, reset, events) && n < |states|
    ensures var s := states[n];
      && (forall i | 0 <= i < |s.cache| :: s.cache[i].tuple.AllZero() || s.cache[i].tuple.AllNonzero())
      && (forall i, j | 0 <= i < j < |s.cache| && s.cache[i].tuple == s.cache[j].tuple :: s.cache[i].tuple.AllZero())
      && s.curCnt == |set i | 0 <= i < |s.cache| && !s.cache[i].tuple.AllZero()| - Miscounts(states, events, n)
  {
    RunCounts(states, algPorts, reset, events, n);
    var s := states[n];
    assert (set i | 0 <= i < |s.cache| && !s.cache[i].tuple.AllZero()) == Occupied(s.cache);
  }

  // ---- Runs that fail ----

  const CONNECTION := Entry(FiveTuple(1, 2, 3, 4, 6), 5, false, false, 0)

  /** A table is up, and its WAN goes down under another address; another WAN comes up. */
  const MISSED_WAN_DOWN: seq<Event> := [
    EvAddTable(10, Some(1), [None]), EvAddEntry(CONNECTION, Some(7)), EvDeleteTable(20, true),
    EvAddTable(30, Some(1), [None])]

  /** The connection is then enabled in the cache, and the new table is empty. */
  lemma MissedWanDownLosesRules(reset: ResetKind) returns (states: seq<Nat>)
    ensures IsRun(states, {}, reset, MISSED_WAN_DOWN)
    ensures |states[4].cache| == 1 && states[4].cache[0] == CONNECTION.(enabled := true, ruleHdl := 7)
    ensures states[4].natTableHdl != 0 && states[4].hw == map[] && !InStep(states[4])
  {
    var s0 := Nat([BLANK], 0, 0, 0, 0, [], map[]);
    var s1 := Nat([BLANK], 0, 1, 10, 0, [], map[]);
    var e := CONNECTION.(enabled := true, ruleHdl := 7);
    var s2 := Nat([e], 1, 1, 10, 0, [], map[7 := RuleOf(e)]);
    var s4 := Nat([e], 1, 1, 30, 0, [], map[]);
    assert AddEntry(s1, {}, CONNECTION, Some(7)) == s2 by {
      FreshCacheTakes(s1.cache, CONNECTION.tuple);
    }
    states := [s0, s1, s2, s2, s4];
    assert s4.cache[0].enabled;
  }

  /** The WAN goes down, and comes up under another address. */
  const NEW_ADDRESS: seq<Event> := [
    EvAddTable(10, Some(1), [None]), EvAddEntry(CONNECTION, Some(7)), EvDeleteTable(10, true),
    EvAddTable(30, Some(1), [None])]

  /** With `Reset` as it is written, the connection is still enabled, and the new table is empty. */
  lemma NewAddressLosesRules() returns (states: seq<Nat>)
    ensures IsRun(states, {}, AsWritten, NEW_ADDRESS)
    ensures |states[4].cache| == 1 && states[4].cache[0] == CONNECTION.(enabled := true, ruleHdl := 7)
    ensures states[4].natTableHdl != 0 && states[4].hw == map[] && !InStep(states[4])
  {
    var s0 := Nat([BLANK], 0, 0, 0, 0, [], map[]);
    var s1 := Nat([BLANK], 0, 1, 10, 0, [], map[]);
    var e := CONNECTION.(enabled := true, ruleHdl := 7);
    var s2 := Nat([e], 1, 1, 10, 0, [], map[7 := RuleOf(e)]);
    var s3 := Nat([e], 1, 0, 0, 10, [], map[]);
    var s4 := Nat([e], 1, 1, 30, 10, [], map[]);
    assert AddEntry(s1, {}, CONNECTION, Some(7)) == s2 by {
      FreshCacheTakes(s1.cache, CONNECTION.tuple);
    }
    states := [s0, s1, s2, s3, s4];
    assert s4.cache[0].enabled;
  }

  lemma FreshCacheTakes(cache: seq<Entry>, t: FiveTuple)
    requires |cache| == 1 && cache[0] == BLANK && t.AllNonzero()
    ensures SlotOf(cache, t) == 1 && FreeSlot(cache) == 0
  {
  }
}
