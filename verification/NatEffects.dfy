/** What events do to the cache, the table and the list of clients in power save, slot by slot. */
module NatEffects {
  import opened Options
  import opened NatCache
  import opened NatInvariant
  import opened NatEvents
  import opened NatRuns

  /** Deleting a connection gives up its slot, wherever it is, counts it out, and takes the rule
    * out of the table if there is one. A tuple that is in no slot changes nothing, and one that
    * is all zeros only the counter, if a slot is free.
    */
  lemma DeleteEntryForgets(s: Nat, t: FiveTuple)
    requires CacheOk(s.cache)
    ensures !t.AllZero() ==> forall k | 0 <= k < |s.cache| && s.cache[k].tuple == t ::
      DeleteEntry(s, t)
        == s.(cache := s.cache[k := BLANK], curCnt := s.curCnt - 1,
              hw := if s.cache[k].enabled && s.natTableHdl != 0 then s.hw - {s.cache[k].ruleHdl} else s.hw)
    ensures (forall k | 0 <= k < |s.cache| :: s.cache[k].tuple != t) ==> DeleteEntry(s, t) == s
    ensures t.AllZero() && (exists k :: 0 <= k < |s.cache| && s.cache[k] == BLANK) ==>
      DeleteEntry(s, t) == s.(curCnt := s.curCnt - 1)
  {
    var i := SlotOf(s.cache, t);
    if i < |s.cache| {
      assert s.hw - {s.cache[i].ruleHdl} == s.hw || s.cache[i].ruleHdl in s.hw;
      if t.AllZero() {
        assert s.cache[i] == BLANK;
        assert s.cache[i := BLANK] == s.cache;
      }
    }
  }

  /** Which table is up, for which address, and what the previous address is. */
  lemma TablesComeAndGo(s: Nat, algPorts: set<(nat, nat)>, reset: ResetKind, e: Event)
    requires CanDo(s, e)
    ensures var s' := Next(s, algPorts, reset, e);
      if e.EvAddTable? then
        && s'.pubIpAddrPre == s.pubIpAddrPre
        && (if e.table.Some? then s'.natTableHdl == e.table.value && s'.pubIpAddr == e.pubIp
            else s' == s.(natTableHdl := 0))
        && (e.table.Some? && e.pubIp != s.pubIpAddrPre ==> s'.cache == s.cache && s'.hw == map[])
      else if e.EvDeleteTable? && s.natTableHdl != 0 && s.pubIpAddr == e.pubIp && e.success then
        && s'.natTableHdl == 0 && s'.pubIpAddr == 0 && s'.pubIpAddrPre == e.pubIp && s'.hw == map[]
        && |s'.cache| == |s.cache| && s'.curCnt == s.curCnt
        && forall k | 0 <= k < |s.cache| ::
             s'.cache[k] == if reset.AsCommented? then s.cache[k].(enabled := false) else s.cache[k]
      else
        && s'.natTableHdl == s.natTableHdl && s'.pubIpAddr == s.pubIpAddr && s'.pubIpAddrPre == s.pubIpAddrPre
        && (e.EvDeleteTable? ==> s' == s)
  {
    hide SlotOf;
  }

  /** Who is listed as in power save: a client that goes into it, at the first free place if there
    * is one, until it recovers or disconnects.
    */
  lemma ListedWhileSaving(s: Nat, algPorts: set<(nat, nat)>, reset: ResetKind, e: Event)
    requires CanDo(s, e)
    ensures var list, list' := s.pwrSaveIfs, Next(s, algPorts, reset, e).pwrSaveIfs;
      if e.EvUpdatePwrSaveIf? && e.ip != 0 && e.ip !in list then Replaces(list, list', 0, e.ip)
      else if (e.EvResetPwrSaveIf? || e.EvDelEntriesOnClntDiscon?) && e.ip != 0 then Replaces(list, list', e.ip, 0)
      else list' == list
  {
    if e.EvUpdatePwrSaveIf? {
      ReplacesIndeed(s.pwrSaveIfs, 0, e.ip);
      hide ReplaceFirst, SaveFrom, Replaces;
    } else if e.EvResetPwrSaveIf? {
      ReplacesIndeed(s.pwrSaveIfs, e.ip, 0);
      hide ReplaceFirst, RecoverFrom, Replaces;
    } else if e.EvDelEntriesOnClntDiscon? {
      ReplacesIndeed(s.pwrSaveIfs, e.ip, 0);
      hide ReplaceFirst, DisconnectFrom, Replaces;
    } else {
      OthersListNobody(s, algPorts, reset, e);
      hide Next, Replaces;
    }
  }

  lemma OthersListNobody(s: Nat, algPorts: set<(nat, nat)>, reset: ResetKind, e: Event)
    requires CanDo(s, e) && !e.EvUpdatePwrSaveIf? && !e.EvResetPwrSaveIf? && !e.EvDelEntriesOnClntDiscon?
    ensures Next(s, algPorts, reset, e).pwrSaveIfs == s.pwrSaveIfs
  {
    hide SlotOf, ForgetFrom, RestoreFrom;
  }

  lemma ReplacesIndeed(list: seq<nat>, a: nat, b: nat)
    ensures Replaces(list, ReplaceFirst(list, a, b), a, b)
  {
    if a !in list {
      NothingIsReplaced(list, a, b);
    }
    forall k | 0 <= k < |list| && list[k] == a && a !in list[..k]
      ensures ReplaceFirst(list, a, b) == list[k := b]
    {
      FirstIsReplaced(list, a, b, k);
    }
  }

  /** The first `a` becomes `b`, if there is one. */
  ghost predicate Replaces(list: seq<nat>, list': seq<nat>, a: nat, b: nat) {
    && (a !in list ==> list' == list)
    && forall k | 0 <= k < |list| && list[k] == a && a !in list[..k] :: list' == list[k := b]
  }
}
