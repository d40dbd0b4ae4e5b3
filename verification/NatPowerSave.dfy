/** Clients in power save, and whether any of their connections is enabled nevertheless. */
module NatPowerSave {
  import opened Options
  import opened NatCache
  import opened NatInvariant
  import opened NatEvents
  import opened NatRuns

  /** No slot of a client in power save is enabled. */
  ghost predicate SaversRest(s: Nat) {
    forall k | 0 <= k < |s.cache| && s.cache[k].enabled :: !IsPwrSaveIf(s, s.cache[k].tuple.privateIp)
  }

  lemma {:induction false} ReplacedMembers(xs: seq<nat>, a: nat, b: nat, x: nat)
    requires x != a
    ensures x in ReplaceFirst(xs, a, b) <==> x in xs || (x == b && a in xs)
  {
    if xs == [] {
    } else {
      assert xs == [xs[0]] + xs[1..];
      ReplacedMembers(xs[1..], a, b, x);
    }
  }

  lemma {:induction false} ReplacedStillListed(xs: seq<nat>, a: nat, b: nat)
    requires a != b && a in ReplaceFirst(xs, a, b)
    ensures a in xs
  {
    if xs == [] || xs[0] == a {
    } else {
      ReplacedStillListed(xs[1..], a, b);
    }
  }

  /** A new table lets them rest exactly if it is not for the previous address, or no connection
    * of theirs is restored: the restoring asks for nobody's power save.
    */
  lemma AddTableLetsSaversRest(s: Nat, pubIp: nat, table: Option<nat>, answers: seq<Option<nat>>)
    requires Inv(s) && SaversRest(s) && |answers| == |s.cache| && (table.Some? ==> table.value != 0)
    ensures SaversRest(AddTable(s, pubIp, table, answers))
      <==> (table.Some? && pubIp == s.pubIpAddrPre ==>
              forall k | 0 <= k < |s.cache| && s.cache[k] != BLANK && answers[k].Some? ::
                !IsPwrSaveIf(s, s.cache[k].tuple.privateIp))
  {
    if table.Some? && pubIp == s.pubIpAddrPre {
      RestoreEnables(s.(natTableHdl := table.value, hw := map[]), 0, answers);
      hide RestoreFrom, HwMatches, CacheOk;
    }
  }

  /** Recovery lets everybody rest exactly if the client is not listed a second time, or none of
    * its connections comes back.
    */
  lemma ResetLetsSaversRest(s: Nat, ip: nat, answers: seq<Option<nat>>)
    requires Inv(s) && SaversRest(s) && |answers| == |s.cache|
    ensures SaversRest(ResetPwrSaveIf(s, ip, answers))
      <==> (ip != INVALID_IP_ADDR && ip in ReplaceFirst(s.pwrSaveIfs, ip, 0) && s.natTableHdl != 0 ==>
              forall k | 0 <= k < |s.cache| && s.cache[k].tuple.privateIp == ip :: answers[k].None?)
  {
    if ip != INVALID_IP_ADDR {
      var list := ReplaceFirst(s.pwrSaveIfs, ip, 0);
      RecoverEnables(s.(pwrSaveIfs := list), ip, 0, answers);
      forall x | x != ip && x != 0
        ensures x in list <==> x in s.pwrSaveIfs
      {
        ReplacedMembers(s.pwrSaveIfs, ip, 0, x);
      }
      if ip in list {
        ReplacedStillListed(s.pwrSaveIfs, ip, 0);
      }
      hide RecoverFrom, ReplaceFirst, HwMatches, CacheOk;
    }
  }

  lemma UpdateLetsSaversRest(s: Nat, ip: nat)
    requires Inv(s) && SaversRest(s)
    ensures SaversRest(UpdatePwrSaveIf(s, ip))
  {
    if ip != INVALID_IP_ADDR && ip !in s.pwrSaveIfs {
      var list := ReplaceFirst(s.pwrSaveIfs, 0, ip);
      ListDoesNotMatter(s, list);
      SaveDisables(s.(pwrSaveIfs := list), ip, 0);
      forall x | x != ip && x != 0
        ensures x in list <==> x in s.pwrSaveIfs
      {
        ReplacedMembers(s.pwrSaveIfs, 0, ip, x);
      }
      hide SaveFrom, ReplaceFirst, Inv;
    }
  }

  lemma DisconnectLetsSaversRest(s: Nat, ip: nat)
    requires Inv(s) && SaversRest(s)
    ensures SaversRest(DelEntriesOnClntDiscon(s, ip)) && SaversRest(DelEntriesOnSTAClntDiscon(s, ip))
  {
    if ip != INVALID_IP_ADDR {
      var list := ReplaceFirst(s.pwrSaveIfs, ip, 0);
      ListDoesNotMatter(s, list);
      DisconnectDisables(s.(pwrSaveIfs := list), ip, 0);
      ForgetClears(s, ip, 0);
      forall x | x != ip && x != 0
        ensures x in list <==> x in s.pwrSaveIfs
      {
        ReplacedMembers(s.pwrSaveIfs, ip, 0, x);
      }
      hide DisconnectFrom, ForgetFrom, ReplaceFirst, Inv;
    }
  }

  lemma EntriesLetSaversRest(s: Nat, algPorts: set<(nat, nat)>, rule: Entry, answer: Option<nat>, start: nat, t: FiveTuple)
    requires SaversRest(s) && start <= |s.cache|
    ensures SaversRest(AddEntry(s, algPorts, rule, answer))
    ensures SaversRest(CacheEntry(s, rule, start)) && SaversRest(DeleteEntry(s, t))
  {
    hide SlotOf;
  }

  /** Exactly when an event lets clients in power save rest. */
  lemma EventLetsSaversRest(s: Nat, algPorts: set<(nat, nat)>, reset: ResetKind, e: Event)
    requires Inv(s) && SaversRest(s) && CanDo(s, e)
    ensures SaversRest(Next(s, algPorts, reset, e))
      <==> match e
           case EvAddTable(pubIp, table, answers) =>
             (table.Some? && pubIp == s.pubIpAddrPre ==>
                forall k | 0 <= k < |s.cache| && s.cache[k] != BLANK && answers[k].Some? ::
                  !IsPwrSaveIf(s, s.cache[k].tuple.privateIp))
           case EvResetPwrSaveIf(ip, answers) =>
             (ip != INVALID_IP_ADDR && ip in ReplaceFirst(s.pwrSaveIfs, ip, 0) && s.natTableHdl != 0 ==>
                forall k | 0 <= k < |s.cache| && s.cache[k].tuple.privateIp == ip :: answers[k].None?)
           case _ => true
  {
    match e
    case EvAddTable(pubIp, table, answers) => AddTableLetsSaversRest(s, pubIp, table, answers);
    case EvDeleteTable(pubIp, success) =>
    case EvAddEntry(rule, answer) => EntriesLetSaversRest(s, algPorts, rule, answer, 0, rule.tuple);
    case EvCacheEntry(rule, start) => EntriesLetSaversRest(s, algPorts, rule, None, start, rule.tuple);
    case EvDeleteEntry(t) => EntriesLetSaversRest(s, algPorts, BLANK, None, 0, t);
    case EvUpdatePwrSaveIf(ip) => UpdateLetsSaversRest(s, ip);
    case EvResetPwrSaveIf(ip, answers) => ResetLetsSaversRest(s, ip, answers);
    case EvDelEntriesOnClntDiscon(ip) => DisconnectLetsSaversRest(s, ip);
    case EvDelEntriesOnSTAClntDiscon(ip) => DisconnectLetsSaversRest(s, ip);
  }

  /** A client goes into power save, and the WAN bounces. */
  const BOUNCE_WHILE_SAVING: seq<Event> := [
    EvAddTable(10, Some(1), [None]), EvAddEntry(CONNECTION, Some(7)), EvUpdatePwrSaveIf(1), EvDeleteTable(10, true),
    EvAddTable(10, Some(1), [Some(8)])]

  /** Its connection is enabled again, and it is still in power save. */
  lemma BounceWakesASaver(reset: ResetKind) returns (states: seq<Nat>)
    ensures IsRun(states, {}, reset, BOUNCE_WHILE_SAVING)
    ensures |states[5].cache| == 1 && states[5].cache[0].enabled && !SaversRest(states[5])
  {
    var s0 := Nat([BLANK], 0, 0, 0, 0, [0], map[]);
    var s1 := Nat([BLANK], 0, 1, 10, 0, [0], map[]);
    var e := CONNECTION.(enabled := true, ruleHdl := 7);
    var s2 := Nat([e], 1, 1, 10, 0, [0], map[7 := RuleOf(e)]);
    var s3 := Nat([CONNECTION], 1, 1, 10, 0, [1], map[]);
    var s4 := Nat([CONNECTION], 1, 0, 0, 10, [1], map[]);
    var d := CONNECTION.(enabled := true, ruleHdl := 8);
    var s5 := Nat([d], 1, 1, 10, 10, [1], map[8 := RuleOf(d)]);
    assert AddEntry(s1, {}, CONNECTION, Some(7)) == s2 by {
      FreshCacheTakes(s1.cache, CONNECTION.tuple);
    }
    assert UpdatePwrSaveIf(s2, 1) == s3 by {
      assert s2.pwrSaveIfs[1..] == [] && ReplaceFirst(s2.pwrSaveIfs, 0, 1) == [1];
      OneSlotSaves(s2.(pwrSaveIfs := [1]), 1);
    }
    assert AllDisabled(s3.cache) == s4.cache;
    assert AddTable(s4, 10, Some(1), [Some(8)]) == s5 by {
      OneSlotIsRestored(s4.(natTableHdl := 1), [Some(8)]);
    }
    assert s5.cache[0].enabled && IsPwrSaveIf(s5, 1);
    assert DeleteTable(s3, 10, true, reset) == s4;
    hide AddEntry, UpdatePwrSaveIf, DeleteTable;
    states := [s0, s1, s2, s3, s4, s5];
  }

  lemma OneSlotSaves(s: Nat, ip: nat)
    requires |s.cache| == 1 && s.cache[0].enabled && s.cache[0].tuple.privateIp == ip
    requires s.natTableHdl != 0 && s.hw == map[s.cache[0].ruleHdl := RuleOf(s.cache[0])]
    ensures SaveFrom(s, ip, 0) == s.(cache := [s.cache[0].(enabled := false, ruleHdl := 0)], hw := map[])
  {
    assert s.hw - {s.cache[0].ruleHdl} == map[];
  }

  lemma OneSlotIsRestored(s: Nat, answers: seq<Option<nat>>)
    requires |s.cache| == |answers| == 1 && s.cache[0].tuple.privateIp != 0 && answers[0].Some? && s.natTableHdl != 0
    ensures RestoreFrom(s, 0, answers)
         == s.(cache := [Readded(s, 0, answers[0])], hw := s.hw[answers[0].value := RuleOf(s.cache[0])])
  {
  }
}
