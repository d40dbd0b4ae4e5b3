/** Every operation keeps the cache and the table in step, and what else each of them does. */
module NatEvents {
  import opened Options
  import opened NatCache
  import opened NatInvariant

  // ---- Loops over the slots ----

  lemma {:induction false} SaveKeepsInv(s: Nat, ip: nat, i: nat)
    requires Inv(s) && i <= |s.cache|
    ensures Inv(SaveFrom(s, ip, i))
    decreases |s.cache| - i
  {
    hide Inv;
    if i == |s.cache| {
    } else {
      if s.cache[i].tuple.privateIp == ip && s.cache[i].enabled {
        DisableKeepsInv(s, i, 0);
        hide CanDeleteRule, DeleteRule;
        SaveKeepsInv(SetSlot(DeleteRule(s, i), i, s.cache[i].(enabled := false, ruleHdl := 0)), ip, i + 1);
      } else {
        SaveKeepsInv(s, ip, i + 1);
      }
    }
  }

  lemma {:induction false} RecoverKeepsInv(s: Nat, ip: nat, i: nat, answers: seq<Option<nat>>)
    requires Inv(s) && ip != 0 && i <= |s.cache| == |answers| && FreshAnswers(answers, i, s.hw)
    ensures Inv(RecoverFrom(s, ip, i, answers))
    decreases |s.cache| - i
  {
    hide Inv;
    if i == |s.cache| {
    } else {
      if s.cache[i].tuple.privateIp == ip && !s.cache[i].enabled {
        ReaddKeepsInv(s, i, answers[i]);
        RecoverKeepsInv(ReaddSlot(s, i, answers[i]), ip, i + 1, answers);
      } else {
        RecoverKeepsInv(s, ip, i + 1, answers);
      }
    }
  }

  lemma {:induction false} DisconnectKeepsInv(s: Nat, ip: nat, i: nat)
    requires Inv(s) && i <= |s.cache|
    ensures Inv(DisconnectFrom(s, ip, i))
    decreases |s.cache| - i
  {
    hide Inv;
    if i == |s.cache| {
    } else {
      if s.cache[i].tuple.privateIp == ip && s.cache[i].enabled {
        DisableKeepsInv(s, i, s.cache[i].ruleHdl);
        hide CanDeleteRule, DeleteRule;
        DisconnectKeepsInv(SetSlot(DeleteRule(s, i), i, s.cache[i].(enabled := false)), ip, i + 1);
      } else {
        DisconnectKeepsInv(s, ip, i + 1);
      }
    }
  }

  lemma {:induction false} ForgetKeepsInv(s: Nat, ip: nat, i: nat)
    requires Inv(s) && ip != 0 && i <= |s.cache|
    ensures Inv(ForgetFrom(s, ip, i))
    decreases |s.cache| - i
  {
    hide Inv;
    if i == |s.cache| {
    } else {
      if s.cache[i].tuple.targetIp == ip {
        ClearKeepsInv(s, i);
        hide CanDeleteRule, DeleteRule;
        ForgetKeepsInv(ClearSlot(if s.cache[i].enabled then DeleteRule(s, i) else s, i), ip, i + 1);
      } else {
        ForgetKeepsInv(s, ip, i + 1);
      }
    }
  }

  // ---- The operations ----

  /** A table that is added, or refused, leaves cache and table in step if and only if no slot was
    * enabled, or the table is granted for the previous address.
    */
  lemma AddTableKeepsInv(s: Nat, pubIp: nat, table: Option<nat>, answers: seq<Option<nat>>)
    requires Inv(s) && |answers| == |s.cache| && FreshAnswers(answers, 0, map[])
    requires table.Some? ==> table.value != 0
    ensures Inv(AddTable(s, pubIp, table, answers))
      <==> NoneEnabled(s.cache) || (table.Some? && pubIp == s.pubIpAddrPre)
  {
    if table.Some? {
      var s1 := s.(natTableHdl := table.value, hw := map[]);
      if pubIp == s.pubIpAddrPre {
        RestoreMatches(s1, 0, answers);
        RestoreKeepsCount(s1, 0, answers, |Occupied(s.cache)| - s.curCnt);
        hide RestoreFrom, Occupied;
      }
      hide CacheOk;
    }
  }

  /** Whatever the enabled bits were before: a table that is added is in step with the cache if
    * and only if it is for the previous address, or no slot was enabled.
    */
  lemma AddTableIsInStep(s: Nat, pubIp: nat, table: Option<nat>, answers: seq<Option<nat>>)
    requires CacheOk(s.cache) && |answers| == |s.cache| && FreshAnswers(answers, 0, map[])
    requires table.Some? ==> table.value != 0
    ensures InStep(AddTable(s, pubIp, table, answers))
      <==> (table.Some? ==> pubIp == s.pubIpAddrPre || NoneEnabled(s.cache))
  {
    if table.Some? && pubIp == s.pubIpAddrPre {
      var s1 := s.(natTableHdl := table.value, hw := map[]);
      RestoreMatches(s1, 0, answers);
      RestoreKeepsCount(s1, 0, answers, |Occupied(s.cache)| - s.curCnt);
      hide RestoreFrom, Occupied, CacheOk;
    }
  }

  lemma TableDownIsEmpty(s: Nat)
    requires HwMatches(s.cache, s.hw) && NoneEnabled(s.cache)
    ensures s.hw == map[]
  {
    assert forall h :: h !in s.hw;
  }

  lemma DeleteTableKeepsInv(s: Nat, pubIp: nat, success: bool)
    requires Inv(s)
    ensures Inv(DeleteTable(s, pubIp, success, AsCommented))
  {
    var s' := DeleteTable(s, pubIp, success, AsCommented);
    DisabledHoldsTheSame(s.cache);
    hide Occupied;
  }

  lemma DisabledHoldsTheSame(cache: seq<Entry>)
    requires CacheOk(cache)
    ensures CacheOk(AllDisabled(cache)) && Occupied(AllDisabled(cache)) == Occupied(cache)
  {
    assert BLANK.(enabled := false) == BLANK;
    forall i | 0 <= i < |cache|
      ensures AllDisabled(cache)[i] == BLANK <==> cache[i] == BLANK
    {
      assert cache[i].tuple == AllDisabled(cache)[i].tuple;
    }
  }

  lemma AddEntryKeepsInv(s: Nat, algPorts: set<(nat, nat)>, rule: Entry, answer: Option<nat>)
    requires Inv(s) && FreshAnswer(answer, s.hw)
    ensures Inv(AddEntry(s, algPorts, rule, answer))
  {
    var i := FreeSlot(s.cache);
    if Fits(s, rule.tuple) && i < |s.cache| {
      assert s.cache[i] == BLANK;
      hide Inv;
      FillKeepsInv(s, i, rule);
    }
  }

  lemma CacheEntryKeepsInv(s: Nat, rule: Entry, start: nat)
    requires Inv(s) && start <= |s.cache|
    ensures Inv(CacheEntry(s, rule, start))
  {
    var i := SlotOf(s.cache, BLANK.tuple, start);
    if Fits(s, rule.tuple) && i < |s.cache| {
      assert s.cache[i] == BLANK;
      hide Inv;
      FillKeepsInv(s, i, rule);
    }
  }

  lemma DeleteEntryKeepsInv(s: Nat, t: FiveTuple)
    requires Inv(s)
    ensures Inv(DeleteEntry(s, t))
  {
    var i := SlotOf(s.cache, t);
    if i < |s.cache| {
      ClearKeepsInv(s, i);
      hide Inv;
    }
  }

  // ---- The counter ----

  lemma {:induction false} RestoreKeepsCount(s: Nat, i: nat, answers: seq<Option<nat>>, z: int)
    requires Counted(s, z) && i <= |s.cache| == |answers|
    ensures Counted(RestoreFrom(s, i, answers), z)
    decreases |s.cache| - i
  {
    if i == |s.cache| {
    } else {
      hide Counted;
      if s.cache[i].tuple.privateIp != 0 {
        ReaddKeepsCount(s, i, answers[i], z);
        RestoreKeepsCount(ReaddSlot(s, i, answers[i]), i + 1, answers, z);
      } else {
        RestoreKeepsCount(s, i + 1, answers, z);
      }
    }
  }

  lemma ReaddKeepsCount(s: Nat, i: nat, answer: Option<nat>, z: int)
    requires Counted(s, z) && i < |s.cache| && s.cache[i] != BLANK
    ensures Counted(ReaddSlot(s, i, answer), z)
  {
    if s.natTableHdl == 0 || answer.None? {
      ClearKeepsCount(s, i, z);
    } else {
      SetKeepsCount(s, i, true, answer.value, z);
    }
  }

  lemma {:induction false} SaveKeepsCount(s: Nat, ip: nat, i: nat, z: int)
    requires Counted(s, z) && i <= |s.cache|
    ensures Counted(SaveFrom(s, ip, i), z)
    decreases |s.cache| - i
  {
    if i == |s.cache| {
    } else {
      if s.cache[i].tuple.privateIp == ip && s.cache[i].enabled && CanDeleteRule(s, i) {
        SetKeepsCount(DeleteRule(s, i), i, false, 0, z);
        hide Counted, DeleteRule, CanDeleteRule;
        SaveKeepsCount(SetSlot(DeleteRule(s, i), i, s.cache[i].(enabled := false, ruleHdl := 0)), ip, i + 1, z);
      } else {
        hide Counted;
        SaveKeepsCount(s, ip, i + 1, z);
      }
    }
  }

  lemma {:induction false} RecoverKeepsCount(s: Nat, ip: nat, i: nat, answers: seq<Option<nat>>, z: int)
    requires Counted(s, z) && ip != 0 && i <= |s.cache| == |answers|
    ensures Counted(RecoverFrom(s, ip, i, answers), z)
    decreases |s.cache| - i
  {
    if i == |s.cache| {
    } else {
      hide Counted;
      if s.cache[i].tuple.privateIp == ip && !s.cache[i].enabled {
        ReaddKeepsCount(s, i, answers[i], z);
        RecoverKeepsCount(ReaddSlot(s, i, answers[i]), ip, i + 1, answers, z);
      } else {
        RecoverKeepsCount(s, ip, i + 1, answers, z);
      }
    }
  }

  lemma {:induction false} DisconnectKeepsCount(s: Nat, ip: nat, i: nat, z: int)
    requires Counted(s, z) && i <= |s.cache|
    ensures Counted(DisconnectFrom(s, ip, i), z)
    decreases |s.cache| - i
  {
    if i == |s.cache| {
    } else {
      if s.cache[i].tuple.privateIp == ip && s.cache[i].enabled && CanDeleteRule(s, i) {
        SetKeepsCount(DeleteRule(s, i), i, false, s.cache[i].ruleHdl, z);
        hide Counted, DeleteRule, CanDeleteRule;
        DisconnectKeepsCount(SetSlot(DeleteRule(s, i), i, s.cache[i].(enabled := false)), ip, i + 1, z);
      } else {
        hide Counted;
        DisconnectKeepsCount(s, ip, i + 1, z);
      }
    }
  }

  lemma {:induction false} ForgetKeepsCount(s: Nat, ip: nat, i: nat, z: int)
    requires Counted(s, z) && ip != 0 && i <= |s.cache|
    ensures Counted(ForgetFrom(s, ip, i), z)
    decreases |s.cache| - i
  {
    if i == |s.cache| {
    } else {
      if s.cache[i].tuple.targetIp != ip || (s.cache[i].enabled && !CanDeleteRule(s, i)) {
        hide Counted;
        ForgetKeepsCount(s, ip, i + 1, z);
      } else {
        var s1 := if s.cache[i].enabled then DeleteRule(s, i) else s;
        ClearKeepsCount(s1, i, z);
        hide Counted;
        ForgetKeepsCount(ClearSlot(s1, i), ip, i + 1, z);
      }
    }
  }

  lemma AddTableKeepsCount(s: Nat, pubIp: nat, table: Option<nat>, answers: seq<Option<nat>>, z: int)
    requires Counted(s, z) && |answers| == |s.cache|
    ensures Counted(AddTable(s, pubIp, table, answers), z)
  {
    hide CacheOk, Occupied;
    if table.Some? && pubIp == s.pubIpAddrPre {
      RestoreKeepsCount(s.(natTableHdl := table.value, hw := map[]), 0, answers, z);
    }
  }

  lemma DeleteTableKeepsCount(s: Nat, pubIp: nat, success: bool, reset: ResetKind, z: int)
    requires Counted(s, z)
    ensures Counted(DeleteTable(s, pubIp, success, reset), z)
  {
    DisabledHoldsTheSame(s.cache);
    hide Occupied, CacheOk;
  }

  lemma AddEntryKeepsCount(s: Nat, algPorts: set<(nat, nat)>, rule: Entry, answer: Option<nat>, z: int)
    requires Counted(s, z)
    ensures Counted(AddEntry(s, algPorts, rule, answer), z)
  {
    var i := FreeSlot(s.cache);
    if Fits(s, rule.tuple) && i < |s.cache| {
      assert s.cache[i] == BLANK;
      FillKeepsCount(s, i, rule, false, 0, z);
      if answer.Some? {
        FillKeepsCount(s, i, rule, true, answer.value, z);
      }
      hide Occupied, CacheOk;
    }
  }

  lemma CacheEntryKeepsCount(s: Nat, rule: Entry, start: nat, z: int)
    requires Counted(s, z) && start <= |s.cache|
    ensures Counted(CacheEntry(s, rule, start), z)
  {
    var i := SlotOf(s.cache, BLANK.tuple, start);
    if Fits(s, rule.tuple) && i < |s.cache| {
      assert s.cache[i] == BLANK;
      FillKeepsCount(s, i, rule, false, 0, z);
      hide Occupied, CacheOk;
    }
  }

  /** An all-zero tuple is found in a free slot. */
  ghost predicate TakesFreeSlot(s: Nat, t: FiveTuple) {
    t.AllZero() && FreeSlot(s.cache) < |s.cache|
  }

  /** Deleting an entry keeps the counter right, unless the tuple is all zeros and there is a free
    * slot: that slot is then taken for the entry, and is counted out.
    */
  lemma DeleteEntryCounts(s: Nat, t: FiveTuple, z: int)
    requires Counted(s, z)
    ensures Counted(DeleteEntry(s, t), if TakesFreeSlot(s, t) then z + 1 else z)
  {
    var i := SlotOf(s.cache, t);
    if i < |s.cache| {
      var s1 := if s.cache[i].enabled then DeleteRule(s, i) else s;
      if s.cache[i] == BLANK {
        assert s.cache[i := BLANK] == s.cache;
      } else {
        ClearKeepsCount(s1, i, z);
      }
      hide Occupied;
    }
  }

  // ---- A table that comes back ----

  ghost predicate AllSucceed(answers: seq<Option<nat>>) {
    forall k | 0 <= k < |answers| :: answers[k].Some?
  }

  ghost predicate SameButSlots(s: Nat, s': Nat) {
    && |s'.cache| == |s.cache|
    && s' == s.(cache := s'.cache, hw := s'.hw, curCnt := s'.curCnt)
  }

  /** What becomes of a slot whose rule is put (back) into the table. */
  ghost function Readded(s: Nat, k: nat, answer: Option<nat>): Entry
    requires k < |s.cache|
  {
    if s.natTableHdl == 0 || answer.None? then BLANK
    else s.cache[k].(enabled := true, ruleHdl := answer.value)
  }

  lemma {:induction false} RestoreEnables(s: Nat, i: nat, answers: seq<Option<nat>>)
    requires CacheOk(s.cache) && i <= |s.cache| == |answers|
    ensures var s' := RestoreFrom(s, i, answers);
      && SameButSlots(s, s')
      && forall k | 0 <= k < |s.cache| ::
           s'.cache[k] == if k < i || s.cache[k] == BLANK then s.cache[k] else Readded(s, k, answers[k])
    ensures s.natTableHdl != 0 && AllSucceed(answers) ==> RestoreFrom(s, i, answers).curCnt == s.curCnt
    decreases |s.cache| - i
  {
    if i == |s.cache| {
    } else {
      if s.cache[i].tuple.privateIp != 0 {
        SetKeepsCacheOk(s.cache, i, Readded(s, i, answers[i]));
        hide CacheOk;
        RestoreEnables(ReaddSlot(s, i, answers[i]), i + 1, answers);
      } else {
        RestoreEnables(s, i + 1, answers);
      }
    }
  }

  /** A WAN bounce: when the table is deleted and one for the same address is added, every cached
    * connection is kept and has its rule, if the table takes the rules. It does not matter which
    * form `Reset` has.
    */
  lemma BounceRestoresAll(s: Nat, table: nat, answers: seq<Option<nat>>, reset: ResetKind)
    requires Inv(s) && s.natTableHdl != 0 && table != 0
    requires |answers| == |s.cache| && AllSucceed(answers) && FreshAnswers(answers, 0, map[])
    ensures var s' := AddTable(DeleteTable(s, s.pubIpAddr, true, reset), s.pubIpAddr, Some(table), answers);
      && Inv(s') && s'.curCnt == s.curCnt && s'.pubIpAddr == s.pubIpAddr && |s'.cache| == |s.cache|
      && forall k | 0 <= k < |s.cache| ::
           s'.cache[k] == if s.cache[k] == BLANK then BLANK
                          else s.cache[k].(enabled := true, ruleHdl := answers[k].value)
  {
    var s1 := DeleteTable(s, s.pubIpAddr, true, reset);
    DisabledHoldsTheSame(s.cache);
    AddTableIsInStep(s1, s.pubIpAddr, Some(table), answers);
    RestoreEnables(s1.(natTableHdl := table, hw := map[]), 0, answers);
    forall k | 0 <= k < |s.cache|
      ensures s1.cache[k] == BLANK <==> s.cache[k] == BLANK
    {
      assert s1.cache[k].tuple == s.cache[k].tuple;
    }
    hide CacheOk, HwMatches, RestoreFrom;
  }

  lemma AppendKeepsHw(cache: seq<Entry>, e: Entry, hw: Rules)
    requires HwMatches(cache, hw)
    ensures !e.enabled ==> HwMatches(cache + [e], hw)
    ensures e.enabled && e.ruleHdl !in hw ==> HwMatches(cache + [e], hw[e.ruleHdl := RuleOf(e)])
  {
    var cache' := cache + [e];
    forall h | h in hw
      ensures exists j :: 0 <= j < |cache'| && Holds(cache'[j], h)
    {
      var j :| 0 <= j < |cache| && Holds(cache[j], h);
      assert Holds(cache'[j], h);
    }
    if e.enabled {
      assert Holds(cache'[|cache|], e.ruleHdl);
    }
  }

  /** Whatever the enabled bits were: a restored table matches the slots behind the loop. */
  lemma {:induction false} RestoreMatches(s: Nat, i: nat, answers: seq<Option<nat>>)
    requires CacheOk(s.cache) && i <= |s.cache| == |answers| && s.natTableHdl != 0
    requires FreshAnswers(answers, i, s.hw) && HwMatches(s.cache[..i], s.hw)
    ensures var s' := RestoreFrom(s, i, answers);
      HwMatches(s'.cache, s'.hw)
    decreases |s.cache| - i
  {
    hide HwMatches;
    if i == |s.cache| {
      assert s.cache[..i] == s.cache;
    } else {
      var s1 := if s.cache[i].tuple.privateIp != 0 then ReaddSlot(s, i, answers[i]) else s;
      AppendKeepsHw(s.cache[..i], s1.cache[i], s.hw);
      SetKeepsCacheOk(s.cache, i, s1.cache[i]);
      assert s.cache[i := s1.cache[i]] == s1.cache;
      assert s1.cache[..i + 1] == s.cache[..i] + [s1.cache[i]];
      hide CacheOk;
      RestoreMatches(s1, i + 1, answers);
    }
  }

  /** With `Reset` as it is written, a next table that comes at once is in step with the cache if
    * and only if it is for the same address, or no slot was enabled when the last one was deleted.
    */
  lemma ResetAsWritten(s: Nat, pubIp: nat, table: nat, answers: seq<Option<nat>>)
    requires Inv(s) && s.natTableHdl != 0 && table != 0
    requires |answers| == |s.cache| && FreshAnswers(answers, 0, map[])
    ensures var s' := AddTable(DeleteTable(s, s.pubIpAddr, true, AsWritten), pubIp, Some(table), answers);
      HwMatches(s'.cache, s'.hw) <==> pubIp == s.pubIpAddr || NoneEnabled(s.cache)
  {
    var s1 := DeleteTable(s, s.pubIpAddr, true, AsWritten);
    if pubIp == s.pubIpAddr {
      RestoreMatches(s1.(natTableHdl := table, hw := map[]), 0, answers);
    }
  }

  // ---- Power save ----

  lemma {:induction false} SaveDisables(s: Nat, ip: nat, i: nat)
    requires Inv(s) && i <= |s.cache|
    ensures var s' := SaveFrom(s, ip, i);
      && SameButSlots(s, s') && s'.curCnt == s.curCnt
      && forall k | 0 <= k < |s.cache| ::
           s'.cache[k] == if k >= i && s.cache[k].tuple.privateIp == ip && s.cache[k].enabled
                          then s.cache[k].(enabled := false, ruleHdl := 0) else s.cache[k]
    decreases |s.cache| - i
  {
    hide Inv;
    if i == |s.cache| {
    } else {
      if s.cache[i].tuple.privateIp == ip && s.cache[i].enabled {
        DisableKeepsInv(s, i, 0);
        SaveDisables(SetSlot(DeleteRule(s, i), i, s.cache[i].(enabled := false, ruleHdl := 0)), ip, i + 1);
      } else {
        SaveDisables(s, ip, i + 1);
      }
    }
  }

  lemma {:induction false} RecoverEnables(s: Nat, ip: nat, i: nat, answers: seq<Option<nat>>)
    requires i <= |s.cache| == |answers|
    ensures var s' := RecoverFrom(s, ip, i, answers);
      && SameButSlots(s, s')
      && forall k | 0 <= k < |s.cache| ::
           s'.cache[k] == if k >= i && s.cache[k].tuple.privateIp == ip && !s.cache[k].enabled
                          then Readded(s, k, answers[k]) else s.cache[k]
    ensures s.natTableHdl != 0 && AllSucceed(answers) ==> RecoverFrom(s, ip, i, answers).curCnt == s.curCnt
    decreases |s.cache| - i
  {
    if i == |s.cache| {
    } else {
      if s.cache[i].tuple.privateIp == ip && !s.cache[i].enabled {
        RecoverEnables(ReaddSlot(s, i, answers[i]), ip, i + 1, answers);
      } else {
        RecoverEnables(s, ip, i + 1, answers);
      }
    }
  }

  lemma {:induction false} ReplacedAndBack(xs: seq<nat>, ip: nat)
    requires ip != 0 && ip !in xs
    ensures ReplaceFirst(ReplaceFirst(xs, 0, ip), ip, 0) == xs
  {
    if xs == [] || xs[0] == 0 {
    } else {
      ReplacedAndBack(xs[1..], ip);
    }
  }

  /** A client that goes into power save and recovers has all its connections enabled; those of
    * other clients, and the list of clients in power save, are as they were.
    */
  lemma PowerSaveAndRecover(s: Nat, ip: nat, answers: seq<Option<nat>>)
    requires Inv(s) && s.natTableHdl != 0 && ip != INVALID_IP_ADDR && ip !in s.pwrSaveIfs
    requires |answers| == |s.cache| && AllSucceed(answers) && FreshAnswers(answers, 0, UpdatePwrSaveIf(s, ip).hw)
    ensures var s' := ResetPwrSaveIf(UpdatePwrSaveIf(s, ip), ip, answers);
      && Inv(s') && SameButSlots(s, s') && s'.curCnt == s.curCnt
      && forall k | 0 <= k < |s.cache| ::
           s'.cache[k] == if s.cache[k].tuple.privateIp == ip
                          then s.cache[k].(enabled := true, ruleHdl := answers[k].value) else s.cache[k]
  {
    var s0 := s.(pwrSaveIfs := ReplaceFirst(s.pwrSaveIfs, 0, ip));
    SaveDisables(s0, ip, 0);
    SaveKeepsInv(s0, ip, 0);
    var s1 := UpdatePwrSaveIf(s, ip);
    var s2 := s1.(pwrSaveIfs := ReplaceFirst(s1.pwrSaveIfs, ip, 0));
    RecoverEnables(s2, ip, 0, answers);
    RecoverKeepsInv(s2, ip, 0, answers);
    ReplacedAndBack(s.pwrSaveIfs, ip);
    hide Inv, SaveFrom, RecoverFrom;
  }

  /** A client that recovers keeps all of its connections if and only if a table is up that takes
    * the rules of those that are not enabled; a connection whose rule is not taken is lost.
    */
  lemma RecoveryKeepsExactly(s: Nat, ip: nat, answers: seq<Option<nat>>)
    requires Inv(s) && ip != INVALID_IP_ADDR && |answers| == |s.cache|
    ensures var s' := ResetPwrSaveIf(s, ip, answers);
      && |s'.cache| == |s.cache|
      && ((forall k | 0 <= k < |s.cache| && s.cache[k].tuple.privateIp == ip :: s'.cache[k].tuple == s.cache[k].tuple)
          <==> forall k | 0 <= k < |s.cache| && s.cache[k].tuple.privateIp == ip && !s.cache[k].enabled ::
                 s.natTableHdl != 0 && answers[k].Some?)
      && forall k | 0 <= k < |s.cache| ::
           s'.cache[k] == if s.cache[k].tuple.privateIp == ip && !s.cache[k].enabled
                          then Readded(s, k, answers[k]) else s.cache[k]
  {
    RecoverEnables(s.(pwrSaveIfs := ReplaceFirst(s.pwrSaveIfs, ip, 0)), ip, 0, answers);
    hide RecoverFrom, HwMatches, CacheOk;
  }

  // ---- Entries ----

  ghost function Indices(n: nat): (all: set<nat>)
    ensures |all| == n && forall i: nat :: i in all <==> i < n
  {
    if n == 0 then {} else Indices(n - 1) + {n - 1}
  }

  /** The counter says whether there is room. */
  lemma FullExactlyWhenCounted(s: Nat)
    requires Counted(s, 0)
    ensures s.curCnt <= |s.cache|
    ensures FreeSlot(s.cache) == |s.cache| <==> s.curCnt == |s.cache|
  {
    var all := Indices(|s.cache|);
    assert Occupied(s.cache) <= all;
    if FreeSlot(s.cache) < |s.cache| {
      assert s.cache[FreeSlot(s.cache)] == BLANK;
      assert Occupied(s.cache) <= all - {FreeSlot(s.cache)};
      SmallerSet(Occupied(s.cache), all - {FreeSlot(s.cache)});
    } else {
      assert Occupied(s.cache) == all;
    }
    SmallerSet(Occupied(s.cache), all);
  }

  lemma {:induction false} SmallerSet<T>(a: set<T>, b: set<T>)
    requires a <= b
    ensures |a| <= |b|
  {
    assert b == a + (b - a);
  }

  /** An entry that is added is put into the first free slot. */
  lemma AddFills(s: Nat, algPorts: set<(nat, nat)>, rule: Entry, answer: Option<nat>)
    requires AddEntry(s, algPorts, rule, answer).curCnt != s.curCnt
    ensures var s1, i := AddEntry(s, algPorts, rule, answer), FreeSlot(s.cache);
      && s.natTableHdl != 0 && SlotOf(s.cache, rule.tuple) == |s.cache| && i < |s.cache|
      && exists enabled, hdl ::
           var e := rule.(enabled := enabled, ruleHdl := hdl);
           && (enabled ==> answer == Some(hdl))
           && s1 == s.(cache := s.cache[i := e], curCnt := s.curCnt + 1,
                       hw := if enabled then s.hw[hdl := RuleOf(rule)] else s.hw)
  {
    hide SlotOf, IsPwrSaveIf, FiveTuple.AllNonzero;
    var s1, i := AddEntry(s, algPorts, rule, answer), FreeSlot(s.cache);
    var e := s1.cache[i];
    assert e == rule.(enabled := e.enabled, ruleHdl := e.ruleHdl);
    assert s1.cache == s.cache[i := e];
  }

  /** A connection that was added, to the table or only to the cache, and is deleted again leaves
    * no trace.
    */
  lemma DeleteUndoesAdd(s: Nat, algPorts: set<(nat, nat)>, rule: Entry, answer: Option<nat>)
    requires Inv(s) && FreshAnswer(answer, s.hw)
    requires AddEntry(s, algPorts, rule, answer).curCnt != s.curCnt
    ensures DeleteEntry(AddEntry(s, algPorts, rule, answer), rule.tuple) == s
  {
    AddFills(s, algPorts, rule, answer);
    var s1, i := AddEntry(s, algPorts, rule, answer), FreeSlot(s.cache);
    hide AddEntry, HwMatches, SlotOf;
    FoundWhereFilled(s.cache, rule.tuple, s1.cache[i]);
    assert s.cache[i] == BLANK;
    assert s1.cache[i := BLANK] == s.cache;
    if s1.cache[i].enabled {
      assert s1.hw - {answer.value} == s.hw;
    }
  }

  lemma FoundWhereFilled(cache: seq<Entry>, t: FiveTuple, e: Entry)
    requires SlotOf(cache, t) == |cache| && FreeSlot(cache) < |cache| && e.tuple == t
    ensures SlotOf(cache[FreeSlot(cache) := e], t) == FreeSlot(cache)
  {
    var cache' := cache[FreeSlot(cache) := e];
    assert forall k | 0 <= k < |cache| && k != FreeSlot(cache) :: cache'[k].tuple == cache[k].tuple != t;
    assert cache'[FreeSlot(cache)].tuple == t;
  }

  /** What adding an entry comes to. It is cached exactly if the table is up, it uses no ALG port,
    * it is a complete and new connection, there is room, and either an end of it is in power
    * save or the hardware takes its rule; and the hardware has the rule in the latter case only.
    */
  lemma AddEntryCaches(s: Nat, algPorts: set<(nat, nat)>, rule: Entry, answer: Option<nat>)
    requires Inv(s) && Counted(s, 0)
    ensures var t := rule.tuple;
      var s' := AddEntry(s, algPorts, rule, answer);
      var saves := t.privateIp in s.pwrSaveIfs || t.targetIp in s.pwrSaveIfs;
      var cached := s.natTableHdl != 0 && (t.protocol, t.privatePort) !in algPorts && (t.protocol, t.targetPort) !in algPorts
        && t.privateIp != 0 && t.targetIp != 0 && t.privatePort != 0 && t.targetPort != 0 && t.protocol != 0
        && (forall k | 0 <= k < |s.cache| :: s.cache[k].tuple != t)
        && s.curCnt < |s.cache| && (saves || answer.Some?);
      && (!cached ==> s' == s)
      && (cached ==>
            && |s'.cache| == |s.cache|
            && (exists k :: 0 <= k < |s.cache| && s.cache[k] == BLANK && BLANK !in s.cache[..k]
                  && s'.cache[k] == rule.(enabled := !saves, ruleHdl := if saves then 0 else answer.value)
                  && forall l | 0 <= l < |s.cache| && l != k :: s'.cache[l] == s.cache[l])
            && s'.hw == if saves then s.hw else s.hw[answer.value := Rule(t, rule.publicPort)])
  {
    FullExactlyWhenCounted(s);
    hide HwMatches, Occupied;
    var i := FreeSlot(s.cache);
    var j := SlotOf(s.cache, rule.tuple);
    if i < |s.cache| {
      assert s.cache[i] == BLANK;
    }
  }

  /** A connection is cached without the table exactly if it is complete and new and there is a
    * free slot where the search begins or behind it.
    */
  lemma CacheEntryCaches(s: Nat, rule: Entry, start: nat)
    requires CacheOk(s.cache) && start <= |s.cache|
    ensures var t := rule.tuple;
      var s' := CacheEntry(s, rule, start);
      var cached := t.privateIp != 0 && t.targetIp != 0 && t.privatePort != 0 && t.targetPort != 0 && t.protocol != 0
        && (forall k | 0 <= k < |s.cache| :: s.cache[k].tuple != t)
        && (exists k :: start <= k < |s.cache| && s.cache[k] == BLANK);
      && s'.hw == s.hw
      && (!cached ==> s' == s)
      && (cached ==>
            && |s'.cache| == |s.cache|
            && exists k :: start <= k < |s.cache| && s.cache[k] == BLANK && BLANK !in s.cache[start..k]
                 && s'.cache == s.cache[k := rule.(enabled := false, ruleHdl := 0)])
  {
    var i := SlotOf(s.cache, BLANK.tuple, start);
    var j := SlotOf(s.cache, rule.tuple);
    if i < |s.cache| {
      assert s.cache[i] == BLANK;
    }
  }

  lemma {:induction false} DisconnectDisables(s: Nat, ip: nat, i: nat)
    requires Inv(s) && i <= |s.cache|
    ensures var s' := DisconnectFrom(s, ip, i);
      && SameButSlots(s, s') && s'.curCnt == s.curCnt
      && forall k | 0 <= k < |s.cache| ::
           s'.cache[k] == if k >= i && s.cache[k].tuple.privateIp == ip then s.cache[k].(enabled := false) else s.cache[k]
    decreases |s.cache| - i
  {
    hide Inv;
    if i == |s.cache| {
    } else {
      if s.cache[i].tuple.privateIp == ip && s.cache[i].enabled {
        DisableKeepsInv(s, i, s.cache[i].ruleHdl);
        DisconnectDisables(SetSlot(DeleteRule(s, i), i, s.cache[i].(enabled := false)), ip, i + 1);
      } else {
        DisconnectDisables(s, ip, i + 1);
      }
    }
  }

  /** A client that disconnects keeps its connections in the cache, but has no rule left. */
  lemma DisconnectKeepsConnections(s: Nat, ip: nat)
    requires Inv(s) && ip != INVALID_IP_ADDR
    ensures var s' := DelEntriesOnClntDiscon(s, ip);
      && Inv(s') && s'.curCnt == s.curCnt && |s'.cache| == |s.cache|
      && (forall k | 0 <= k < |s.cache| ::
            s'.cache[k] == if s.cache[k].tuple.privateIp == ip then s.cache[k].(enabled := false) else s.cache[k])
      && (forall h | h in s'.hw :: s'.hw[h].tuple.privateIp != ip)
  {
    var s0 := s.(pwrSaveIfs := ReplaceFirst(s.pwrSaveIfs, ip, 0));
    DisconnectDisables(s0, ip, 0);
    DisconnectKeepsInv(s0, ip, 0);
    hide DisconnectFrom;
    RulesAreOfEnabledSlots(DelEntriesOnClntDiscon(s, ip));
  }

  lemma RulesAreOfEnabledSlots(s: Nat)
    requires Inv(s)
    ensures forall h | h in s.hw :: exists k :: 0 <= k < |s.cache| && s.cache[k].enabled && s.cache[k].tuple == s.hw[h].tuple
  {
    forall h | h in s.hw
      ensures exists k :: 0 <= k < |s.cache| && s.cache[k].enabled && s.cache[k].tuple == s.hw[h].tuple
    {
      var k :| 0 <= k < |s.cache| && Holds(s.cache[k], h);
      assert s.hw[s.cache[k].ruleHdl] == RuleOf(s.cache[k]);
    }
  }

  lemma {:induction false} ForgetClears(s: Nat, ip: nat, i: nat)
    requires Inv(s) && ip != 0 && i <= |s.cache|
    ensures var s' := ForgetFrom(s, ip, i);
      && |s'.cache| == |s.cache| && s'.pwrSaveIfs == s.pwrSaveIfs
      && forall k | 0 <= k < |s.cache| ::
           s'.cache[k] == if k >= i && s.cache[k].tuple.targetIp == ip then BLANK else s.cache[k]
    decreases |s.cache| - i
  {
    hide Inv;
    if i == |s.cache| {
    } else {
      if s.cache[i].tuple.targetIp == ip {
        ClearKeepsInv(s, i);
        ForgetClears(ClearSlot(if s.cache[i].enabled then DeleteRule(s, i) else s, i), ip, i + 1);
      } else {
        ForgetClears(s, ip, i + 1);
      }
    }
  }

  /** Connections to a station that disconnects are gone, from the cache and from the table. */
  lemma StationDisconnectForgets(s: Nat, ip: nat)
    requires Inv(s) && ip != INVALID_IP_ADDR
    ensures var s' := DelEntriesOnSTAClntDiscon(s, ip);
      && Inv(s') && |s'.cache| == |s.cache|
      && (forall k | 0 <= k < |s.cache| ::
            s'.cache[k] == if s.cache[k].tuple.targetIp == ip then BLANK else s.cache[k])
      && (forall h | h in s'.hw :: s'.hw[h].tuple.targetIp != ip)
  {
    ForgetClears(s, ip, 0);
    ForgetKeepsInv(s, ip, 0);
    hide ForgetFrom;
    RulesAreOfEnabledSlots(DelEntriesOnSTAClntDiscon(s, ip));
  }
}
