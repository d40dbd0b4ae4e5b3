/** The NAT application, as it walks its slots. */
module NatApp {
  import opened Options
  import opened NatCache
  import opened NatInvariant

  class NatApp {
    const cache: array<Entry>
    var curCnt: int
    var natTableHdl: nat
    var pubIpAddr: nat
    var pubIpAddrPre: nat
    const pwrSaveIfs: array<nat>
    const algPorts: set<(nat, nat)>
    var hw: Rules  // what the hardware has

    ghost function Value(): Nat
      reads this, cache, pwrSaveIfs
    {
      Nat(cache[..], curCnt, natTableHdl, pubIpAddr, pubIpAddrPre, pwrSaveIfs[..], hw)
    }

    /** `garbage` is what memory held before: the list and the previous address are not cleared. */
    constructor (maxEntries: nat, algPorts: set<(nat, nat)>, garbage: nat)
      ensures Inv(Value()) && Counted(Value(), 0) && cache.Length == maxEntries && pwrSaveIfs.Length == IPA_MAX_NUM_WIFI_CLIENTS
      ensures fresh(cache) && fresh(pwrSaveIfs)
      ensures forall i | 0 <= i < maxEntries :: cache[i] == BLANK
    {
      cache := new Entry[maxEntries](_ => BLANK);
      pwrSaveIfs := new nat[IPA_MAX_NUM_WIFI_CLIENTS](_ => garbage);
      curCnt, natTableHdl, pubIpAddr, pubIpAddrPre, hw := 0, 0, 0, garbage, map[];
      this.algPorts := algPorts;
      new;
      assert Occupied(cache[..]) == {};
    }

    // ---- The hardware ----

    method AddRule(rule: Rule, answer: Option<nat>) returns (success: bool)
      modifies this`hw
      ensures success <==> natTableHdl != 0 && answer.Some?
      ensures hw == if success then old(hw)[answer.value := rule] else old(hw)
    {
      success := natTableHdl != 0 && answer.Some?;
      if success {
        hw := hw[answer.value := rule];
      }
    }

    method DelRule(hdl: nat) returns (success: bool)
      modifies this`hw
      ensures success <==> natTableHdl != 0 && hdl in old(hw)
      ensures hw == if success then old(hw) - {hdl} else old(hw)
    {
      success := natTableHdl != 0 && hdl in hw;
      if success {
        hw := hw - {hdl};
      }
    }

    // ---- Slots ----

    /** Gives a slot up, or enables it under its new handle. */
    method Readd(cnt: nat, answer: Option<nat>)
      requires cnt < cache.Length
      modifies this`hw, this`curCnt, cache
      ensures Value() == ReaddSlot(old(Value()), cnt, answer)
    {
      var success := AddRule(RuleOf(cache[cnt]), answer);
      if !success {
        cache[cnt] := BLANK;
        curCnt := curCnt - 1;
      } else {
        cache[cnt] := cache[cnt].(enabled := true, ruleHdl := answer.value);
      }
    }

    method FindSlot(t: FiveTuple, start: nat) returns (cnt: nat)
      requires start <= cache.Length
      ensures cnt == SlotOf(cache[..], t, start)
    {
      cnt := start;
      while cnt < cache.Length && cache[cnt].tuple != t
        invariant start <= cnt <= cache.Length && SlotOf(cache[..], t, start) == SlotOf(cache[..], t, cnt)
      {
        cnt := cnt + 1;
      }
    }

    method IsPwrSave(ip: nat) returns (found: bool)
      ensures found <==> IsPwrSaveIf(Value(), ip)
    {
      var cnt := 0;
      while cnt < pwrSaveIfs.Length
        invariant cnt <= pwrSaveIfs.Length && (ip == 0 || ip !in pwrSaveIfs[..cnt])
      {
        if 0 != pwrSaveIfs[cnt] && ip == pwrSaveIfs[cnt] {
          assert pwrSaveIfs[..][cnt] == ip;
          return true;
        }
        assert pwrSaveIfs[..cnt + 1] == pwrSaveIfs[..cnt] + [pwrSaveIfs[cnt]];
        cnt := cnt + 1;
      }
      assert pwrSaveIfs[..] == pwrSaveIfs[..cnt];
      return false;
    }

    method IsAlgPort(protocol: nat, port: nat) returns (found: bool)
      ensures found <==> (protocol, port) in algPorts
    {
      found := (protocol, port) in algPorts;
    }

    /** Replaces the first `a` in the list of clients in power save by `b`. */
    method Replace(a: nat, b: nat)
      modifies pwrSaveIfs
      ensures pwrSaveIfs[..] == ReplaceFirst(old(pwrSaveIfs[..]), a, b)
    {
      ghost var list := pwrSaveIfs[..];
      var cnt := 0;
      while cnt < pwrSaveIfs.Length
        invariant cnt <= pwrSaveIfs.Length && pwrSaveIfs[..] == list && a !in list[..cnt]
      {
        if pwrSaveIfs[cnt] == a {
          FirstIsReplaced(list, a, b, cnt);
          pwrSaveIfs[cnt] := b;
          return;
        }
        assert list[..cnt + 1] == list[..cnt] + [list[cnt]];
        cnt := cnt + 1;
      }
      assert list[..cnt] == list;
      NothingIsReplaced(list, a, b);
    }

    // ---- The table ----

    method AddTable(pubIp: nat, table: Option<nat>, answers: seq<Option<nat>>) returns (success: bool)
      requires |answers| == cache.Length
      modifies this, cache
      ensures Value() == NatCache.AddTable(old(Value()), pubIp, table, answers)
      ensures success <==> table.Some?
    {
      if table.None? {
        natTableHdl := 0;
        return false;
      }
      natTableHdl, hw := table.value, map[];
      if pubIp == pubIpAddrPre {
        ghost var start := Value();
        var cnt := 0;
        while cnt < cache.Length
          invariant cnt <= cache.Length
          invariant RestoreFrom(Value(), cnt, answers) == RestoreFrom(start, 0, answers)
        {
          if cache[cnt].tuple.privateIp != 0 {
            Readd(cnt, answers[cnt]);
          }
          cnt := cnt + 1;
        }
      }
      pubIpAddr := pubIp;
      return true;
    }

    /** The enabled bits are cleared, as the comment says, or compared, as it is written. */
    method Reset(reset: ResetKind)
      modifies this`natTableHdl, this`pubIpAddr, cache
      ensures natTableHdl == 0 && pubIpAddr == 0
      ensures cache[..] == if reset.AsCommented? then AllDisabled(old(cache[..])) else old(cache[..])
    {
      natTableHdl := 0;
      pubIpAddr := 0;
      var cnt := 0;
      while cnt < cache.Length
        invariant cnt <= cache.Length && natTableHdl == 0 && pubIpAddr == 0
        invariant forall k | 0 <= k < cnt ::
          cache[k] == if reset.AsCommented? then old(cache[k]).(enabled := false) else old(cache[k])
        invariant forall k | cnt <= k < cache.Length :: cache[k] == old(cache[k])
      {
        if reset.AsCommented? {
          cache[cnt] := cache[cnt].(enabled := false);
        }
        cnt := cnt + 1;
      }
    }

    /** `deleted` is what the hardware answers. */
    method DeleteTable(pubIp: nat, deleted: bool, reset: ResetKind) returns (success: bool)
      modifies this, cache
      ensures Value() == NatCache.DeleteTable(old(Value()), pubIp, deleted, reset)
      ensures success <==> old(natTableHdl) != 0 && old(pubIpAddr) == pubIp && deleted
    {
      if natTableHdl == 0 || pubIpAddr != pubIp || !deleted {
        return false;
      }
      hw := map[];
      pubIpAddrPre := pubIpAddr;
      Reset(reset);
      return true;
    }

    // ---- Entries ----

    method DeleteEntry(t: FiveTuple)
      modifies this`hw, this`curCnt, cache
      ensures Value() == NatCache.DeleteEntry(old(Value()), t)
    {
      var cnt := FindSlot(t, 0);
      if cnt < cache.Length {
        if cache[cnt].enabled {
          var _ := DelRule(cache[cnt].ruleHdl);
        }
        cache[cnt] := BLANK;
        curCnt := curCnt - 1;
      }
    }

    predicate UsesAlgPort(t: FiveTuple) {
      (t.protocol, t.privatePort) in algPorts || (t.protocol, t.targetPort) in algPorts
    }

    /** Puts a connection into a free slot, and its rule into the table unless an end of it is in
      * power save.
      */
    method Fill(cnt: nat, rule: Entry, answer: Option<nat>) returns (success: bool)
      requires cnt < cache.Length && natTableHdl != 0
      modifies this`hw, this`curCnt, cache
      ensures var s, t := old(Value()), rule.tuple;
        var saves := IsPwrSaveIf(s, t.privateIp) || IsPwrSaveIf(s, t.targetIp);
        && (success <==> saves || answer.Some?)
        && Value() == if saves then FillSlot(s, cnt, rule, false, 0)
                      else if answer.None? then s
                      else FillSlot(s, cnt, rule, true, answer.value).(hw := s.hw[answer.value := RuleOf(rule)])
    {
      hide IsPwrSaveIf;
      var privateSaves := IsPwrSave(rule.tuple.privateIp);
      var targetSaves := IsPwrSave(rule.tuple.targetIp);
      if privateSaves || targetSaves {
        cache[cnt] := rule.(enabled := false, ruleHdl := 0);
      } else {
        success := AddRule(RuleOf(rule), answer);
        if !success {
          return;
        }
        cache[cnt] := rule.(enabled := true, ruleHdl := answer.value);
      }
      curCnt := curCnt + 1;
      return true;
    }

    method AddEntry(rule: Entry, answer: Option<nat>) returns (res: int)
      modifies this`hw, this`curCnt, cache
      ensures Value() == NatCache.AddEntry(old(Value()), algPorts, rule, answer)
      ensures curCnt == old(curCnt) + 1 ==> res == 0
      ensures curCnt != old(curCnt) + 1 ==>
        && Value() == old(Value())
        && res == if natTableHdl == 0 || UsesAlgPort(rule.tuple) || rule.tuple.AllNonzero() then -1 else 0
    {
      if natTableHdl == 0 {
        return -1;
      }
      var t := rule.tuple;
      var privateIsAlg := IsAlgPort(t.protocol, t.privatePort);
      var targetIsAlg := IsAlgPort(t.protocol, t.targetPort);
      if privateIsAlg || targetIsAlg {
        return -1;
      }
      if !t.AllNonzero() {
        return 0;
      }
      var same := FindSlot(t, 0);
      if same < cache.Length {
        return -1;
      }
      var cnt := FindSlot(BLANK.tuple, 0);
      if cnt == cache.Length {
        return -1;
      }
      hide IsPwrSaveIf, SlotOf;
      var success := Fill(cnt, rule, answer);
      return if success then 0 else -1;
    }

    /** `cnt0` is what the index of the search happens to be. */
    method CacheEntry(rule: Entry, cnt0: nat)
      requires cnt0 <= cache.Length
      modifies this`curCnt, cache
      ensures Value() == NatCache.CacheEntry(old(Value()), rule, cnt0)
    {
      if !rule.tuple.AllNonzero() {
        return;
      }
      var same := FindSlot(rule.tuple, 0);
      if same < cache.Length {
        return;
      }
      var cnt := FindSlot(BLANK.tuple, cnt0);
      if cnt == cache.Length {
        return;
      }
      cache[cnt] := rule.(enabled := false, ruleHdl := 0);
      curCnt := curCnt + 1;
    }

    // ---- Power save and disconnection ----

    method UpdatePwrSaveIf(clientLanIp: nat)
      modifies this`hw, cache, pwrSaveIfs
      ensures Value() == NatCache.UpdatePwrSaveIf(old(Value()), clientLanIp)
    {
      if clientLanIp == INVALID_IP_ADDR {
        return;
      }
      var known := IsPwrSave(clientLanIp);
      if known {
        return;
      }
      Replace(0, clientLanIp);
      ghost var start := Value();
      var cnt := 0;
      while cnt < cache.Length
        invariant cnt <= cache.Length
        invariant SaveFrom(Value(), clientLanIp, cnt) == SaveFrom(start, clientLanIp, 0)
      {
        if cache[cnt].tuple.privateIp == clientLanIp && cache[cnt].enabled {
          var deleted := DelRule(cache[cnt].ruleHdl);
          if deleted {
            cache[cnt] := cache[cnt].(enabled := false, ruleHdl := 0);
          }
        }
        cnt := cnt + 1;
      }
    }

    method ResetPwrSaveIf(clientLanIp: nat, answers: seq<Option<nat>>)
      requires |answers| == cache.Length
      modifies this`hw, this`curCnt, cache, pwrSaveIfs
      ensures Value() == NatCache.ResetPwrSaveIf(old(Value()), clientLanIp, answers)
    {
      if clientLanIp == INVALID_IP_ADDR {
        return;
      }
      Replace(clientLanIp, 0);
      ghost var start := Value();
      var cnt := 0;
      while cnt < cache.Length
        invariant cnt <= cache.Length
        invariant RecoverFrom(Value(), clientLanIp, cnt, answers) == RecoverFrom(start, clientLanIp, 0, answers)
      {
        if cache[cnt].tuple.privateIp == clientLanIp && !cache[cnt].enabled {
          Readd(cnt, answers[cnt]);
        }
        cnt := cnt + 1;
      }
    }

    method DelEntriesOnClntDiscon(ip: nat)
      modifies this`hw, cache, pwrSaveIfs
      ensures Value() == NatCache.DelEntriesOnClntDiscon(old(Value()), ip)
    {
      if ip == INVALID_IP_ADDR {
        return;
      }
      Replace(ip, 0);
      ghost var start := Value();
      var cnt := 0;
      while cnt < cache.Length
        invariant cnt <= cache.Length
        invariant DisconnectFrom(Value(), ip, cnt) == DisconnectFrom(start, ip, 0)
      {
        if cache[cnt].tuple.privateIp == ip && cache[cnt].enabled {
          var deleted := DelRule(cache[cnt].ruleHdl);
          if deleted {
            cache[cnt] := cache[cnt].(enabled := false);
          }
        }
        cnt := cnt + 1;
      }
    }

    method DelEntriesOnSTAClntDiscon(ip: nat)
      modifies this`hw, this`curCnt, cache
      ensures Value() == NatCache.DelEntriesOnSTAClntDiscon(old(Value()), ip)
    {
      if ip == INVALID_IP_ADDR {
        return;
      }
      ghost var start := Value();
      var cnt := 0;
      while cnt < cache.Length
        invariant cnt <= cache.Length
        invariant ForgetFrom(Value(), ip, cnt) == ForgetFrom(start, ip, 0)
      {
        if cache[cnt].tuple.targetIp == ip {
          var deleted := true;
          if cache[cnt].enabled {
            deleted := DelRule(cache[cnt].ruleHdl);
          }
          if deleted {
            cache[cnt] := BLANK;
            curCnt := curCnt - 1;
          }
        }
        cnt := cnt + 1;
      }
    }
  }
}
