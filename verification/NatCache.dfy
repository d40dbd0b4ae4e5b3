/** The cache of NAT connections and the hardware NAT table it is kept in step with. */
module NatCache {
  import opened Options

  const IPA_MAX_NUM_WIFI_CLIENTS := 32
  const INVALID_IP_ADDR := 0

  datatype FiveTuple = FiveTuple(privateIp: nat, targetIp: nat, privatePort: nat, targetPort: nat, protocol: nat) {
    predicate AllZero() {
      privateIp == 0 && targetIp == 0 && privatePort == 0 && targetPort == 0 && protocol == 0
    }

    predicate AllNonzero() {
      privateIp != 0 && targetIp != 0 && privatePort != 0 && targetPort != 0 && protocol != 0
    }
  }

  /** A slot of the cache; `ruleHdl` means something while it is enabled. */
  datatype Entry = Entry(tuple: FiveTuple, publicPort: nat, dstNat: bool, enabled: bool, ruleHdl: nat)

  const BLANK := Entry(FiveTuple(0, 0, 0, 0, 0), 0, false, false, 0)

  /** A rule as the hardware has it. */
  datatype Rule = Rule(tuple: FiveTuple, publicPort: nat)

  type Rules = map<nat, Rule>

  function RuleOf(e: Entry): Rule {
    Rule(e.tuple, e.publicPort)
  }

  /** No table is up while the table handle is 0. */
  datatype Nat = Nat(
    cache: seq<Entry>,
    curCnt: int,
    natTableHdl: nat,
    pubIpAddr: nat,
    pubIpAddrPre: nat,
    pwrSaveIfs: seq<nat>,
    hw: Rules)

  // ---- Slots ----

  function SetSlot(s: Nat, i: nat, e: Entry): Nat
    requires i < |s.cache|
  {
    s.(cache := s.cache[i := e])
  }

  /** The slot is zeroed and no longer counted. */
  function ClearSlot(s: Nat, i: nat): Nat
    requires i < |s.cache|
  {
    SetSlot(s, i, BLANK).(curCnt := s.curCnt - 1)
  }

  /** Deleting a rule fails without a table, or without that rule. */
  predicate CanDeleteRule(s: Nat, i: nat)
    requires i < |s.cache|
  {
    s.natTableHdl != 0 && s.cache[i].ruleHdl in s.hw
  }

  function DeleteRule(s: Nat, i: nat): Nat
    requires i < |s.cache|
  {
    if CanDeleteRule(s, i) then s.(hw := s.hw - {s.cache[i].ruleHdl}) else s
  }

  /** Puts the rule of a slot into the table; a slot whose rule is refused is given up. */
  function ReaddSlot(s: Nat, i: nat, answer: Option<nat>): Nat
    requires i < |s.cache|
  {
    if s.natTableHdl == 0 || answer.None? then ClearSlot(s, i)
    else
      var e := s.cache[i].(enabled := true, ruleHdl := answer.value);
      SetSlot(s, i, e).(hw := s.hw[answer.value := RuleOf(e)])
  }

  // ---- The table ----

  /** The same table is up, if any, and the same clients are in power save. */
  predicate SameTable(s: Nat, s': Nat) {
    && s'.natTableHdl == s.natTableHdl && s'.pubIpAddr == s.pubIpAddr && s'.pubIpAddrPre == s.pubIpAddrPre
    && s'.pwrSaveIfs == s.pwrSaveIfs
  }

  /** From slot `i` on, every occupied slot is put into the new table. */
  function RestoreFrom(s: Nat, i: nat, answers: seq<Option<nat>>): (s': Nat)
    requires i <= |s.cache| == |answers|
    ensures |s'.cache| == |s.cache| && SameTable(s, s')
    decreases |s.cache| - i
  {
    if i == |s.cache| then s
    else if s.cache[i].tuple.privateIp != 0 then RestoreFrom(ReaddSlot(s, i, answers[i]), i + 1, answers)
    else RestoreFrom(s, i + 1, answers)
  }

  /** `AddTable`. A table that is up is lost, whether or not the new one is granted. */
  function AddTable(s: Nat, pubIp: nat, table: Option<nat>, answers: seq<Option<nat>>): Nat
    requires |answers| == |s.cache|
  {
    if table.None? then s.(natTableHdl := 0)
    else
      var s1 := s.(natTableHdl := table.value, hw := map[]);
      (if pubIp == s.pubIpAddrPre then RestoreFrom(s1, 0, answers) else s1).(pubIpAddr := pubIp)
  }

  function AllDisabled(cache: seq<Entry>): (cache': seq<Entry>)
    ensures |cache'| == |cache|
    ensures forall i | 0 <= i < |cache| :: cache'[i] == cache[i].(enabled := false)
  {
    if cache == [] then [] else [cache[0].(enabled := false)] + AllDisabled(cache[1..])
  }

  /** What `Reset` does to the enabled bits: as its comment says it clears them; as it is
    * written it compares them.
    */
  datatype ResetKind = AsCommented | AsWritten

  function DeleteTable(s: Nat, pubIp: nat, success: bool, reset: ResetKind): Nat {
    if s.natTableHdl == 0 || s.pubIpAddr != pubIp || !success then s
    else
      s.(natTableHdl := 0, pubIpAddr := 0, pubIpAddrPre := s.pubIpAddr, hw := map[],
         cache := if reset.AsCommented? then AllDisabled(s.cache) else s.cache)
  }

  // ---- Entries ----

  /** The first slot from `i` on with this tuple; the number of slots if there is none. */
  function SlotOf(cache: seq<Entry>, t: FiveTuple, i: nat := 0): (j: nat)
    requires i <= |cache|
    ensures i <= j <= |cache| && (j < |cache| ==> cache[j].tuple == t)
    ensures forall k | i <= k < j :: cache[k].tuple != t
    decreases |cache| - i
  {
    if i == |cache| || cache[i].tuple == t then i else SlotOf(cache, t, i + 1)
  }

  function FreeSlot(cache: seq<Entry>): nat {
    SlotOf(cache, BLANK.tuple)
  }

  predicate IsPwrSaveIf(s: Nat, ip: nat) {
    ip != 0 && ip in s.pwrSaveIfs
  }

  /** The connection may be cached: all of it is given, and it is new. */
  predicate Fits(s: Nat, t: FiveTuple) {
    t.AllNonzero() && SlotOf(s.cache, t) == |s.cache|
  }

  function FillSlot(s: Nat, i: nat, rule: Entry, enabled: bool, hdl: nat): Nat
    requires i < |s.cache|
  {
    SetSlot(s, i, rule.(enabled := enabled, ruleHdl := hdl)).(curCnt := s.curCnt + 1)
  }

  function AddEntry(s: Nat, algPorts: set<(nat, nat)>, rule: Entry, answer: Option<nat>): Nat {
    var t, i := rule.tuple, FreeSlot(s.cache);
    if s.natTableHdl == 0 then s
    else if (t.protocol, t.privatePort) in algPorts || (t.protocol, t.targetPort) in algPorts then s
    else if !Fits(s, t) || i == |s.cache| then s
    else if IsPwrSaveIf(s, t.privateIp) || IsPwrSaveIf(s, t.targetIp) then FillSlot(s, i, rule, false, 0)
    else if answer.None? then s
    else FillSlot(s, i, rule, true, answer.value).(hw := s.hw[answer.value := RuleOf(rule)])
  }

  /** The search for a free slot begins wherever the index that was not set happens to be. */
  function CacheEntry(s: Nat, rule: Entry, start: nat): Nat
    requires start <= |s.cache|
  {
    var i := SlotOf(s.cache, BLANK.tuple, start);
    if !Fits(s, rule.tuple) || i == |s.cache| then s else FillSlot(s, i, rule, false, 0)
  }

  function DeleteEntry(s: Nat, t: FiveTuple): Nat {
    var i := SlotOf(s.cache, t);
    if i == |s.cache| then s
    else ClearSlot(if s.cache[i].enabled then DeleteRule(s, i) else s, i)
  }

  // ---- Power save and disconnection ----

  /** Replaces the first `a` by `b`. */
  function ReplaceFirst(xs: seq<nat>, a: nat, b: nat): seq<nat> {
    if xs == [] then []
    else if xs[0] == a then [b] + xs[1..]
    else [xs[0]] + ReplaceFirst(xs[1..], a, b)
  }

  /** From slot `i` on, the client's rules leave the table. */
  function SaveFrom(s: Nat, ip: nat, i: nat): (s': Nat)
    requires i <= |s.cache|
    ensures |s'.cache| == |s.cache| && SameTable(s, s')
    decreases |s.cache| - i
  {
    if i == |s.cache| then s
    else if s.cache[i].tuple.privateIp == ip && s.cache[i].enabled && CanDeleteRule(s, i) then
      SaveFrom(SetSlot(DeleteRule(s, i), i, s.cache[i].(enabled := false, ruleHdl := 0)), ip, i + 1)
    else SaveFrom(s, ip, i + 1)
  }

  function UpdatePwrSaveIf(s: Nat, ip: nat): Nat {
    if ip == INVALID_IP_ADDR || ip in s.pwrSaveIfs then s
    else SaveFrom(s.(pwrSaveIfs := ReplaceFirst(s.pwrSaveIfs, 0, ip)), ip, 0)
  }

  /** From slot `i` on, the client's rules come back. */
  function RecoverFrom(s: Nat, ip: nat, i: nat, answers: seq<Option<nat>>): (s': Nat)
    requires i <= |s.cache| == |answers|
    ensures |s'.cache| == |s.cache| && SameTable(s, s')
    decreases |s.cache| - i
  {
    if i == |s.cache| then s
    else if s.cache[i].tuple.privateIp == ip && !s.cache[i].enabled then
      RecoverFrom(ReaddSlot(s, i, answers[i]), ip, i + 1, answers)
    else RecoverFrom(s, ip, i + 1, answers)
  }

  function ResetPwrSaveIf(s: Nat, ip: nat, answers: seq<Option<nat>>): Nat
    requires |answers| == |s.cache|
  {
    if ip == INVALID_IP_ADDR then s
    else RecoverFrom(s.(pwrSaveIfs := ReplaceFirst(s.pwrSaveIfs, ip, 0)), ip, 0, answers)
  }

  /** From slot `i` on, the client's rules leave the table; the connections stay cached. */
  function DisconnectFrom(s: Nat, ip: nat, i: nat): (s': Nat)
    requires i <= |s.cache|
    ensures |s'.cache| == |s.cache| && SameTable(s, s')
    decreases |s.cache| - i
  {
    if i == |s.cache| then s
    else if s.cache[i].tuple.privateIp == ip && s.cache[i].enabled && CanDeleteRule(s, i) then
      DisconnectFrom(SetSlot(DeleteRule(s, i), i, s.cache[i].(enabled := false)), ip, i + 1)
    else DisconnectFrom(s, ip, i + 1)
  }

  function DelEntriesOnClntDiscon(s: Nat, ip: nat): Nat {
    if ip == INVALID_IP_ADDR then s
    else DisconnectFrom(s.(pwrSaveIfs := ReplaceFirst(s.pwrSaveIfs, ip, 0)), ip, 0)
  }

  /** From slot `i` on, connections to the station are deleted. */
  function ForgetFrom(s: Nat, ip: nat, i: nat): (s': Nat)
    requires i <= |s.cache|
    ensures |s'.cache| == |s.cache| && SameTable(s, s')
    decreases |s.cache| - i
  {
    if i == |s.cache| then s
    else if s.cache[i].tuple.targetIp != ip || (s.cache[i].enabled && !CanDeleteRule(s, i)) then ForgetFrom(s, ip, i + 1)
    else ForgetFrom(ClearSlot(if s.cache[i].enabled then DeleteRule(s, i) else s, i), ip, i + 1)
  }

  function DelEntriesOnSTAClntDiscon(s: Nat, ip: nat): Nat {
    if ip == INVALID_IP_ADDR then s else ForgetFrom(s, ip, 0)
  }
}
