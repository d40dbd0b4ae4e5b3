/** What every operation on the NAT cache keeps. */
module NatInvariant {
  import opened Options
  import opened NatCache

  /** A slot is blank or holds a complete connection, and no connection is held twice. */
  ghost predicate CacheOk(cache: seq<Entry>) {
    && (forall i | 0 <= i < |cache| :: cache[i] == BLANK || cache[i].tuple.AllNonzero())
    && (forall i, j | 0 <= i < j < |cache| && cache[i].tuple == cache[j].tuple :: cache[i] == BLANK)
  }

  ghost function Occupied(cache: seq<Entry>): set<nat> {
    set i | 0 <= i < |cache| && cache[i] != BLANK
  }

  ghost predicate Holds(e: Entry, h: nat) {
    e.enabled && e.ruleHdl == h
  }

  /** The table has the rules of the enabled slots, under their handles, and no others. */
  ghost predicate HwMatches(cache: seq<Entry>, hw: Rules) {
    && (forall i | 0 <= i < |cache| && cache[i].enabled ::
          cache[i].ruleHdl in hw && hw[cache[i].ruleHdl] == RuleOf(cache[i]))
    && (forall i, j | 0 <= i < j < |cache| && cache[i].enabled && cache[j].enabled ::
          cache[i].ruleHdl != cache[j].ruleHdl)
    && (forall h | h in hw :: exists i :: 0 <= i < |cache| && Holds(cache[i], h))
  }

  ghost predicate NoneEnabled(cache: seq<Entry>) {
    forall i | 0 <= i < |cache| :: !cache[i].enabled
  }

  /** While a table is up, it is in step with the cache. */
  ghost predicate InStep(s: Nat) {
    CacheOk(s.cache) && (s.natTableHdl != 0 ==> HwMatches(s.cache, s.hw))
  }

  /** Cache and table are in step, and nothing is enabled while no table is up. */
  ghost predicate Inv(s: Nat) {
    && CacheOk(s.cache)
    && HwMatches(s.cache, s.hw)
    && (s.natTableHdl == 0 ==> NoneEnabled(s.cache))
  }

  /** The counter is `z` short of the number of occupied slots. */
  ghost predicate Counted(s: Nat, z: int) {
    CacheOk(s.cache) && s.curCnt + z == |Occupied(s.cache)|
  }

  /** The table hands out handles that are in use neither there nor for each other. */
  ghost predicate FreshAnswer(answer: Option<nat>, hw: Rules) {
    answer.Some? ==> answer.value !in hw
  }

  ghost predicate FreshAnswers(answers: seq<Option<nat>>, i: nat, hw: Rules) {
    && (forall k | i <= k < |answers| :: FreshAnswer(answers[k], hw))
    && (forall k, l | i <= k < l < |answers| && answers[k].Some? :: answers[k] != answers[l])
  }

  // ---- The list of clients in power save ----

  lemma {:induction false} FirstIsReplaced(xs: seq<nat>, a: nat, b: nat, i: nat)
    requires i < |xs| && xs[i] == a && a !in xs[..i]
    ensures ReplaceFirst(xs, a, b) == xs[i := b]
  {
    if i == 0 {
      assert [b] + xs[1..] == xs[0 := b];
    } else {
      assert xs[..i][0] == xs[0] && xs[1..][..i - 1] == xs[..i][1..];
      FirstIsReplaced(xs[1..], a, b, i - 1);
      assert [xs[0]] + xs[1..][i - 1 := b] == xs[i := b];
    }
  }

  lemma {:induction false} NothingIsReplaced(xs: seq<nat>, a: nat, b: nat)
    requires a !in xs
    ensures ReplaceFirst(xs, a, b) == xs
  {
    if xs == [] {
    } else {
      NothingIsReplaced(xs[1..], a, b);
    }
  }

  // ---- One slot ----

  lemma OccupiedAfterSet(cache: seq<Entry>, i: nat, e: Entry)
    requires i < |cache|
    ensures |Occupied(cache[i := e])|
         == |Occupied(cache)| - (if cache[i] != BLANK then 1 else 0) + (if e != BLANK then 1 else 0)
  {
    var cache', others := cache[i := e], Occupied(cache) - {i};
    assert Occupied(cache) == if cache[i] != BLANK then others + {i} else others;
    assert Occupied(cache') == if e != BLANK then others + {i} else others;
  }

  lemma SetKeepsCacheOk(cache: seq<Entry>, i: nat, e: Entry)
    requires CacheOk(cache) && i < |cache|
    requires e == BLANK || (e.tuple.AllNonzero() && forall j | 0 <= j < |cache| && j != i :: cache[j].tuple != e.tuple)
    ensures CacheOk(cache[i := e])
  {
  }

  /** A slot that stays out of the table. */
  lemma SetKeepsHw(cache: seq<Entry>, i: nat, e: Entry, hw: Rules)
    requires HwMatches(cache, hw) && i < |cache| && !cache[i].enabled && !e.enabled
    ensures HwMatches(cache[i := e], hw)
  {
    var cache' := cache[i := e];
    forall h | h in hw
      ensures exists j :: 0 <= j < |cache'| && Holds(cache'[j], h)
    {
      var j :| 0 <= j < |cache| && Holds(cache[j], h);
      assert Holds(cache'[j], h);
    }
  }

  /** A slot that enters the table. */
  lemma EnableKeepsHw(cache: seq<Entry>, i: nat, e: Entry, hw: Rules)
    requires HwMatches(cache, hw) && i < |cache| && !cache[i].enabled && e.enabled && e.ruleHdl !in hw
    ensures HwMatches(cache[i := e], hw[e.ruleHdl := RuleOf(e)])
  {
    var cache', hw' := cache[i := e], hw[e.ruleHdl := RuleOf(e)];
    forall h | h in hw'
      ensures exists j :: 0 <= j < |cache'| && Holds(cache'[j], h)
    {
      if h == e.ruleHdl {
        assert Holds(cache'[i], h);
      } else {
        var j :| 0 <= j < |cache| && Holds(cache[j], h);
        assert Holds(cache'[j], h);
      }
    }
  }

  /** A slot that leaves the table. */
  lemma DisableKeepsHw(cache: seq<Entry>, i: nat, e: Entry, hw: Rules)
    requires HwMatches(cache, hw) && i < |cache| && cache[i].enabled && !e.enabled
    ensures cache[i].ruleHdl in hw && HwMatches(cache[i := e], hw - {cache[i].ruleHdl})
  {
    var cache', hw' := cache[i := e], hw - {cache[i].ruleHdl};
    forall h | h in hw'
      ensures exists j :: 0 <= j < |cache'| && Holds(cache'[j], h)
    {
      var j :| 0 <= j < |cache| && Holds(cache[j], h);
      assert Holds(cache'[j], h);
    }
  }

  lemma ClearKeepsInv(s: Nat, i: nat)
    requires Inv(s) && i < |s.cache|
    ensures var s1 := if s.cache[i].enabled then DeleteRule(s, i) else s;
      && (s.cache[i].enabled ==> CanDeleteRule(s, i))
      && Inv(ClearSlot(s1, i))
  {
    SetKeepsCacheOk(s.cache, i, BLANK);
    if s.cache[i].enabled {
      DisableKeepsHw(s.cache, i, BLANK, s.hw);
    } else {
      SetKeepsHw(s.cache, i, BLANK, s.hw);
    }
    hide CacheOk, HwMatches;
  }

  lemma DisableKeepsInv(s: Nat, i: nat, hdl: nat)
    requires Inv(s) && i < |s.cache| && s.cache[i].enabled
    ensures CanDeleteRule(s, i)
    ensures Inv(SetSlot(DeleteRule(s, i), i, s.cache[i].(enabled := false, ruleHdl := hdl)))
  {
    var e := s.cache[i].(enabled := false, ruleHdl := hdl);
    SetKeepsCacheOk(s.cache, i, e);
    DisableKeepsHw(s.cache, i, e, s.hw);
    hide HwMatches;
  }

  lemma ReaddKeepsInv(s: Nat, i: nat, answer: Option<nat>)
    requires Inv(s) && i < |s.cache| && s.cache[i] != BLANK && !s.cache[i].enabled && FreshAnswer(answer, s.hw)
    ensures Inv(ReaddSlot(s, i, answer))
  {
    if s.natTableHdl == 0 || answer.None? {
      ClearKeepsInv(s, i);
    } else {
      var e := s.cache[i].(enabled := true, ruleHdl := answer.value);
      SetKeepsCacheOk(s.cache, i, e);
      EnableKeepsHw(s.cache, i, e, s.hw);
      hide HwMatches, CacheOk;
    }
  }

  lemma FillKeepsInv(s: Nat, i: nat, rule: Entry)
    requires Inv(s) && Fits(s, rule.tuple) && i < |s.cache| && s.cache[i] == BLANK
    ensures Inv(FillSlot(s, i, rule, false, 0))
    ensures forall h | h !in s.hw && s.natTableHdl != 0 ::
      Inv(FillSlot(s, i, rule, true, h).(hw := s.hw[h := RuleOf(rule)]))
  {
    forall enabled, hdl
      ensures CacheOk(s.cache[i := rule.(enabled := enabled, ruleHdl := hdl)])
    {
      SetKeepsCacheOk(s.cache, i, rule.(enabled := enabled, ruleHdl := hdl));
    }
    SetKeepsHw(s.cache, i, rule.(enabled := false, ruleHdl := 0), s.hw);
    forall h | h !in s.hw
      ensures HwMatches(s.cache[i := rule.(enabled := true, ruleHdl := h)], s.hw[h := RuleOf(rule)])
    {
      EnableKeepsHw(s.cache, i, rule.(enabled := true, ruleHdl := h), s.hw);
    }
    hide HwMatches, CacheOk;
  }

  // ---- The counter ----

  lemma ClearKeepsCount(s: Nat, i: nat, z: int)
    requires Counted(s, z) && i < |s.cache| && s.cache[i] != BLANK
    ensures Counted(ClearSlot(s, i), z)
  {
    OccupiedAfterSet(s.cache, i, BLANK);
    SetKeepsCacheOk(s.cache, i, BLANK);
    hide Occupied;
  }

  /** A slot goes on holding its connection. */
  lemma SetKeepsCount(s: Nat, i: nat, enabled: bool, hdl: nat, z: int)
    requires Counted(s, z) && i < |s.cache| && s.cache[i] != BLANK
    ensures Counted(SetSlot(s, i, s.cache[i].(enabled := enabled, ruleHdl := hdl)), z)
  {
    var e := s.cache[i].(enabled := enabled, ruleHdl := hdl);
    OccupiedAfterSet(s.cache, i, e);
    SetKeepsCacheOk(s.cache, i, e);
    hide Occupied;
  }

  lemma FillKeepsCount(s: Nat, i: nat, rule: Entry, enabled: bool, hdl: nat, z: int)
    requires Counted(s, z) && Fits(s, rule.tuple) && i < |s.cache| && s.cache[i] == BLANK
    ensures Counted(FillSlot(s, i, rule, enabled, hdl), z)
  {
    var e := rule.(enabled := enabled, ruleHdl := hdl);
    OccupiedAfterSet(s.cache, i, e);
    SetKeepsCacheOk(s.cache, i, e);
    hide Occupied;
  }
}
