/** Which rules the hardware keeps for a client whose links could not all be turned off. */
module LanToLanStaleRules {
  import opened Options
  import opened LanToLanGraph
  import opened LanToLanInvariant
  import opened LanToLanEvents
  import opened LanToLanWalks
  import opened LanToLanRefusals

  /** The walk over the links of `a`, from `i` on to its end at `k`, deletes this rule: it is for
    * a link that the walk comes to, or for a link back.
    */
  ghost predicate IsDeleted(cs: Clients, a: Addr, i: nat, rule: Rule)
    requires a in cs && i <= |cs[a].links|
  {
    var at, k := LinkIndex(cs[a].links, rule.to), FirstUnanswered(cs, a, i);
    || (rule.from == a && i <= at <= k && at < |cs[a].links|)
    || (rule.to == a && Reaches(cs, a, i, rule.from))
  }

  /** It counts out the pairs that it reaches, and deletes the rules of their links and of the one
    * at which it ends; none of these is missing.
    */
  ghost predicate WalkedRules(g: Graph, w: Walk, a: Addr, i: nat)
    requires a in g.clients && i <= |g.clients[a].links|
  {
    && w.graph.numOffloadPair == g.numOffloadPair - (FirstUnanswered(g.clients, a, i) - i)
    && w.graph.failedDeletes == g.failedDeletes
    && (forall h :: h in w.graph.rules <==> h in g.rules && !IsDeleted(g.clients, a, i, g.rules[h]))
    && (forall h | h in w.graph.rules :: w.graph.rules[h] == g.rules[h])
  }

  lemma RulesEnd(g: Graph, a: Addr)
    requires a in g.clients && LinksLead(g.clients, a)
    ensures WalkedRules(g, WalkLinks(g, a, |g.clients[a].links|), a, |g.clients[a].links|)
  {
  }

  lemma RulesFail(g: Graph, a: Addr, i: nat)
    requires a in g.clients && i < |g.clients[a].links| && RestIsFine(g, a, i)
    requires Linked(g.clients, g.clients[a].links[i].who, a).None?
    requires LinkIndex(g.clients[a].links, g.clients[a].links[i].who) == i
    ensures WalkedRules(g, TurnOffStep(g, a, g.clients[a].links[i]), a, i)
  {
    hide RulesOk, ListsOk, TurnOffStep, MissingRules, DeleteRules, DropLink, LinkTo, LinkIndex;
    var links := g.clients[a].links;
    var l, h := links[i], WithLinks(g, a, links[i..]);
    assert links[i..] == [l] + links[i + 1..];
    TailIsOk(g.clients, a, i);
    UnansweredStep(g, a, l);
    FirstIsDropped(h, a, l, links[i + 1..]);
    DropLinkDeletes(h, a, l.who);
    hide Linked;
    assert RulesGo(g.rules, TurnOffStep(g, a, l).graph.rules, a, l.who, false);
  }

  lemma RulesGoOn(g: Graph, g1: Graph, w: Walk, a: Addr, i: nat)
    requires a in g.clients && a in g1.clients && i < |g.clients[a].links| && g1.clients[a] == g.clients[a]
    requires LinkIndex(g.clients[a].links, g.clients[a].links[i].who) == i
    requires Linked(g.clients, g.clients[a].links[i].who, a).Some?
    requires FirstUnanswered(g1.clients, a, i + 1) == FirstUnanswered(g.clients, a, i)
    requires RulesGo(g.rules, g1.rules, a, g.clients[a].links[i].who, true)
    requires g1.numOffloadPair == g.numOffloadPair - 1 && g1.failedDeletes == g.failedDeletes
    requires WalkedRules(g1, w, a, i + 1)
    ensures WalkedRules(g, w, a, i)
  {
    DeletedNext(g.clients, g1.clients, a, i);
    hide Linked, IsDeleted, FirstUnanswered, LinkIndex;
  }

  lemma DeletedNext(cs: Clients, cs1: Clients, a: Addr, i: nat)
    requires a in cs && a in cs1 && i < |cs[a].links| && cs1[a] == cs[a]
    requires LinkIndex(cs[a].links, cs[a].links[i].who) == i && Linked(cs, cs[a].links[i].who, a).Some?
    requires FirstUnanswered(cs1, a, i + 1) == FirstUnanswered(cs, a, i)
    ensures forall rule ::
      IsDeleted(cs, a, i, rule) <==> (
        || (rule.from == a && rule.to == cs[a].links[i].who)
        || (rule.from == cs[a].links[i].who && rule.to == a)
        || IsDeleted(cs1, a, i + 1, rule))
  {
    ReachesNext(cs, cs1, a, i);
    assert FirstUnanswered(cs, a, i) >= i + 1;
    hide Linked, Reaches, FirstUnanswered, LinkIndex;
  }

  lemma {:induction false} WalkDeletesRules(g: Graph, a: Addr, i: nat)
    requires a in g.clients && i <= |g.clients[a].links| && RestIsFine(g, a, i)
    ensures WalkedRules(g, WalkLinks(g, a, i), a, i)
    decreases |g.clients[a].links| - i
  {
    hide ListsOk, RulesOk, Linked, WalkedRules, RulesGo, TurnOffStep, LinkIndex;
    if i == |g.clients[a].links| {
      RulesEnd(g, a);
    } else {
      WalkStepReaches(g, a, i);
      var w := TurnOffStep(g, a, g.clients[a].links[i]);
      if w.success {
        AnsweredIsFine(g, a, i);
        WalkDeletesRules(w.graph, a, i + 1);
        RulesGoOn(g, w.graph, WalkLinks(g, a, i), a, i);
      } else {
        RulesFail(g, a, i);
      }
    }
  }

  lemma {:induction false} PeersWalkKeepsRules(g: Graph, a: Addr, i: nat)
    requires a in g.clients && PeersLead(g.clients, a) && i <= |g.clients[a].peers|
    ensures var g' := WalkPeers(g, a, i).graph; g' == g.(clients := g'.clients)
    decreases |g.clients[a].peers| - i
  {
    hide WalkPeers, PeersLead, Without, PeerIndex;
    if i == |g.clients[a].peers| {
      PeerWalkIsOver(g, a);
    } else {
      PeerWalkStepsOn(g, a, i);
      var b := g.clients[a].peers[i].who;
      var peers := g.clients[b].peers;
      if PeerIndex(peers, a) < |peers| {
        var cs1 := WithPeers(g.clients, b, Without(peers, PeerIndex(peers, a)));
        PeersWalkKeepsRules(g.(clients := cs1), a, i + 1);
      }
    }
  }

  /** After a disconnection the hardware still has the rules of those links of the client that come
    * behind the one at which the walk ended, and of the links to it that the walk did not reach;
    * those of others are as they were. The pairs that it reached are counted out.
    */
  lemma DisconnectLeavesRules(g: Graph, a: Addr)
    requires Sound(g) && a in g.clients
    ensures Leads(g.clients, a)
    ensures var g' := WalkDisconnect(g, a);
      && g'.numOffloadPair == g.numOffloadPair - FirstUnanswered(g.clients, a, 0)
      && g'.failedDeletes == g.failedDeletes
      && (forall h :: h in g'.rules <==> h in g.rules && !IsDeleted(g.clients, a, 0, g.rules[h]))
      && (forall h | h in g'.rules :: g'.rules[h] == g.rules[h])
  {
    hide ListsOk, RulesOk, PeersOk, LinksToPeers, WalkLinks, WalkPeers, IsDeleted, FirstUnanswered;
    SoundLeads(g);
    assert Leads(g.clients, a);
    SoundIsFine(g, a);
    WalkDeletesRules(g, a, 0);
    PeersWalkKeepsRules(WalkLinks(g, a, 0).graph, a, 0);
  }

  /** The links that a client is left with when the walk over them ended: all, if it ended early. */
  ghost function LinksLeft(cs: Clients, a: Addr): seq<Link>
    requires a in cs
  {
    if FirstUnanswered(cs, a, 0) == |cs[a].links| then [] else cs[a].links
  }

  lemma WalksLeave(g: Graph, a: Addr)
    requires Sound(g) && a in g.clients
    ensures Leads(g.clients, a)
    ensures var g1 := WalkLinks(g, a, 0).graph;
      && SameButLinks(g.clients, g1.clients) && g1.clients[a].links == LinksLeft(g.clients, a)
      && PeersLead(g1.clients, a) && SameButPeers(g1.clients, BothWalks(g, a).clients)
      && BothWalks(g, a) == g1.(clients := BothWalks(g, a).clients)
    ensures BothWalks(g, a).clients[a].peers == []
  {
    hide ListsOk, RulesOk, PeersOk, LinksToPeers, WalkLinks, WalkPeers, FirstUnanswered, Linked, Reaches;
    SoundLeads(g);
    assert Leads(g.clients, a);
    SoundIsFine(g, a);
    WalkDropsReached(g, a, 0);
    PeersWalkKeepsRules(WalkLinks(g, a, 0).graph, a, 0);
    BothWalksReach(g, a);
  }

  /** A new client under an active one's address: all is as after the other's disconnection, except
    * that there is an entry for it. The entry has the other's links if the walk over them ended
    * early.
    */
  lemma NewMacLeavesRules(g: Graph, a: Addr, mac: int, iface: int, answers: seq<(Answer, Answer)>)
    requires Sound(g) && a in g.clients && g.clients[a].active && g.clients[a].mac != mac
    requires |g.clients[a].peers| <= |answers|
    ensures Leads(g.clients, a)
    ensures var d := WalkDisconnect(g, a);
      WalkActive(g, a, mac, iface, answers)
        == d.(clients := d.clients[a := Client(mac, iface, true, [], LinksLeft(g.clients, a))])
  {
    hide Sound, LinksLeft, Leads, BothWalks, WalkLinks, PeersLead;
    WalksLeave(g, a);
    var cs := BothWalks(g, a).clients;
    var entry := cs[a].(mac := mac, iface := iface, active := true);
    assert entry == Client(mac, iface, true, [], LinksLeft(g.clients, a));
    assert (cs - {a})[a := entry] == cs[a := entry];
  }

  /** A client that becomes inactive: all is as after its disconnection, except that connections are
    * kept, and so is its entry if there are any.
    */
  lemma InactiveLeavesRules(g: Graph, a: Addr)
    requires Sound(g) && a in g.clients
    ensures Leads(g.clients, a)
    ensures var g', d := WalkInactive(g, a), WalkDisconnect(g, a);
      && g' == d.(clients := g'.clients)
      && (forall x :: x in g'.clients <==> x in d.clients || (x == a && g.clients[a].peers != []))
      && (forall x | x in d.clients :: x in g.clients && g'.clients[x] == d.clients[x].(peers := g.clients[x].peers))
      && (a in g'.clients ==>
            g'.clients[a] == g.clients[a].(active := false, links := LinksLeft(g.clients, a)))
  {
    hide Sound, LinksLeft, Leads, BothWalks, WalkLinks, PeersLead;
    WalksLeave(g, a);
    InactiveStaysOrGoes(g, a);
  }
}
