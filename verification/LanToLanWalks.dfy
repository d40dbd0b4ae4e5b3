/** The walks over a client's lists, with all the ways in which they can end early. On a consistent
  * graph they come to what `TurnOffLinks` and `ClearPeers` say.
  */
module LanToLanWalks {
  import opened Options
  import opened LanToLanGraph
  import opened LanToLanInvariant
  import opened LanToLanEvents

  datatype Walk = Walk(success: bool, graph: Graph)

  /** No link of this client dangles or leads back to it. */
  ghost predicate LinksLead(cs: Clients, a: Addr)
    requires a in cs
  {
    forall i | 0 <= i < |cs[a].links| :: cs[a].links[i].who in cs && cs[a].links[i].who != a
  }

  ghost predicate PeersLead(cs: Clients, a: Addr)
    requires a in cs
  {
    forall i | 0 <= i < |cs[a].peers| :: cs[a].peers[i].who in cs && cs[a].peers[i].who != a
  }

  ghost function DeleteLinkRules(g: Graph, l: Link): Graph {
    g.(rules := DeleteRules(g.rules, l), failedDeletes := g.failedDeletes + MissingRules(g.rules, l))
  }

  /** One link of `turnoff_offload_links`: its rules, then the link back with its rules. */
  ghost function TurnOffStep(g: Graph, a: Addr, l: Link): (w: Walk)
    requires l.who in g.clients
    ensures w.graph.clients.Keys == g.clients.Keys
    ensures forall x | x in g.clients && x != l.who :: w.graph.clients[x] == g.clients[x]
  {
    var g1 := DeleteLinkRules(g, l);
    var peer := g.clients[l.who];
    var i := LinkIndex(peer.links, a);
    if MissingRules(g.rules, l) > 0 || i == |peer.links| then Walk(false, g1)
    else
      var g2 := DeleteLinkRules(g1, peer.links[i]);
      if MissingRules(g1.rules, peer.links[i]) > 0 then Walk(false, g2)
      else
        Walk(true, g2.(clients := g2.clients[l.who := peer.(links := Without(peer.links, i))],
                       numOffloadPair := g.numOffloadPair - 1))
  }

  ghost function WalkLinks(g: Graph, a: Addr, i: nat): (w: Walk)
    requires a in g.clients && LinksLead(g.clients, a) && i <= |g.clients[a].links|
    ensures SameButLinks(g.clients, w.graph.clients)
    decreases |g.clients[a].links| - i
  {
    if i == |g.clients[a].links| then Walk(true, WithLinks(g, a, []))
    else
      var w := TurnOffStep(g, a, g.clients[a].links[i]);
      if !w.success then w else WalkLinks(w.graph, a, i + 1)
  }

  ghost function WalkPeers(g: Graph, a: Addr, i: nat): (w: Walk)
    requires a in g.clients && PeersLead(g.clients, a) && i <= |g.clients[a].peers|
    ensures SameButPeers(g.clients, w.graph.clients)
    decreases |g.clients[a].peers| - i
  {
    if i == |g.clients[a].peers| then Walk(true, g.(clients := WithPeers(g.clients, a, [])))
    else
      var b := g.clients[a].peers[i].who;
      var j := PeerIndex(g.clients[b].peers, a);
      if j == |g.clients[b].peers| then Walk(false, g)
      else WalkPeers(g.(clients := WithPeers(g.clients, b, Without(g.clients[b].peers, j))), a, i + 1)
  }

  // ---- The events, on any graph ----

  /** The lists of this client do not dangle. */
  ghost predicate Leads(cs: Clients, a: Addr) {
    a in cs ==> LinksLead(cs, a) && PeersLead(cs, a)
  }

  /** `handle_client_inactive` */
  ghost function WalkInactive(g: Graph, a: Addr): Graph
    requires Leads(g.clients, a)
  {
    if a !in g.clients then g
    else
      var g1 := WalkLinks(g, a, 0).graph;
      g1.(clients := EraseIfUnused(g1.clients[a := g1.clients[a].(active := false)], a))
  }

  /** What the walks leave of the graph, one after the other, whether or not they come to an end. */
  ghost function BothWalks(g: Graph, a: Addr): (g': Graph)
    requires a in g.clients && Leads(g.clients, a)
    ensures g'.clients.Keys == g.clients.Keys
  {
    WalkPeers(WalkLinks(g, a, 0).graph, a, 0).graph
  }

  /** `handle_client_disconnect` */
  ghost function WalkDisconnect(g: Graph, a: Addr): Graph
    requires Leads(g.clients, a)
  {
    if a !in g.clients then g
    else
      var g1 := BothWalks(g, a);
      g1.(clients := g1.clients - {a})
  }

  /** `handle_client_active` */
  ghost function WalkActive(g: Graph, a: Addr, mac: int, iface: int, answers: seq<(Answer, Answer)>): Graph
    requires Leads(g.clients, a) && (a in g.clients ==> |g.clients[a].peers| <= |answers|)
  {
    if a in g.clients && g.clients[a].active && g.clients[a].mac != mac then
      var g1 := BothWalks(g, a);
      g1.(clients := g1.clients[a := g1.clients[a].(mac := mac, iface := iface, active := true)])
    else ClientActive(g, a, mac, iface, answers)
  }

  // ---- On a consistent graph ----

  /** The clients as they would be with other peers in one client's list. */
  ghost function WithPeers(cs: Clients, a: Addr, peers: seq<Peer>): Clients
    requires a in cs
  {
    cs[a := cs[a].(peers := peers)]
  }

  lemma PeersSetTwice(cs: Clients, a: Addr, b: Addr, first: seq<Peer>, peers: seq<Peer>)
    requires a in cs && b in cs && a != b
    ensures WithPeers(cs, a, first)[b] == cs[b]
    ensures forall ps ::
      && a in WithPeers(cs, b, ps) && WithPeers(cs, b, ps)[a] == cs[a]
      && WithPeers(WithPeers(cs, b, ps), a, peers) == WithPeers(WithPeers(WithPeers(cs, a, first), a, peers), b, ps)
  {
  }

  /** The first step of clearing a client's peers. */
  lemma StepOfClear(g: Graph, a: Addr, p: Peer, rest: seq<Peer>)
    requires Inv(g) && a in g.clients && g.clients[a].links == [] && g.clients[a].peers == [p] + rest
    ensures var b := p.who;
      var cs := g.clients;
      && b in cs && b != a
      && PeerIndex(cs[b].peers, a) < |cs[b].peers|
      && DropPeers(cs, a, b) == WithPeers(WithPeers(cs, a, rest), b, Without(cs[b].peers, PeerIndex(cs[b].peers, a)))
      && ClearPeers(cs, a) == ClearPeers(DropPeers(cs, a, b), a)
      && Inv(g.(clients := DropPeers(cs, a, b)))
  {
    hide RulesOk, LinkedPairs, LinksOk, ListsOk;
    var b, cs := p.who, g.clients;
    PeerIsConnected(cs, a, 0);
    assert Connected(cs, b, a) == Connected(cs, a, b) > 0;
    ListsAreOk(cs, a);
    EntryIsFound(cs[a].peers, 0);
    assert Linked(cs, a, b).None?;
    assert Without(cs[a].peers, 0) == rest && PeerIndex(cs[b].peers, a) < |cs[b].peers|;
    hide Connected, Linked, PeerIndex, Without, PeersOk;
    DropPeersCounts(cs, a, b);
    ConnectionsKeepInv(g, DropPeers(cs, a, b), a, b, 0);
  }

  /** The graph as it would be with other links in one client's list. */
  ghost function WithLinks(g: Graph, a: Addr, links: seq<Link>): Graph
    requires a in g.clients
  {
    g.(clients := g.clients[a := g.clients[a].(links := links)])
  }

  lemma DropIgnoresOthers(g: Graph, a: Addr, b: Addr, links: seq<Link>)
    requires a in g.clients && b in g.clients && a != b
    ensures DropLink(WithLinks(g, a, links), b, a) == WithLinks(DropLink(g, b, a), a, links)
    ensures DropLink(g, b, a).clients[a] == g.clients[a]
  {
    hide Without, DeleteRules, MissingRules;
  }

  /** The first step of turning a client's links off. */
  lemma StepOfTurnOff(g: Graph, a: Addr, l: Link, rest: seq<Link>)
    requires Inv(g) && a in g.clients && g.clients[a].links == [l] + rest
    ensures var b := l.who;
      var g1 := WithLinks(g.(rules := DeleteRules(g.rules, l)), a, rest);
      && b in g.clients && b != a
      && MissingRules(g.rules, l) == 0
      && LinkTo(g.clients[b].links, a).Some?
      && DropLink(g1, b, a).failedDeletes == g.failedDeletes
      && EraseOffloadLink(g, a, b) == DropLink(g1, b, a).(numOffloadPair := g.numOffloadPair - 1)
      && TurnOffLinks(g, a) == TurnOffLinks(EraseOffloadLink(g, a, b), a)
      && Inv(EraseOffloadLink(g, a, b))
  {
    hide RulesOk, PeersOk, LinkedPairs;
    FirstLinkLeadsOn(g.clients, a);
    var b := l.who;
    LinkIsFound(g.clients[a].links, 0);
    assert DropLink(g, a, b).clients[a].links == rest;
    LinksAreMutual(g.clients, a, b);
    DropLinkKeepsRules(g, a, b);
    DropLinkKeepsRules(DropLink(g, a, b), b, a);
    EraseKeepsInv(g, a, b);
  }

  lemma ListsLead(g: Graph, a: Addr)
    requires Inv(g) && a in g.clients
    ensures LinksLead(g.clients, a) && PeersLead(g.clients, a)
  {
    forall i | 0 <= i < |g.clients[a].links|
      ensures g.clients[a].links[i].who in g.clients && g.clients[a].links[i].who != a
    {
      LinkIsFound(g.clients[a].links, i);
      hide LinkTo, Connections;
      assert Linked(g.clients, a, g.clients[a].links[i].who).Some?;
      OnlyClientsAreLinked(g.clients);
    }
    forall i | 0 <= i < |g.clients[a].peers|
      ensures g.clients[a].peers[i].who in g.clients && g.clients[a].peers[i].who != a
    {
      PeerIsConnected(g.clients, a, i);
    }
  }

  /** A step of the walk is the erasing of a pair, with the rest of the list in place of the list. */
  lemma WalkStep(g: Graph, a: Addr, l: Link, rest: seq<Link>)
    requires a in g.clients && Inv(WithLinks(g, a, [l] + rest)) && l.who in g.clients
    ensures var w := TurnOffStep(g, a, l);
      var h := WithLinks(g, a, [l] + rest);
      && l.who != a && w.success && WithLinks(w.graph, a, rest) == EraseOffloadLink(h, a, l.who)
      && Inv(WithLinks(w.graph, a, rest))
      && TurnOffLinks(WithLinks(w.graph, a, rest), a) == TurnOffLinks(h, a)
  {
    hide Inv, TurnOffLinks, EraseOffloadLink, TurnOffStep, MissingRules, DeleteRules, DropLink, LinkTo;
    var h, b := WithLinks(g, a, [l] + rest), l.who;
    StepOfTurnOff(h, a, l, rest);
    var g1 := DeleteLinkRules(g, l);
    assert WithLinks(g1, a, rest) == WithLinks(h.(rules := DeleteRules(h.rules, l)), a, rest);
    DropIgnoresOthers(g1, a, b, rest);
    assert h.clients[b] == g.clients[b];
    StepIsDrop(g, a, l);
  }

  lemma StepIsDrop(g: Graph, a: Addr, l: Link)
    requires l.who in g.clients && MissingRules(g.rules, l) == 0 && LinkTo(g.clients[l.who].links, a).Some?
    requires DropLink(DeleteLinkRules(g, l), l.who, a).failedDeletes == g.failedDeletes
    ensures TurnOffStep(g, a, l)
         == Walk(true, DropLink(DeleteLinkRules(g, l), l.who, a).(numOffloadPair := g.numOffloadPair - 1))
  {
    hide MissingRules, DeleteRules;
  }

  lemma WalkEndsOff(g: Graph, a: Addr)
    requires a in g.clients && LinksLead(g.clients, a)
    ensures WalkLinks(g, a, |g.clients[a].links|) == Walk(true, TurnOffLinks(WithLinks(g, a, []), a))
  {
  }

  lemma WalkStepsOn(g: Graph, a: Addr, i: nat)
    requires a in g.clients && LinksLead(g.clients, a) && i < |g.clients[a].links|
    requires TurnOffStep(g, a, g.clients[a].links[i]).success
    ensures LinksLead(TurnOffStep(g, a, g.clients[a].links[i]).graph.clients, a)
    ensures WalkLinks(g, a, i) == WalkLinks(TurnOffStep(g, a, g.clients[a].links[i]).graph, a, i + 1)
  {
    hide TurnOffStep;
  }

  lemma WalkIsOver(g: Graph, a: Addr)
    requires a in g.clients && LinksLead(g.clients, a)
    ensures WalkLinks(g, a, |g.clients[a].links|) == Walk(true, WithLinks(g, a, []))
  {
  }

  lemma LinkLeads(cs: Clients, a: Addr, i: nat)
    requires a in cs && LinksLead(cs, a) && i < |cs[a].links|
    ensures cs[a].links[i].who in cs && cs[a].links[i].who != a
  {
  }

  lemma WalkStops(g: Graph, a: Addr, i: nat)
    requires a in g.clients && LinksLead(g.clients, a) && i < |g.clients[a].links|
    requires !TurnOffStep(g, a, g.clients[a].links[i]).success
    ensures WalkLinks(g, a, i) == TurnOffStep(g, a, g.clients[a].links[i])
  {
    hide TurnOffStep;
  }

  lemma {:induction false} WalkTurnsOff(g: Graph, a: Addr, i: nat)
    requires a in g.clients && LinksLead(g.clients, a) && i <= |g.clients[a].links|
    requires Inv(WithLinks(g, a, g.clients[a].links[i..]))
    ensures WalkLinks(g, a, i) == Walk(true, TurnOffLinks(WithLinks(g, a, g.clients[a].links[i..]), a))
    decreases |g.clients[a].links| - i
  {
    hide Inv, WalkLinks, TurnOffStep, TurnOffLinks, WithLinks;
    var links := g.clients[a].links;
    if i == |links| {
      assert links[i..] == [];
      WalkEndsOff(g, a);
    } else {
      assert links[i..] == [links[i]] + links[i + 1..];
      WalkStep(g, a, links[i], links[i + 1..]);
      WalkStepsOn(g, a, i);
      WalkTurnsOff(TurnOffStep(g, a, links[i]).graph, a, i + 1);
    }
  }

  lemma PeerWalkStepsOn(g: Graph, a: Addr, i: nat)
    requires a in g.clients && PeersLead(g.clients, a) && i < |g.clients[a].peers|
    ensures var b := g.clients[a].peers[i].who;
      && b in g.clients && b != a
      && var peers := g.clients[b].peers;
         var j := PeerIndex(peers, a);
         if j == |peers| then WalkPeers(g, a, i) == Walk(false, g)
         else
           var g1 := g.(clients := WithPeers(g.clients, b, Without(peers, j)));
           PeersLead(g1.clients, a) && WalkPeers(g, a, i) == WalkPeers(g1, a, i + 1)
  {
    hide Without, PeerIndex;
  }

  lemma PeerWalkIsOver(g: Graph, a: Addr)
    requires a in g.clients && PeersLead(g.clients, a)
    ensures WalkPeers(g, a, |g.clients[a].peers|) == Walk(true, g.(clients := WithPeers(g.clients, a, [])))
  {
  }

  lemma {:induction false} WalkClears(g: Graph, a: Addr, i: nat)
    requires a in g.clients && PeersLead(g.clients, a) && i <= |g.clients[a].peers| && g.clients[a].links == []
    requires Inv(g.(clients := WithPeers(g.clients, a, g.clients[a].peers[i..])))
    ensures WalkPeers(g, a, i)
         == Walk(true, g.(clients := ClearPeers(WithPeers(g.clients, a, g.clients[a].peers[i..]), a)))
    decreases |g.clients[a].peers| - i
  {
    hide Inv;
    var cs, peers := g.clients, g.clients[a].peers;
    if i == |peers| {
    } else {
      var b := peers[i].who;
      assert peers[i..] == [peers[i]] + peers[i + 1..];
      StepOfClear(g.(clients := WithPeers(cs, a, peers[i..])), a, peers[i], peers[i + 1..]);
      PeersSetTwice(cs, a, b, peers[i..], peers[i + 1..]);
      hide ClearPeers, DropPeers, Without, PeerIndex;
      WalkClears(g.(clients := WithPeers(cs, b, Without(cs[b].peers, PeerIndex(cs[b].peers, a)))), a, i + 1);
    }
  }

  /** On a consistent graph neither walk ends early. */
  lemma WalksSucceed(g: Graph, a: Addr)
    requires Inv(g) && a in g.clients
    ensures LinksLead(g.clients, a) && WalkLinks(g, a, 0) == Walk(true, TurnOffLinks(g, a))
    ensures var g1 := TurnOffLinks(g, a);
      && Inv(g1) && PeersLead(g1.clients, a)
      && WalkPeers(g1, a, 0) == Walk(true, g1.(clients := ClearPeers(g1.clients, a)))
  {
    hide Inv, TurnOffLinks, ClearPeers, WalkLinks, WalkPeers;
    ListsLead(g, a);
    assert WithLinks(g, a, g.clients[a].links[0..]) == g;
    WalkTurnsOff(g, a, 0);
    TurnOffKeepsInv(g, a);
    var g1 := TurnOffLinks(g, a);
    ListsLead(g1, a);
    assert WithPeers(g1.clients, a, g1.clients[a].peers[0..]) == g1.clients;
    WalkClears(g1, a, 0);
  }

  /** So the events are what they are said to be. */
  lemma WalksMakeTheEvents(g: Graph, a: Addr)
    requires Inv(g)
    ensures Leads(g.clients, a)
    ensures WalkInactive(g, a) == ClientInactive(g, a) && WalkDisconnect(g, a) == ClientDisconnect(g, a)
    ensures forall mac, iface, answers | a in g.clients ==> |g.clients[a].peers| <= |answers| ::
      WalkActive(g, a, mac, iface, answers) == ClientActive(g, a, mac, iface, answers)
  {
    if a in g.clients {
      WalksSucceed(g, a);
      ListsLead(g, a);
    }
    hide Inv, LinksLead, PeersLead, WalkLinks, WalkPeers, TurnOffLinks, ClearPeers, LinkPeers;
  }
}
