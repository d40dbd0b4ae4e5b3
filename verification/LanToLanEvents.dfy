/** Every event keeps the offload graph consistent, and what else each event does. */
module LanToLanEvents {
  import opened Options
  import opened LanToLanGraph
  import opened LanToLanInvariant

  // ---- Linking a pair ----

  /** The hardware hands out fresh handles for the one direction and then for the other. */
  ghost predicate FreshAnswers(g: Graph, a: Addr, b: Addr, answers: (Answer, Answer))
    requires a in g.clients && b in g.clients
  {
    && answers.0.Fresh(g.rules)
    && answers.1.Fresh(AddOffloadLink(g, a, b, answers.0).graph.rules)
  }

  ghost predicate MayBeLinked(g: Graph, a: Addr, b: Addr) {
    && a in g.clients && b in g.clients && a != b
    && Connected(g.clients, a, b) > 0 && g.clients[a].active && g.clients[b].active
    && Linked(g.clients, a, b).None?
  }

  /** Both directions, one after the other, and nothing else. */
  lemma BothDirections(g: Graph, a: Addr, b: Addr, answers: (Answer, Answer))
    requires Inv(g) && MayBeLinked(g, a, b) && FreshAnswers(g, a, b, answers)
    requires g.numOffloadPair < MAX_OFFLOAD_PAIR && answers.0.Success() && answers.1.Success()
    ensures var r1 := AddOffloadLink(g, a, b, answers.0);
      var r2 := AddOffloadLink(r1.graph, b, a, answers.1);
      && r1.success && r2.success
      && Inv(r2.graph.(numOffloadPair := g.numOffloadPair + 1))
      && r2.graph.numOffloadPair == g.numOffloadPair
      && LinksBecome(g.clients, r2.graph.clients, a, b, true)
  {
    hide RulesOk, ListsOk, AddOffloadLink, LinkTo, PeersOk;
    var r1 := AddOffloadLink(g, a, b, answers.0);
    assert Linked(g.clients, b, a).None?;
    AddOffloadLinkKeepsRules(g, a, b, answers.0);
    AddOffloadLinkKeepsRules(r1.graph, b, a, answers.1);
    var g2 := AddOffloadLink(r1.graph, b, a, answers.1).graph;
    assert LinksBecome(g.clients, g2.clients, a, b, true);
    LinksStayOk(g.clients, g2.clients, a, b, true);
    PairsAfterChange(g.clients, g2.clients, a, b, true);
  }

  lemma OneDirectionBreaksInv(g: Graph, a: Addr, b: Addr, answer: Answer)
    requires Inv(g) && MayBeLinked(g, a, b) && answer.Fresh(g.rules)
    requires AddOffloadLink(g, a, b, answer).success
    ensures forall n :: !Inv(AddOffloadLink(g, a, b, answer).graph.(numOffloadPair := n))
  {
    hide RulesOk, ListsOk, AddOffloadLink, LinkTo;
    AddOffloadLinkKeepsRules(g, a, b, answer);
    var g' := AddOffloadLink(g, a, b, answer).graph;
    assert Linked(g'.clients, a, b).Some? && Linked(g'.clients, b, a).None?;
  }

  /** A first connection of two active clients keeps the graph consistent if and only if the
    * second direction does not fail after the first succeeded.
    */
  lemma LinkBothWaysKeepsInv(g: Graph, a: Addr, b: Addr, answers: (Answer, Answer))
    requires Inv(g) && MayBeLinked(g, a, b) && FreshAnswers(g, a, b, answers)
    ensures Inv(LinkBothWays(g, a, b, answers))
      <==> (g.numOffloadPair < MAX_OFFLOAD_PAIR && answers.0.Success() ==> answers.1.Success())
  {
    AddOffloadLinkKeepsRules(g, a, b, answers.0);
    var r1 := AddOffloadLink(g, a, b, answers.0);
    hide Inv, AddOffloadLink;
    if r1.success {
      if answers.1.Success() {
        BothDirections(g, a, b, answers);
      } else {
        OneDirectionBreaksInv(g, a, b, answers.0);
        assert r1.graph == r1.graph.(numOffloadPair := r1.graph.numOffloadPair);
        SecondFails(g, a, b, answers);
      }
    }
  }

  lemma SecondFails(g: Graph, a: Addr, b: Addr, answers: (Answer, Answer))
    requires a in g.clients && b in g.clients && AddOffloadLink(g, a, b, answers.0).success && !answers.1.Success()
    ensures LinkBothWays(g, a, b, answers) == AddOffloadLink(g, a, b, answers.0).graph
  {
  }

  /** When the peers of a client that came back are linked, the pair is counted by its second
    * direction alone. So consistency needs both directions to succeed or both to fail.
    */
  lemma LinkPeerKeepsInv(g: Graph, a: Addr, i: nat, answers: (Answer, Answer))
    requires Inv(g) && a in g.clients && g.clients[a].active && i < |g.clients[a].peers|
    requires var b := g.clients[a].peers[i].who;
      b in g.clients && a != b && Linked(g.clients, a, b).None? && FreshAnswers(g, a, b, answers)
    ensures Inv(LinkPeer(g, a, i, answers))
      <==> (g.numOffloadPair < MAX_OFFLOAD_PAIR && g.clients[g.clients[a].peers[i].who].active
            ==> (answers.0.Success() <==> answers.1.Success()))
  {
    var b := g.clients[a].peers[i].who;
    PeerIsConnected(g.clients, a, i);
    if g.clients[b].active {
      assert Connected(g.clients, a, b) == Connected(g.clients, b, a) && Linked(g.clients, b, a).None?;
      AddOffloadLinkKeepsRules(g, a, b, answers.0);
      AddOffloadLinkKeepsRules(g, b, a, answers.1);
      hide Inv, RulesOk, ListsOk, PeersOk, LinksOk, AddOffloadLink;
      if g.numOffloadPair < MAX_OFFLOAD_PAIR {
        if answers.0.Success() && answers.1.Success() {
          BothDirections(g, a, b, answers);
        } else if answers.0.Success() {
          OneDirectionBreaksInv(g, a, b, answers.0);
          var g1 := AddOffloadLink(g, a, b, answers.0).graph;
          FailureChangesNothing(g1, b, a, answers.1);
          assert g1 == g1.(numOffloadPair := g1.numOffloadPair);
        } else {
          FailureChangesNothing(g, a, b, answers.0);
          FailureChangesNothing(g, b, a, answers.1);
          if answers.1.Success() {
            OneDirectionBreaksInv(g, b, a, answers.1);
          }
        }
      } else {
        FailureChangesNothing(g, a, b, answers.0);
        FailureChangesNothing(g, b, a, answers.1);
      }
    }
  }

  lemma FailureChangesNothing(g: Graph, a: Addr, b: Addr, answer: Answer)
    requires a in g.clients && b in g.clients
    ensures var r := AddOffloadLink(g, a, b, answer);
      && (r.success <==> g.numOffloadPair < MAX_OFFLOAD_PAIR && answer.Success())
      && (!r.success ==> r.graph == g)
  {
  }

  lemma PeerIsConnected(cs: Clients, a: Addr, i: nat)
    requires ListsOk(cs) && PeersOk(cs) && a in cs && i < |cs[a].peers|
    ensures var p := cs[a].peers[i];
      Connected(cs, a, p.who) == p.numConnection > 0 && p.who in cs && p.who != a
  {
    EntryIsFound(cs[a].peers, i);
    hide Connections;
    assert Connected(cs, a, cs[a].peers[i].who) > 0;
  }

  // ---- Connections ----

  lemma NewConnectionKeepsInv(g: Graph, src: Addr, dst: Addr, answers: (Answer, Answer))
    requires Inv(g) && src != dst && NewAnswersOk(g, src, dst, answers)
    ensures Inv(NewConnection(g, src, dst, answers))
  {
    hide RulesOk, LinkBothWays, AddConnection, FreshAnswers, ListsOk, Connections, LinkTo;
    if src in g.clients && dst in g.clients {
      var cs := AddConnection(g.clients, src, dst);
      AddConnectionCounts(g.clients, src, dst);
      ConnectionsKeepInv(g, cs, src, dst, Connected(g.clients, src, dst) + 1);
      if Connected(g.clients, src, dst) == 0 && cs[src].active && cs[dst].active {
        LinkBothWaysKeepsInv(g.(clients := cs), src, dst, answers);
      }
    }
  }

  ghost predicate NewAnswersFresh(g: Graph, src: Addr, dst: Addr, answers: (Answer, Answer)) {
    src in g.clients && dst in g.clients ==>
      FreshAnswers(g.(clients := AddConnection(g.clients, src, dst)), src, dst, answers)
  }

  /** Rule handles are fresh, and the second direction does not fail alone. */
  ghost predicate NewAnswersOk(g: Graph, src: Addr, dst: Addr, answers: (Answer, Answer)) {
    && NewAnswersFresh(g, src, dst, answers)
    && (src in g.clients && dst in g.clients ==> answers.0.Success() ==> answers.1.Success())
  }

  lemma EraseUnusedKeepsInv(g: Graph, a: Addr)
    requires Inv(g)
    ensures Inv(g.(clients := EraseIfUnused(g.clients, a)))
    ensures forall x, y :: Linked(EraseIfUnused(g.clients, a), x, y) == Linked(g.clients, x, y)
    ensures forall x, y :: Connected(EraseIfUnused(g.clients, a), x, y) == Connected(g.clients, x, y)
  {
    hide RulesOk, Connections, LinkTo;
    var cs, cs' := g.clients, EraseIfUnused(g.clients, a);
    UnusedHasNothing(cs, a);
    assert forall x, y :: Linked(cs', x, y) == Linked(cs, x, y);
    assert forall x, y :: Connected(cs', x, y) == Connected(cs, x, y);
    hide Linked, Connected;
    SameConnections(cs, cs', a);
    SamePairs(cs, cs', a);
    RulesStayOk(cs, cs', g.rules);
    hide PeersOk, LinkedPairs;
  }

  lemma UnusedHasNothing(cs: Clients, a: Addr)
    requires LinksOk(cs)
    ensures a in cs && !cs[a].active && cs[a].peers == [] ==>
      forall y :: Linked(cs, a, y).None? && Connected(cs, a, y) == 0
  {
  }

  lemma SameConnections(cs: Clients, cs': Clients, a: Addr)
    requires PeersOk(cs) && (cs' == cs || cs' == cs - {a}) && forall x, y :: Connected(cs', x, y) == Connected(cs, x, y)
    ensures PeersOk(cs')
  {
    hide Connections;
    forall x, y | Connected(cs', x, y) > 0
      ensures y in cs'
    {
      assert Connected(cs, y, x) > 0;
      assert Connected(cs', y, x) > 0;
    }
  }

  lemma SamePairs(cs: Clients, cs': Clients, a: Addr)
    requires LinksOk(cs) && (cs' == cs || cs' == cs - {a}) && forall x, y :: Linked(cs', x, y) == Linked(cs, x, y)
    ensures LinkedPairs(cs') == LinkedPairs(cs)
  {
    hide LinkTo;
    forall x, y | Linked(cs, x, y).Some?
      ensures x in cs' && y in cs'
    {
      assert Linked(cs', x, y).Some? && Linked(cs, y, x).Some? && Linked(cs', y, x).Some?;
    }
    hide Linked;
  }

  lemma DelConnectionKeepsInv(g: Graph, src: Addr, dst: Addr)
    requires Inv(g) && src != dst
    ensures Inv(DelConnection(g, src, dst))
  {
    hide RulesOk, ListsOk, Connections, LinkTo, RemoveConnection, EraseOffloadLink, EraseIfUnused;
    if src in g.clients && dst in g.clients {
      var n := Connected(g.clients, src, dst);
      var cs := RemoveConnection(g.clients, src, dst);
      RemoveConnectionCounts(g.clients, src, dst);
      if n != 1 {
        assert Linked(g.clients, src, dst).Some? ==> n > 0;
        ConnectionsKeepInv(g, cs, src, dst, if n == 0 then 0 else n - 1);
      } else {
        LastConnectionKeepsInv(g, src, dst);
      }
    }
  }

  /** Erasing the links before the peers, or after them as the code does, comes to the same. */
  lemma LinksThenPeers(g: Graph, cs: Clients, a: Addr, b: Addr)
    requires a in g.clients && b in g.clients && SameButPeers(g.clients, cs)
    ensures var g1 := EraseOffloadLink(g, a, b);
      var g2 := EraseOffloadLink(g.(clients := cs), a, b);
      && g2 == g1.(clients := g2.clients)
      && SameButPeers(g1.clients, g2.clients)
      && forall x | x in cs :: g2.clients[x].peers == cs[x].peers
  {
    hide DropLink, LinkTo;
    DropLinkThenPeers(g, cs, a, b);
    var g1, g2 := DropLink(g, a, b), DropLink(g.(clients := cs), a, b);
    DropLinkThenPeers(g1, g2.clients, b, a);
  }

  lemma DropLinkThenPeers(g: Graph, cs: Clients, a: Addr, b: Addr)
    requires a in g.clients && SameButPeers(g.clients, cs)
    ensures var g1, g2 := DropLink(g, a, b), DropLink(g.(clients := cs), a, b);
      && g2 == g1.(clients := g2.clients)
      && SameButPeers(g1.clients, g2.clients)
      && forall x | x in cs :: g2.clients[x].peers == cs[x].peers
  {
    hide Without, DeleteRules, MissingRules, LinkIndex;
  }

  lemma PeersReplaced(cs: Clients, cs1: Clients, cs2: Clients, peers: Clients, a: Addr, b: Addr)
    requires SameButLinks(cs, cs1) && SameButPeers(cs1, cs2) && peers.Keys == cs.Keys
    requires forall x | x in peers :: cs2[x].peers == peers[x].peers
    requires ConnectionsBecome(cs, peers, a, b, 0) && ListsOk(cs1) && ListsOk(peers)
    ensures ListsOk(cs2) && ConnectionsBecome(cs1, cs2, a, b, 0)
  {
    hide Connections, PeerListOk, LinkListOk;
    forall x, y
      ensures Connected(cs2, x, y) == Connected(peers, x, y) && Connected(cs1, x, y) == Connected(cs, x, y)
    {
    }
    hide Connected;
  }

  /** The graph after a last connection, before unused entries are erased. */
  ghost function Disconnected(g: Graph, src: Addr, dst: Addr): Graph
    requires src in g.clients && dst in g.clients
  {
    var g1 := g.(clients := RemoveConnection(g.clients, src, dst));
    if g.clients[src].active && g.clients[dst].active then EraseOffloadLink(g1, src, dst) else g1
  }

  lemma DisconnectedUnlinks(g: Graph, src: Addr, dst: Addr)
    requires Inv(g) && src in g.clients && dst in g.clients && src != dst && Connected(g.clients, src, dst) == 1
    ensures var g2 := Disconnected(g, src, dst);
      && Inv(g2) && ConnectionsBecome(g.clients, g2.clients, src, dst, 0)
      && Linked(g2.clients, src, dst).None?
      && (forall x, y | !IsEdge(x, y, src, dst) :: Linked(g2.clients, x, y) == Linked(g.clients, x, y))
      && g2.numOffloadPair == g.numOffloadPair - (if Linked(g.clients, src, dst).Some? then 1 else 0)
      && g2.clients.Keys == g.clients.Keys && SameEntries(g.clients, g2.clients, g.clients.Keys)
      && forall x | x in g.clients :: g2.clients[x].peers == RemoveConnection(g.clients, src, dst)[x].peers
  {
    hide RulesOk, ListsOk, Connections, LinkTo, RemoveConnection, EraseOffloadLink, LinkedPairs;
    var cs := RemoveConnection(g.clients, src, dst);
    RemoveConnectionCounts(g.clients, src, dst);
    var g2 := Disconnected(g, src, dst);
    if g.clients[src].active && g.clients[dst].active {
      var g1 := EraseOffloadLink(g, src, dst);
      EraseKeepsInv(g, src, dst);
      LinksThenPeers(g, cs, src, dst);
      PeersReplaced(g.clients, g1.clients, g2.clients, cs, src, dst);
      ConnectionsKeepInv(g1, g2.clients, src, dst, 0);
      SameConnected(g.clients, g1.clients);
    } else {
      LinksAreMutual(g.clients, src, dst);
      ConnectionsKeepInv(g, cs, src, dst, 0);
    }
  }

  lemma LastConnectionKeepsInv(g: Graph, src: Addr, dst: Addr)
    requires Inv(g) && src in g.clients && dst in g.clients && src != dst && Connected(g.clients, src, dst) == 1
    ensures Inv(DelConnection(g, src, dst))
  {
    hide Inv, Connected, Linked, RemoveConnection, EraseOffloadLink, EraseIfUnused;
    var g2 := Disconnected(g, src, dst);
    DisconnectedUnlinks(g, src, dst);
    LastConnectionGoes(g, src, dst);
    EraseUnusedKeepsInv(g2, src);
    EraseUnusedKeepsInv(g2.(clients := EraseIfUnused(g2.clients, src)), dst);
  }

  lemma LastConnectionGoes(g: Graph, src: Addr, dst: Addr)
    requires Inv(g) && src in g.clients && dst in g.clients && src != dst && Connected(g.clients, src, dst) == 1
    ensures DelConnection(g, src, dst)
         == Disconnected(g, src, dst).(
              clients := EraseIfUnused(EraseIfUnused(Disconnected(g, src, dst).clients, src), dst))
  {
    RemoveConnectionCounts(g.clients, src, dst);
    hide Inv, Connected, RemoveConnection, EraseOffloadLink, EraseIfUnused;
  }

  // ---- Clients that come and go ----

  lemma EraseShortens(g: Graph, a: Addr, b: Addr)
    requires a in g.clients && b in g.clients && a != b
    ensures |EraseOffloadLink(g, a, b).clients[a].links|
         == |g.clients[a].links| - (if Linked(g.clients, a, b).Some? then 1 else 0)
  {
  }

  lemma FirstLinkLeadsOn(cs: Clients, a: Addr)
    requires ListsOk(cs) && PeersOk(cs) && LinksOk(cs) && a in cs && cs[a].links != []
    ensures var b := cs[a].links[0].who;
      b in cs && b != a && Linked(cs, a, b).Some?
  {
    LinkIsFound(cs[a].links, 0);
    hide LinkTo, Connections;
    assert Linked(cs, a, cs[a].links[0].who).Some?;
  }

  /** Turning a client's links off takes away its links and no others. */
  lemma {:induction false} TurnOffKeepsInv(g: Graph, a: Addr)
    requires Inv(g) && a in g.clients
    ensures var g' := TurnOffLinks(g, a);
      && Inv(g') && SameButLinks(g.clients, g'.clients) && g'.clients[a].links == []
      && (forall x, y :: Linked(g'.clients, x, y) == if x == a || y == a then None else Linked(g.clients, x, y))
      && g'.numOffloadPair == g.numOffloadPair - |g.clients[a].links|
    decreases |g.clients[a].links|
  {
    hide RulesOk, ListsOk, PeersOk, LinkedPairs, EraseOffloadLink;
    var links := g.clients[a].links;
    if links == [] {
      assert forall y :: Linked(g.clients, a, y).None?;
      hide LinkTo;
      assert forall x, y | Linked(g.clients, x, y).Some? :: Linked(g.clients, y, x).Some?;
    } else {
      hide LinkTo;
      var b := links[0].who;
      FirstLinkLeadsOn(g.clients, a);
      EraseKeepsInv(g, a, b);
      EraseShortens(g, a, b);
      TurnOffKeepsInv(EraseOffloadLink(g, a, b), a);
    }
  }

  /** Clearing a peer list takes the client off all others' lists as well, and no one else. */
  lemma {:induction false} ClearKeepsInv(g: Graph, a: Addr)
    requires Inv(g) && a in g.clients && g.clients[a].links == []
    ensures var cs' := ClearPeers(g.clients, a);
      && Inv(g.(clients := cs')) && SameButPeers(g.clients, cs') && cs'[a].peers == []
      && (forall x, y :: Connected(cs', x, y) == if x == a || y == a then 0 else Connected(g.clients, x, y))
      && (forall x, y :: Linked(cs', x, y) == Linked(g.clients, x, y))
    decreases |g.clients[a].peers|
  {
    hide RulesOk, ListsOk, LinkedPairs, DropPeers;
    var cs := g.clients;
    if cs[a].peers == [] {
      assert forall y :: Connected(cs, a, y) == 0;
      hide Connections, Connected;
      assert forall x, y :: Connected(cs, x, y) == Connected(cs, y, x);
    } else {
      var b := cs[a].peers[0].who;
      PeerIsConnected(cs, a, 0);
      assert Linked(cs, a, b).None?;
      hide Connections, LinkTo;
      DropPeersCounts(cs, a, b);
      ConnectionsKeepInv(g, DropPeers(cs, a, b), a, b, 0);
      DropShortens(cs, a, b);
      hide Linked, Connected, Inv;
      ClearKeepsInv(g.(clients := DropPeers(cs, a, b)), a);
    }
  }

  lemma DropShortens(cs: Clients, a: Addr, b: Addr)
    requires a in cs && b in cs && a != b && PeerIndex(cs[a].peers, b) < |cs[a].peers|
    ensures |DropPeers(cs, a, b)[a].peers| == |cs[a].peers| - 1
    ensures DropPeers(cs, a, b)[a].links == cs[a].links
  {
  }

  /** A client without links may change what rules would say about it. */
  lemma ChangeKeepsInv(g: Graph, a: Addr, mac: int, iface: int, active: bool)
    requires Inv(g) && a in g.clients && g.clients[a].links == []
    ensures var cs' := g.clients[a := g.clients[a].(mac := mac, iface := iface, active := active)];
      && Inv(g.(clients := cs'))
      && (forall x, y :: Linked(cs', x, y) == Linked(g.clients, x, y))
      && (forall x, y :: Connected(cs', x, y) == Connected(g.clients, x, y))
  {
    hide RulesOk, Connections, ListsOk;
    var cs, cs' := g.clients, g.clients[a := g.clients[a].(mac := mac, iface := iface, active := active)];
    assert forall y :: Linked(cs, a, y).None?;
    assert forall x, y :: Linked(cs', x, y) == Linked(cs, x, y);
    assert forall x, y :: Connected(cs', x, y) == Connected(cs, x, y);
    hide Linked, Connected, LinkTo;
    assert LinkedPairs(cs') == LinkedPairs(cs);
    hide LinkedPairs;
    assert forall x, y | Linked(cs, x, y).Some? :: x != a && y != a by {
      assert forall x, y | Linked(cs, x, y).Some? :: Linked(cs, y, x).Some?;
    }
    RulesStayOk(cs, cs', g.rules);
    ListsAreOk(cs, a);
    ListsStayOk(cs, a, cs'[a]);
  }

  lemma ListsAreOk(cs: Clients, a: Addr)
    requires ListsOk(cs) && a in cs
    ensures PeerListOk(cs[a].peers) && LinkListOk(cs[a].links)
  {
  }

  lemma NewClientKeepsInv(g: Graph, a: Addr, mac: int, iface: int)
    requires Inv(g) && a !in g.clients
    ensures Inv(g.(clients := g.clients[a := Client(mac, iface, true, [], [])]))
  {
    hide RulesOk, ListsOk;
    var cs, cs' := g.clients, g.clients[a := Client(mac, iface, true, [], [])];
    assert forall x, y :: Linked(cs', x, y) == Linked(cs, x, y);
    assert forall x, y :: Connected(cs', x, y) == Connected(cs, x, y);
    hide Linked, Connected, LinkTo, Connections;
    OnlyClientsAreLinked(cs);
    assert LinkedPairs(cs') == LinkedPairs(cs);
    hide LinkedPairs;
    RulesStayOk(cs, cs', g.rules);
    ListsStayOk(cs, a, cs'[a]);
  }

  lemma ListsStayOk(cs: Clients, a: Addr, client: Client)
    requires ListsOk(cs) && PeerListOk(client.peers) && LinkListOk(client.links)
    ensures ListsOk(cs[a := client])
  {
  }

  lemma OnlyClientsAreLinked(cs: Clients)
    requires LinksOk(cs)
    ensures forall x, y | Linked(cs, x, y).Some? :: x in cs && y in cs
  {
    hide LinkTo;
    forall x, y | Linked(cs, x, y).Some?
      ensures x in cs && y in cs
    {
      assert Linked(cs, y, x).Some?;
    }
  }

  lemma InactiveKeepsInv(g: Graph, a: Addr)
    requires Inv(g)
    ensures Inv(ClientInactive(g, a))
  {
    hide Inv, TurnOffLinks, EraseIfUnused;
    if a in g.clients {
      TurnOffKeepsInv(g, a);
      var g1 := TurnOffLinks(g, a);
      var client := g1.clients[a];
      ChangeKeepsInv(g1, a, client.mac, client.iface, false);
      EraseUnusedKeepsInv(g1.(clients := g1.clients[a := client.(active := false)]), a);
    }
  }

  /** A client that disconnects is forgotten: it has no entry, and is in no list and in no rule.
    * All other entries stay, and what they have with each other stays as it was.
    */
  lemma DisconnectForgetsClient(g: Graph, a: Addr)
    requires Inv(g)
    ensures var g' := ClientDisconnect(g, a);
      && Inv(g') && g'.clients.Keys == g.clients.Keys - {a}
      && SameEntries(g.clients, g'.clients, g'.clients.Keys)
      && (forall x, i | x in g'.clients && 0 <= i < |g'.clients[x].peers| :: g'.clients[x].peers[i].who != a)
      && (forall x, i | x in g'.clients && 0 <= i < |g'.clients[x].links| :: g'.clients[x].links[i].who != a)
      && (forall h | h in g'.rules :: g'.rules[h].from != a && g'.rules[h].to != a)
      && (forall x, y | x != a && y != a ::
            && Connected(g'.clients, x, y) == Connected(g.clients, x, y)
            && Linked(g'.clients, x, y) == Linked(g.clients, x, y))
  {
    var g' := ClientDisconnect(g, a);
    if a in g.clients {
      DisconnectKeepsInv(g, a);
    } else {
      assert forall x, y | x == a :: Connected(g.clients, x, y) == 0 && Linked(g.clients, x, y).None?;
    }
    NobodyPointsAt(g', a);
  }

  lemma DisconnectKeepsInv(g: Graph, a: Addr)
    requires Inv(g) && a in g.clients
    ensures var g' := ClientDisconnect(g, a);
      && Inv(g') && g'.clients.Keys == g.clients.Keys - {a}
      && SameEntries(g.clients, g'.clients, g'.clients.Keys)
      && (forall x, y | x != a && y != a ::
            && Connected(g'.clients, x, y) == Connected(g.clients, x, y)
            && Linked(g'.clients, x, y) == Linked(g.clients, x, y))
  {
    hide TurnOffLinks, ClearPeers, Linked, Connected, Inv;
    var g1 := TurnOffLinks(g, a);
    var cs := ClearPeers(g1.clients, a);
    assert TurnsOffOf(g, a, g1, cs) by {
      TurnOffKeepsInv(g, a);
      ClearKeepsInv(g1, a);
      SameConnected(g.clients, g1.clients);
    }
    var client := cs[a];
    ChangeKeepsInv(g1.(clients := cs), a, client.mac, client.iface, false);
    var g2 := g1.(clients := cs[a := client.(active := false)]);
    EraseUnusedKeepsInv(g2, a);
    assert g2.clients - {a} == cs - {a};
  }

  ghost predicate TurnsOffOf(g: Graph, a: Addr, g1: Graph, cs: Clients) {
    && a in cs && cs[a].links == [] && cs[a].peers == []
    && cs.Keys == g.clients.Keys && SameEntries(g.clients, cs, cs.Keys)
    && Inv(g1.(clients := cs))
    && (forall x, y :: Connected(cs, x, y) == if x == a || y == a then 0 else Connected(g.clients, x, y))
    && (forall x, y :: Linked(cs, x, y) == if x == a || y == a then None else Linked(g.clients, x, y))
  }

  lemma SameConnected(cs: Clients, cs': Clients)
    requires SameButLinks(cs, cs')
    ensures forall x, y :: Connected(cs', x, y) == Connected(cs, x, y)
  {
    hide Connections;
  }

  lemma NobodyPointsAt(g: Graph, a: Addr)
    requires Inv(g) && a !in g.clients
    ensures forall x, i | x in g.clients && 0 <= i < |g.clients[x].peers| :: g.clients[x].peers[i].who != a
    ensures forall x, i | x in g.clients && 0 <= i < |g.clients[x].links| :: g.clients[x].links[i].who != a
    ensures forall h | h in g.rules :: g.rules[h].from != a && g.rules[h].to != a
  {
    hide Connections, LinkTo;
    forall x, i | x in g.clients && 0 <= i < |g.clients[x].peers|
      ensures g.clients[x].peers[i].who != a
    {
      PeerIsConnected(g.clients, x, i);
    }
    forall x, i | x in g.clients && 0 <= i < |g.clients[x].links|
      ensures g.clients[x].links[i].who != a
    {
      LinkIsFound(g.clients[x].links, i);
      assert Linked(g.clients, x, g.clients[x].links[i].who).Some?;
    }
    OnlyClientsAreLinked(g.clients);
  }

  /** Fresh handles for each peer that is linked in turn. */
  ghost predicate PeerAnswersFresh(g: Graph, a: Addr, i: nat, answers: seq<(Answer, Answer)>)
    requires a in g.clients && i <= |g.clients[a].peers| <= |answers|
    decreases |g.clients[a].peers| - i
  {
    i < |g.clients[a].peers| ==>
      && (g.clients[a].peers[i].who in g.clients ==> FreshAnswers(g, a, g.clients[a].peers[i].who, answers[i]))
      && PeerAnswersFresh(LinkPeer(g, a, i, answers[i]), a, i + 1, answers)
  }

  /** And for each of them, both directions succeed or both fail. */
  ghost predicate PeerAnswersOk(g: Graph, a: Addr, i: nat, answers: seq<(Answer, Answer)>)
    requires a in g.clients && i <= |g.clients[a].peers| <= |answers|
  {
    && PeerAnswersFresh(g, a, i, answers)
    && forall j | i <= j < |g.clients[a].peers| :: answers[j].0.Success() <==> answers[j].1.Success()
  }

  /** Each direction of a peer's link is added exactly if the peer is active, there is room, and
    * the hardware takes the rules of that direction. The second direction alone is counted.
    */
  lemma LinkPeerLinksAsAnswered(g: Graph, a: Addr, i: nat, answers: (Answer, Answer))
    requires ListsOk(g.clients) && RulesOk(g.clients, g.rules) && a in g.clients && i < |g.clients[a].peers|
    requires var Peer(b, n) := g.clients[a].peers[i];
      && b in g.clients && a != b && n > 0 && Linked(g.clients, a, b).None? && Linked(g.clients, b, a).None?
      && FreshAnswers(g, a, b, answers)
    ensures var g', b := LinkPeer(g, a, i, answers), g.clients[a].peers[i].who;
      var room := g.clients[b].active && g.numOffloadPair < MAX_OFFLOAD_PAIR;
      && ListsOk(g'.clients) && RulesOk(g'.clients, g'.rules) && SameButLinks(g.clients, g'.clients)
      && (Linked(g'.clients, a, b).Some? <==> room && answers.0.Success())
      && (Linked(g'.clients, b, a).Some? <==> room && answers.1.Success())
      && (forall x, y | !IsEdge(x, y, a, b) :: Linked(g'.clients, x, y) == Linked(g.clients, x, y))
      && g'.numOffloadPair == g.numOffloadPair + (if room && answers.1.Success() then 1 else 0)
  {
    hide RulesOk, ListsOk, AddOffloadLink, Linked, Answer.Fresh, Answer.Success;
    var b := g.clients[a].peers[i].who;
    var r1 := AddOffloadLink(g, a, b, answers.0);
    AddOffloadLinkKeepsRules(g, a, b, answers.0);
    assert Linked(r1.graph.clients, b, a).None?;
    AddOffloadLinkKeepsRules(r1.graph, b, a, answers.1);
  }

  lemma LinksAreMutual(cs: Clients, a: Addr, b: Addr)
    requires LinksOk(cs)
    ensures Linked(cs, a, b).Some? <==> Linked(cs, b, a).Some?
  {
    hide LinkTo;
  }

  lemma {:induction false} LinkPeersKeepsInv(g: Graph, a: Addr, i: nat, answers: seq<(Answer, Answer)>)
    requires Inv(g) && a in g.clients && g.clients[a].active && i <= |g.clients[a].peers| <= |answers|
    requires forall j | i <= j < |g.clients[a].peers| :: Linked(g.clients, a, g.clients[a].peers[j].who).None?
    requires PeerAnswersOk(g, a, i, answers)
    ensures Inv(LinkPeers(g, a, i, answers))
    decreases |g.clients[a].peers| - i
  {
    hide RulesOk, LinkPeer, FreshAnswers, Connections, LinkTo;
    if i == |g.clients[a].peers| {
    } else {
      var peers := g.clients[a].peers;
      PeerIsConnected(g.clients, a, i);
      LinksAreMutual(g.clients, a, peers[i].who);
      LinkPeerKeepsInv(g, a, i, answers[i]);
      LinkPeerLinksAsAnswered(g, a, i, answers[i]);
      assert PeerListOk(peers);
      hide Inv, ListsOk, Linked;
      LinkPeersKeepsInv(LinkPeer(g, a, i, answers[i]), a, i + 1, answers);
    }
  }

  ghost predicate ActiveAnswersFresh(g: Graph, a: Addr, mac: int, iface: int, answers: seq<(Answer, Answer)>) {
    a in g.clients ==>
      && |g.clients[a].peers| <= |answers|
      && (!g.clients[a].active ==>
            var client := g.clients[a].(mac := mac, iface := iface, active := true);
            PeerAnswersFresh(g.(clients := g.clients[a := client]), a, 0, answers))
  }

  /** What the hardware answers when a client becomes active that has peers already. */
  ghost predicate ActiveAnswersOk(g: Graph, a: Addr, mac: int, iface: int, answers: seq<(Answer, Answer)>) {
    a in g.clients ==>
      && |g.clients[a].peers| <= |answers|
      && (!g.clients[a].active ==>
            var client := g.clients[a].(mac := mac, iface := iface, active := true);
            PeerAnswersOk(g.(clients := g.clients[a := client]), a, 0, answers))
  }

  lemma ActiveKeepsInv(g: Graph, a: Addr, mac: int, iface: int, answers: seq<(Answer, Answer)>)
    requires Inv(g) && ActiveAnswersOk(g, a, mac, iface, answers)
    ensures Inv(ClientActive(g, a, mac, iface, answers))
  {
    hide Inv, TurnOffLinks, ClearPeers, LinkPeers, PeerAnswersOk;
    if a !in g.clients {
      NewClientKeepsInv(g, a, mac, iface);
    } else if g.clients[a].active {
      if g.clients[a].mac != mac {
        TurnOffKeepsInv(g, a);
        var g1 := TurnOffLinks(g, a);
        ClearKeepsInv(g1, a);
        ChangeKeepsInv(g1.(clients := ClearPeers(g1.clients, a)), a, mac, iface, true);
      }
    } else {
      InactiveHasNoLinks(g, a);
      ChangeKeepsInv(g, a, mac, iface, true);
      var client := g.clients[a].(mac := mac, iface := iface, active := true);
      LinkPeersKeepsInv(g.(clients := g.clients[a := client]), a, 0, answers);
    }
  }

  lemma InactiveHasNoLinks(g: Graph, a: Addr)
    requires Inv(g) && a in g.clients && !g.clients[a].active
    ensures g.clients[a].links == [] && forall y :: Linked(g.clients, a, y).None?
  {
    if g.clients[a].links != [] {
      FirstLinkLeadsOn(g.clients, a);
    }
  }

  // ---- Undoing ----

  ghost predicate IsLeftOver(client: Client) {
    !client.active && client.peers == []
  }

  lemma CountDownUndoesUp(ps: seq<Peer>, b: Addr)
    requires PeerListOk(ps)
    ensures CountDown(CountUp(ps, b), b) == ps
  {
    hide Connections, PeerIndex;
    CountUpCounts(ps, b, b);
    var i, ps' := PeerIndex(ps, b), CountUp(ps, b);
    EntryIsFound(ps', if i < |ps| then i else |ps|);
  }

  lemma RemoveUndoesAdd(cs: Clients, a: Addr, b: Addr)
    requires ListsOk(cs) && a in cs && b in cs && a != b
    ensures RemoveConnection(AddConnection(cs, a, b), a, b) == cs
  {
    hide CountUp, CountDown, PeerListOk, LinkListOk;
    CountDownUndoesUp(cs[a].peers, b);
    CountDownUndoesUp(cs[b].peers, a);
  }

  /** Appending a link and erasing it. */
  lemma AppendedIsErased(ls: seq<Link>, l: Link)
    requires LinkListOk(ls) && LinkTo(ls, l.who).None?
    ensures LinkIndex(ls + [l], l.who) == |ls| && LinkTo(ls + [l], l.who) == Some(l)
    ensures Without(ls + [l], |ls|) == ls
  {
    AppendedLink(ls, l, l.who);
    LinkIsFound(ls + [l], |ls|);
  }

  lemma KeysComeAndGo<K, V>(m: map<K, V>, m1: map<K, V>, m2: map<K, V>, s1: set<K>, s2: set<K>)
    requires m1.Keys == m.Keys + s1 && m.Keys !! s1 && forall k | k in m :: m1[k] == m[k]
    requires m2.Keys == m1.Keys + s2 && m1.Keys !! s2 && forall k | k in m1 :: m2[k] == m1[k]
    ensures s1 <= m2.Keys && s2 <= (m2 - s1).Keys && (m2 - s1) - s2 == m
  {
  }

  lemma AddedRules(g: Graph, a: Addr, b: Addr, answer: Answer)
    requires a in g.clients && b in g.clients && answer.Fresh(g.rules) && AddOffloadLink(g, a, b, answer).success
    ensures var l := Link(b, answer.filter.value, answer.route.value, answer.header.value);
      var g' := AddOffloadLink(g, a, b, answer).graph;
      && g' == g.(clients := g.clients[a := g.clients[a].(links := g.clients[a].links + [l])], rules := g'.rules)
      && g'.rules.Keys == g.rules.Keys + l.Handles() && g.rules.Keys !! l.Handles()
      && forall h | h in g.rules :: g'.rules[h] == g.rules[h]
  {
  }

  lemma NothingMissing(rules: Rules, l: Link)
    requires l.Handles() <= rules.Keys
    ensures MissingRules(rules, l) == 0
  {
    assert l.Handle(Filter) in l.Handles() && l.Handle(Route) in l.Handles() && l.Handle(Header) in l.Handles();
  }

  lemma DropAppended(g: Graph, a: Addr, l: Link, before: seq<Link>)
    requires a in g.clients && LinkListOk(before) && LinkTo(before, l.who).None?
    requires g.clients[a].links == before + [l] && l.Handles() <= g.rules.Keys
    ensures LinkTo(g.clients[a].links, l.who).Some?
    ensures DropLink(g, a, l.who)
         == g.(clients := g.clients[a := g.clients[a].(links := before)], rules := g.rules - l.Handles())
  {
    AppendedIsErased(before, l);
    NothingMissing(g.rules, l);
  }

  lemma EraseUndoesLinks(g: Graph, a: Addr, b: Addr, answers: (Answer, Answer))
    requires Inv(g) && MayBeLinked(g, a, b) && FreshAnswers(g, a, b, answers)
    requires answers.0.Success() ==> answers.1.Success()
    ensures EraseOffloadLink(LinkBothWays(g, a, b, answers), a, b) == g
  {
    hide RulesOk, PeersOk, LinkedPairs, PeerListOk, Link.Handles;
    LinksAreMutual(g.clients, a, b);
    LinkToSays(g.clients[a].links, b);
    LinkToSays(g.clients[b].links, a);
    if g.numOffloadPair < MAX_OFFLOAD_PAIR && answers.0.Success() {
      BothErased(g, a, b, answers);
    }
  }

  lemma BothErased(g: Graph, a: Addr, b: Addr, answers: (Answer, Answer))
    requires ListsOk(g.clients) && a in g.clients && b in g.clients && a != b
    requires Linked(g.clients, a, b).None? && Linked(g.clients, b, a).None?
    requires FreshAnswers(g, a, b, answers)
    requires g.numOffloadPair < MAX_OFFLOAD_PAIR && answers.0.Success() && answers.1.Success()
    ensures EraseOffloadLink(LinkBothWays(g, a, b, answers), a, b) == g
  {
    var l1 := Link(b, answers.0.filter.value, answers.0.route.value, answers.0.header.value);
    var l2 := Link(a, answers.1.filter.value, answers.1.route.value, answers.1.header.value);
    var g1 := AddOffloadLink(g, a, b, answers.0).graph;
    var g2 := AddOffloadLink(g1, b, a, answers.1).graph;
    AddedRules(g, a, b, answers.0);
    AddedRules(g1, b, a, answers.1);
    var g3 := LinkBothWays(g, a, b, answers);
    assert g3 == g2.(numOffloadPair := g.numOffloadPair + 1);
    hide LinkBothWays, AddOffloadLink, LinkTo, DropLink, Link.Handles, Answer.Fresh, LinkListOk, PeerListOk;
    KeysComeAndGo(g.rules, g1.rules, g2.rules, l1.Handles(), l2.Handles());
    BothDropped(g, g3, a, b, l1, l2);
  }

  lemma BothDropped(g: Graph, g3: Graph, a: Addr, b: Addr, l1: Link, l2: Link)
    requires a in g.clients && b in g.clients && a != b && l1.who == b && l2.who == a
    requires LinkListOk(g.clients[a].links) && LinkTo(g.clients[a].links, b).None?
    requires LinkListOk(g.clients[b].links) && LinkTo(g.clients[b].links, a).None?
    requires g3.clients == g.clients[a := g.clients[a].(links := g.clients[a].links + [l1])]
                                    [b := g.clients[b].(links := g.clients[b].links + [l2])]
    requires l1.Handles() <= g3.rules.Keys && l2.Handles() <= (g3.rules - l1.Handles()).Keys
    ensures var g4 := DropLink(g3, a, b);
      && LinkTo(g3.clients[a].links, b).Some? && LinkTo(g4.clients[b].links, a).Some?
      && DropLink(g4, b, a) == g3.(clients := g.clients, rules := g3.rules - l1.Handles() - l2.Handles())
  {
    hide LinkTo, DropLink, Link.Handles, LinkListOk;
    DropAppended(g3, a, l1, g.clients[a].links);
    var g4 := DropLink(g3, a, b);
    DropAppended(g4, b, l2, g.clients[b].links);
    assert DropLink(g4, b, a).clients == g.clients;
  }

  /** Deleting a connection right after it was made puts the graph back as it was, if and only
    * if neither end is an inactive client without any connection. `DelConnection` removes such
    * an end, while a client that disconnects leaves its inactive peers in the table.
    */
  lemma DelUndoesNew(g: Graph, src: Addr, dst: Addr, answers: (Answer, Answer))
    requires Inv(g) && src != dst && src in g.clients && dst in g.clients && NewAnswersOk(g, src, dst, answers)
    ensures DelConnection(NewConnection(g, src, dst, answers), src, dst) == g
      <==> !IsLeftOver(g.clients[src]) && !IsLeftOver(g.clients[dst])
  {
    hide Connections, LinkTo, AddConnection, RemoveConnection, RulesOk, LinkBothWays, EraseOffloadLink;
    var cs := AddConnection(g.clients, src, dst);
    AddConnectionCounts(g.clients, src, dst);
    RemoveUndoesAdd(g.clients, src, dst);
    if Connected(g.clients, src, dst) > 0 {
      assert g.clients[src].peers != [] && g.clients[dst].peers != [];
    } else if g.clients[src].active && g.clients[dst].active {
      FirstIsUndone(g, src, dst, answers);
    }
  }

  lemma FirstIsUndone(g: Graph, src: Addr, dst: Addr, answers: (Answer, Answer))
    requires Inv(g) && src != dst && src in g.clients && dst in g.clients && NewAnswersOk(g, src, dst, answers)
    requires Connected(g.clients, src, dst) == 0 && g.clients[src].active && g.clients[dst].active
    ensures DelConnection(NewConnection(g, src, dst, answers), src, dst) == g
  {
    hide Connections, LinkTo, AddConnection, LinkBothWays, EraseOffloadLink, RulesOk, FreshAnswers, ListsOk, DelConnection;
    var cs := AddConnection(g.clients, src, dst);
    AddConnectionCounts(g.clients, src, dst);
    ConnectionsKeepInv(g, cs, src, dst, 1);
    var g1, g2 := g.(clients := cs), LinkBothWays(g.(clients := cs), src, dst, answers);
    assert Linked(cs, src, dst).None?;
    LinkBothWaysKeepsInv(g1, src, dst, answers);
    EraseUndoesLinks(g1, src, dst, answers);
    assert NewConnection(g, src, dst, answers) == g2;
    LinkOnlyLinks(g1, src, dst, answers);
    hide NewConnection, Linked;
    LastIsDeleted(g, g2, src, dst);
  }

  /** Deleting the only connection of an active pair, when erasing its links does as it should. */
  lemma LastIsDeleted(g: Graph, g2: Graph, src: Addr, dst: Addr)
    requires Inv(g) && Inv(g2) && src != dst && src in g.clients && dst in g.clients
    requires Connected(g.clients, src, dst) == 0 && g.clients[src].active && g.clients[dst].active
    requires var cs := AddConnection(g.clients, src, dst);
      && SameButPeers(g.clients, cs) && SameButLinks(cs, g2.clients) && Connected(cs, src, dst) == 1
      && EraseOffloadLink(g2, src, dst) == g.(clients := cs)
    ensures DelConnection(g2, src, dst) == g
  {
    hide Connections, LinkTo, AddConnection, RemoveConnection, EraseOffloadLink, RulesOk, ListsOk;
    var cs, cs2 := AddConnection(g.clients, src, dst), RemoveConnection(g2.clients, src, dst);
    SameConnected(cs, g2.clients);
    RemoveConnectionCounts(g2.clients, src, dst);
    hide Linked, Connected, Inv;
    RemoveUndoesAdd(g.clients, src, dst);
    RemoveLooksAtPeers(cs, g2.clients, src, dst);
    LinksThenPeers(g2, cs2, src, dst);
    var g5 := EraseOffloadLink(g2.(clients := cs2), src, dst);
    assert forall x | x in g.clients :: g5.clients[x] == g.clients[x];
    assert g5.clients == g.clients;
  }

  lemma LinkOnlyLinks(g: Graph, a: Addr, b: Addr, answers: (Answer, Answer))
    requires a in g.clients && b in g.clients
    ensures SameButLinks(g.clients, LinkBothWays(g, a, b, answers).clients)
  {
  }

  lemma RemoveLooksAtPeers(cs: Clients, cs': Clients, a: Addr, b: Addr)
    requires SameButLinks(cs, cs') && a in cs && b in cs
    ensures forall x | x in cs :: RemoveConnection(cs', a, b)[x].peers == RemoveConnection(cs, a, b)[x].peers
  {
    hide CountDown;
  }
}
