/** Entries of the client table that nothing needs: inactive clients without a connection. Most
  * events erase them; a client that goes away for good can leave some behind.
  */
module LanToLanLeftOvers {
  import opened Options
  import opened LanToLanGraph
  import opened LanToLanInvariant
  import opened LanToLanEvents
  import opened LanToLanEffects
  import opened LanToLanRuns

  ghost predicate NoLeftOvers(cs: Clients) {
    forall b | b in cs :: !IsLeftOver(cs[b])
  }

  /** Every inactive peer of `a` has another peer. */
  ghost predicate NobodyNeedsOnly(cs: Clients, a: Addr) {
    forall b | b in cs && Connected(cs, a, b) > 0 && !cs[b].active :: |cs[b].peers| > 1
  }

  lemma NoPeersNoConnections(cs: Clients, b: Addr)
    requires ListsOk(cs) && b in cs
    ensures cs[b].peers == [] <==> forall y :: Connected(cs, b, y) == 0
  {
    if cs[b].peers != [] {
      EntryIsFound(cs[b].peers, 0);
      assert Connected(cs, b, cs[b].peers[0].who) > 0;
    }
  }

  lemma OtherPeers(cs: Clients, b: Addr, a: Addr)
    requires ListsOk(cs) && b in cs && Connected(cs, b, a) > 0
    ensures |cs[b].peers| > 1 <==> exists y :: y != a && Connected(cs, b, y) > 0
  {
    var ps := cs[b].peers;
    var i := PeerIndex(ps, a);
    if |ps| > 1 {
      var j := if i == 0 then 1 else 0;
      EntryIsFound(ps, j);
      assert ps[j].who != a && Connected(cs, b, ps[j].who) > 0;
    }
    if y :| y != a && Connected(cs, b, y) > 0 {
      assert PeerIndex(ps, y) != i;
    }
  }

  /** When all connections of `a` go, what is left over are the inactive clients that had no
    * other.
    */
  lemma LeftOversOf(cs: Clients, cs': Clients, a: Addr)
    requires ListsOk(cs) && PeersOk(cs) && ListsOk(cs') && NoLeftOvers(cs)
    requires forall b | b != a :: b in cs' <==> b in cs
    requires SameEntries(cs, cs', cs.Keys - {a})
    requires a in cs' ==> cs'[a].active
    requires forall x, y :: Connected(cs', x, y) == if x == a || y == a then 0 else Connected(cs, x, y)
    ensures NoLeftOvers(cs') <==> NobodyNeedsOnly(cs, a)
  {
    hide Connections, ListsOk;
    forall b | b in cs && b != a && !cs[b].active
      ensures IsLeftOver(cs'[b]) <==> Connected(cs, a, b) > 0 && |cs[b].peers| <= 1
    {
      assert Connected(cs, a, b) == Connected(cs, b, a);
      NoPeersNoConnections(cs, b);
      NoPeersNoConnections(cs', b);
      if Connected(cs, b, a) > 0 {
        OtherPeers(cs, b, a);
        hide Connected;
      }
    }
    hide Connected;
    assert Connected(cs, a, a) == 0;
  }

  /** A client that disconnects leaves nothing over if and only if each of its inactive peers has
    * another peer.
    */
  lemma DisconnectLeavesNothing(g: Graph, a: Addr)
    requires Inv(g) && NoLeftOvers(g.clients) && a in g.clients
    ensures NoLeftOvers(ClientDisconnect(g, a).clients) <==> NobodyNeedsOnly(g.clients, a)
  {
    hide ClientDisconnect, NoLeftOvers, NobodyNeedsOnly, RulesOk;
    DisconnectForgetsClient(g, a);
    OnlyClientsConnect(ClientDisconnect(g, a), a);
    OnlyClientsConnect(g, a);
    LeftOversOf(g.clients, ClientDisconnect(g, a).clients, a);
  }

  lemma OnlyClientsConnect(g: Graph, a: Addr)
    requires Inv(g)
    ensures a !in g.clients ==> forall x, y | x == a || y == a :: Connected(g.clients, x, y) == 0
  {
    hide Connections;
    if a !in g.clients {
      forall x, y | x == a || y == a
        ensures Connected(g.clients, x, y) == 0
      {
        assert Connected(g.clients, x, y) == Connected(g.clients, y, x);
      }
    }
  }

  /** The same when another client takes over an active client's address. */
  lemma NewMacLeavesNothing(g: Graph, a: Addr, mac: int, iface: int, answers: seq<(Answer, Answer)>)
    requires Inv(g) && NoLeftOvers(g.clients) && a in g.clients && g.clients[a].active && g.clients[a].mac != mac
    requires ActiveAnswersOk(g, a, mac, iface, answers)
    ensures NoLeftOvers(ClientActive(g, a, mac, iface, answers).clients) <==> NobodyNeedsOnly(g.clients, a)
  {
    hide ClientActive, NoLeftOvers, NobodyNeedsOnly, RulesOk;
    NewMacStartsAnew(g, a, mac, iface, answers);
    ActiveKeepsInv(g, a, mac, iface, answers);
    LeftOversOf(g.clients, ClientActive(g, a, mac, iface, answers).clients, a);
  }

  /** The two kinds of events at which a client's connections all go at once. */
  ghost predicate GoesForGood(g: Graph, e: Event) {
    || (e.EvDisconnect? && e.a in g.clients)
    || (e.EvActive? && e.a in g.clients && g.clients[e.a].active && g.clients[e.a].mac != e.mac)
  }

  /** Exactly when an event leaves nothing over: always, but for those two, where the condition
    * is that each inactive peer of the client has another peer.
    */
  lemma EventLeavesNothing(g: Graph, e: Event)
    requires Inv(g) && NoLeftOvers(g.clients) && CanDo(g, e)
    ensures NoLeftOvers(Next(g, e).clients) <==> (GoesForGood(g, e) ==> NobodyNeedsOnly(g.clients, e.a))
  {
    hide Inv, NoLeftOvers, NobodyNeedsOnly;
    match e
    case EvActive(a, mac, iface, answers) =>
      if GoesForGood(g, e) {
        NewMacLeavesNothing(g, a, mac, iface, answers);
      } else {
        ActiveLeavesNothing(g, a, mac, iface, answers);
      }
    case EvInactive(a) => InactiveLeavesNothing(g, a);
    case EvDisconnect(a) =>
      if a in g.clients {
        DisconnectLeavesNothing(g, a);
      }
    case EvNewConnection(src, dst, pair) => NewLeavesNothing(g, src, dst, pair);
    case EvDelConnection(src, dst) => DelLeavesNothing(g, src, dst);
  }

  lemma ActiveLeavesNothing(g: Graph, a: Addr, mac: int, iface: int, answers: seq<(Answer, Answer)>)
    requires Inv(g) && NoLeftOvers(g.clients) && ActiveAnswersOk(g, a, mac, iface, answers)
    requires a in g.clients && g.clients[a].active ==> g.clients[a].mac == mac
    ensures NoLeftOvers(ClientActive(g, a, mac, iface, answers).clients)
  {
    hide Inv, PeerAnswersOk, LinkPeers;
    if a in g.clients && !g.clients[a].active {
      var client := g.clients[a].(mac := mac, iface := iface, active := true);
      LinkPeersOnlyLinks(g.(clients := g.clients[a := client]), a, 0, answers);
    }
  }

  lemma {:induction false} LinkPeersOnlyLinks(g: Graph, a: Addr, i: nat, answers: seq<(Answer, Answer)>)
    requires a in g.clients && i <= |g.clients[a].peers| <= |answers|
    ensures SameButLinks(g.clients, LinkPeers(g, a, i, answers).clients)
    decreases |g.clients[a].peers| - i
  {
    if i == |g.clients[a].peers| {
    } else {
      LinkPeerOnlyLinks(g, a, i, answers[i]);
      hide LinkPeer;
      LinkPeersOnlyLinks(LinkPeer(g, a, i, answers[i]), a, i + 1, answers);
    }
  }

  lemma LinkPeerOnlyLinks(g: Graph, a: Addr, i: nat, answers: (Answer, Answer))
    requires a in g.clients && i < |g.clients[a].peers|
    ensures SameButLinks(g.clients, LinkPeer(g, a, i, answers).clients)
  {
    hide AddOffloadLink;
    var b := g.clients[a].peers[i].who;
    if b in g.clients {
      AddOnlyLinks(g, a, b, answers.0);
      AddOnlyLinks(AddOffloadLink(g, a, b, answers.0).graph, b, a, answers.1);
    }
  }

  lemma AddOnlyLinks(g: Graph, a: Addr, b: Addr, answer: Answer)
    requires a in g.clients && b in g.clients
    ensures SameButLinks(g.clients, AddOffloadLink(g, a, b, answer).graph.clients)
  {
  }

  lemma InactiveLeavesNothing(g: Graph, a: Addr)
    requires Inv(g) && NoLeftOvers(g.clients)
    ensures NoLeftOvers(ClientInactive(g, a).clients)
  {
    if a in g.clients {
      InactiveUnlinks(g, a);
      InactiveKeepsInv(g, a);
      hide ClientInactive, RulesOk, LinksOk, Connected;
      SamePeersSameLeftOvers(g.clients, ClientInactive(g, a).clients, a);
    }
  }

  lemma SamePeersSameLeftOvers(cs: Clients, cs': Clients, a: Addr)
    requires ListsOk(cs) && ListsOk(cs') && NoLeftOvers(cs)
    requires forall x | x != a :: x in cs' <==> x in cs
    requires SameEntries(cs, cs', cs'.Keys - {a})
    requires a in cs' ==> a in cs && cs[a].peers != []
    requires forall x, y :: Connected(cs', x, y) == Connected(cs, x, y)
    ensures NoLeftOvers(cs')
  {
    hide Connected;
    forall b | b in cs'
      ensures cs'[b].peers == [] <==> cs[b].peers == []
    {
      NoPeersNoConnections(cs, b);
      NoPeersNoConnections(cs', b);
    }
  }

  lemma NewLeavesNothing(g: Graph, src: Addr, dst: Addr, answers: (Answer, Answer))
    requires Inv(g) && NoLeftOvers(g.clients) && src != dst && NewAnswersOk(g, src, dst, answers)
    ensures NoLeftOvers(NewConnection(g, src, dst, answers).clients)
  {
    if src in g.clients && dst in g.clients {
      NewConnectionCountsAndLinks(g, src, dst, answers);
      NewConnectionKeepsInv(g, src, dst, answers);
      var g' := NewConnection(g, src, dst, answers);
      hide NewConnection, RulesOk, LinksOk, Connections;
      forall b | b in g'.clients
        ensures g'.clients[b].peers == [] ==> g.clients[b].peers == []
      {
        NoPeersNoConnections(g.clients, b);
        NoPeersNoConnections(g'.clients, b);
      }
    }
  }

  lemma DelLeavesNothing(g: Graph, src: Addr, dst: Addr)
    requires Inv(g) && NoLeftOvers(g.clients) && src != dst
    ensures NoLeftOvers(DelConnection(g, src, dst).clients)
  {
    if src in g.clients && dst in g.clients {
      DelConnectionCountsAndUnlinks(g, src, dst);
      DelConnectionKeepsInv(g, src, dst);
      var g', n := DelConnection(g, src, dst), Connected(g.clients, src, dst);
      hide DelConnection, RulesOk, LinksOk, Connections;
      assert n == Connected(g.clients, dst, src);
      forall b | b in g'.clients && !g'.clients[b].active
        ensures g'.clients[b].peers != []
      {
        NoPeersNoConnections(g.clients, b);
        NoPeersNoConnections(g'.clients, b);
        if b in {src, dst} && n == 1 {
          OtherPeers(g.clients, b, if b == src then dst else src);
        }
      }
    }
  }

  // ---- A run that leaves a client over ----

  const ANSWER := Answer(Some(1), Some(1), Some(1))
  const OTHER_ANSWER := Answer(Some(2), Some(2), Some(2))

  const PAIR_THEN_LOSE: seq<Event> := [
    EvActive(1, 10, 0, []), EvActive(2, 20, 1, []), EvNewConnection(1, 2, (ANSWER, OTHER_ANSWER)),
    EvInactive(2), EvDisconnect(1)]

  /** Two clients become active and connect; one becomes inactive, and the other disconnects. */
  lemma DisconnectLeavesAClientOver() returns (graphs: seq<Graph>)
    ensures IsRun(graphs, PAIR_THEN_LOSE)
    ensures 2 in graphs[5].clients && IsLeftOver(graphs[5].clients[2])
  {
    hide Inv, IsRun, CanDo, Next, IsLeftOver;
    var g0, g1, g2 := BothBecomeActive();
    var g3, g4, g5 := PairIsLost(g2);
    graphs := [g0, g1, g2, g3, g4, g5];
    FiveStepsAreARun(graphs, PAIR_THEN_LOSE);
  }

  lemma FiveStepsAreARun(graphs: seq<Graph>, events: seq<Event>)
    requires |graphs| == 6 && |events| == 5 && graphs[0] == Graph(map[], 0, map[], 0)
    requires CanDo(graphs[0], events[0]) && graphs[1] == Next(graphs[0], events[0])
    requires CanDo(graphs[1], events[1]) && graphs[2] == Next(graphs[1], events[1])
    requires CanDo(graphs[2], events[2]) && graphs[3] == Next(graphs[2], events[2])
    requires CanDo(graphs[3], events[3]) && graphs[4] == Next(graphs[3], events[3])
    requires CanDo(graphs[4], events[4]) && graphs[5] == Next(graphs[4], events[4])
    ensures IsRun(graphs, events)
  {
    hide CanDo, Next;
  }

  lemma PairIsLost(g2: Graph) returns (g3: Graph, g4: Graph, g5: Graph)
    requires Inv(g2) && g2.rules == map[] && g2.clients == map[1 := FIRST, 2 := SECOND]
    ensures CanDo(g2, PAIR_THEN_LOSE[2]) && g3 == Next(g2, PAIR_THEN_LOSE[2])
    ensures CanDo(g3, PAIR_THEN_LOSE[3]) && g4 == Next(g3, PAIR_THEN_LOSE[3])
    ensures CanDo(g4, PAIR_THEN_LOSE[4]) && g5 == Next(g4, PAIR_THEN_LOSE[4])
    ensures 2 in g5.clients && IsLeftOver(g5.clients[2])
  {
    hide Inv, Connected, IsLeftOver, NewConnection, ClientInactive, ClientDisconnect, NewAnswersOk;
    NewPairIsConnected(g2);
    g3 := NewConnection(g2, 1, 2, (ANSWER, OTHER_ANSWER));
    PartnerIsLeftOver(g3);
    g4 := ClientInactive(g3, 2);
    g5 := ClientDisconnect(g4, 1);
  }

  const FIRST := Client(10, 0, true, [], [])
  const SECOND := Client(20, 1, true, [], [])

  lemma BothBecomeActive() returns (g0: Graph, g1: Graph, g2: Graph)
    ensures g0 == Graph(map[], 0, map[], 0)
    ensures CanDo(g0, PAIR_THEN_LOSE[0]) && g1 == Next(g0, PAIR_THEN_LOSE[0])
    ensures CanDo(g1, PAIR_THEN_LOSE[1]) && g2 == Next(g1, PAIR_THEN_LOSE[1])
    ensures Inv(g2) && g2.rules == map[] && g2.clients == map[1 := FIRST, 2 := SECOND]
  {
    g0, g1 := Graph(map[], 0, map[], 0), Graph(map[1 := FIRST], 0, map[], 0);
    g2 := Graph(map[1 := FIRST, 2 := SECOND], 0, map[], 0);
    EmptyGraphIsInv();
    StepKeepsInv(g0, PAIR_THEN_LOSE[0]);
    StepKeepsInv(g1, PAIR_THEN_LOSE[1]);
    hide Inv;
  }

  lemma NewPairIsConnected(g: Graph)
    requires Inv(g) && g.rules == map[]
    requires g.clients == map[1 := Client(10, 0, true, [], []), 2 := Client(20, 1, true, [], [])]
    ensures NewAnswersOk(g, 1, 2, (ANSWER, OTHER_ANSWER))
    ensures var g' := NewConnection(g, 1, 2, (ANSWER, OTHER_ANSWER));
      && Inv(g') && 1 in g'.clients && 2 in g'.clients && g'.clients[1].active && g'.clients[2].active
      && forall y :: Connected(g'.clients, 2, y) == if y == 1 then 1 else 0
  {
    hide Inv;
    var pair := (ANSWER, OTHER_ANSWER);
    assert forall x, y :: Connected(g.clients, x, y) == 0;
    assert NewAnswersOk(g, 1, 2, pair);
    NewConnectionCountsAndLinks(g, 1, 2, pair);
    NewConnectionKeepsInv(g, 1, 2, pair);
  }

  /** Of two connected clients, one becomes inactive and the other disconnects. */
  lemma PartnerIsLeftOver(g: Graph)
    requires Inv(g) && 1 in g.clients && 2 in g.clients && g.clients[2].active
    requires forall y :: Connected(g.clients, 2, y) == if y == 1 then 1 else 0
    ensures var g2 := ClientDisconnect(ClientInactive(g, 2), 1);
      2 in g2.clients && IsLeftOver(g2.clients[2])
  {
    hide RulesOk, LinksOk, LinkedPairs, ClientInactive, ClientDisconnect, Connections;
    var g1 := ClientInactive(g, 2);
    InactiveUnlinks(g, 2);
    InactiveKeepsInv(g, 2);
    NoPeersNoConnections(g.clients, 2);
    assert Connected(g.clients, 2, 1) == 1;
    var g2 := ClientDisconnect(g1, 1);
    DisconnectForgetsClient(g1, 1);
    NoPeersNoConnections(g2.clients, 2);
    OnlyClientsConnect(g2, 1);
  }
}
