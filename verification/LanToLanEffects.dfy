/** What each event does to the offload graph, edge by edge. */
module LanToLanEffects {
  import opened Options
  import opened LanToLanGraph
  import opened LanToLanInvariant
  import opened LanToLanEvents

  /** A new connection is counted at both ends, and at no others. If it is the first of an active
    * pair and there is room, the one direction is linked if the hardware takes its rules, and then
    * the other if it takes those as well; only then is the pair counted. No other link changes, and
    * no entry comes or goes.
    */
  lemma NewConnectionCountsAndLinks(g: Graph, src: Addr, dst: Addr, answers: (Answer, Answer))
    requires Inv(g) && src != dst && src in g.clients && dst in g.clients && NewAnswersFresh(g, src, dst, answers)
    ensures var g' := NewConnection(g, src, dst, answers);
      var there := Connected(g.clients, src, dst) == 0 && g.clients[src].active && g.clients[dst].active
        && g.numOffloadPair < MAX_OFFLOAD_PAIR && answers.0.Success();
      var back := there && answers.1.Success();
      && g'.clients.Keys == g.clients.Keys && SameEntries(g.clients, g'.clients, g.clients.Keys)
      && ConnectionsBecome(g.clients, g'.clients, src, dst, Connected(g.clients, src, dst) + 1)
      && (Linked(g'.clients, src, dst).Some? <==> Linked(g.clients, src, dst).Some? || there)
      && (Linked(g'.clients, dst, src).Some? <==> Linked(g.clients, dst, src).Some? || back)
      && (forall x, y | !IsEdge(x, y, src, dst) :: Linked(g'.clients, x, y) == Linked(g.clients, x, y))
      && g'.numOffloadPair == g.numOffloadPair + (if back then 1 else 0)
  {
    hide RulesOk, AddConnection, FreshAnswers, ListsOk, Connections, LinkTo, LinkedPairs;
    var cs := AddConnection(g.clients, src, dst);
    AddConnectionCounts(g.clients, src, dst);
    ConnectionsKeepInv(g, cs, src, dst, Connected(g.clients, src, dst) + 1);
    var g1 := g.(clients := cs);
    if Connected(g.clients, src, dst) == 0 {
      assert Linked(g.clients, src, dst).None?;
      if cs[src].active && cs[dst].active {
        PairIsLinked(g1, src, dst, answers);
        SameConnected(cs, LinkBothWays(g1, src, dst, answers).clients);
      }
    }
  }

  lemma PairIsLinked(g: Graph, a: Addr, b: Addr, answers: (Answer, Answer))
    requires Inv(g) && MayBeLinked(g, a, b) && FreshAnswers(g, a, b, answers)
    ensures var g' := LinkBothWays(g, a, b, answers);
      var there := g.numOffloadPair < MAX_OFFLOAD_PAIR && answers.0.Success();
      var back := there && answers.1.Success();
      && SameButLinks(g.clients, g'.clients)
      && (Linked(g'.clients, a, b).Some? <==> there) && (Linked(g'.clients, b, a).Some? <==> back)
      && (forall x, y | !IsEdge(x, y, a, b) :: Linked(g'.clients, x, y) == Linked(g.clients, x, y))
      && g'.numOffloadPair == g.numOffloadPair + (if back then 1 else 0)
  {
    hide RulesOk, ListsOk, PeersOk, LinkedPairs, AddOffloadLink, Linked, Answer.Fresh, Answer.Success;
    LinksAreMutual(g.clients, a, b);
    AddOffloadLinkKeepsRules(g, a, b, answers.0);
    var r1 := AddOffloadLink(g, a, b, answers.0);
    if r1.success {
      assert Linked(r1.graph.clients, b, a).None?;
      AddOffloadLinkKeepsRules(r1.graph, b, a, answers.1);
    }
  }

  /** A connection that ends is counted down at both ends; the link goes with the last one, and
    * with it an end that is inactive and has no other peer. No other link or entry changes.
    */
  lemma DelConnectionCountsAndUnlinks(g: Graph, src: Addr, dst: Addr)
    requires Inv(g) && src != dst && src in g.clients && dst in g.clients
    ensures var g' := DelConnection(g, src, dst);
      var n := Connected(g.clients, src, dst);
      && ConnectionsBecome(g.clients, g'.clients, src, dst, if n == 0 then 0 else n - 1)
      && (Linked(g'.clients, src, dst).Some? <==> Linked(g.clients, src, dst).Some? && n > 1)
      && (forall x, y | !IsEdge(x, y, src, dst) :: Linked(g'.clients, x, y) == Linked(g.clients, x, y))
      && g'.numOffloadPair == g.numOffloadPair - (if Linked(g.clients, src, dst).Some? && n == 1 then 1 else 0)
      && (forall x :: x in g'.clients
            <==> x in g.clients && !(n == 1 && x in {src, dst} && !g.clients[x].active && |g.clients[x].peers| == 1))
      && SameEntries(g.clients, g'.clients, g'.clients.Keys)
  {
    hide RulesOk, ListsOk, Connections, LinkTo, RemoveConnection, EraseOffloadLink, EraseIfUnused, LinkedPairs;
    var n := Connected(g.clients, src, dst);
    var cs := RemoveConnection(g.clients, src, dst);
    RemoveConnectionCounts(g.clients, src, dst);
    assert Linked(g.clients, src, dst).Some? ==> n > 0;
    if n != 1 {
      ConnectionsKeepInv(g, cs, src, dst, if n == 0 then 0 else n - 1);
    } else {
      LastConnectionUnlinks(g, src, dst);
    }
  }

  lemma LastConnectionUnlinks(g: Graph, src: Addr, dst: Addr)
    requires Inv(g) && src in g.clients && dst in g.clients && src != dst && Connected(g.clients, src, dst) == 1
    ensures var g' := DelConnection(g, src, dst);
      && ConnectionsBecome(g.clients, g'.clients, src, dst, 0)
      && Linked(g'.clients, src, dst).None?
      && (forall x, y | !IsEdge(x, y, src, dst) :: Linked(g'.clients, x, y) == Linked(g.clients, x, y))
      && g'.numOffloadPair == g.numOffloadPair - (if Linked(g.clients, src, dst).Some? then 1 else 0)
      && (forall x :: x in g'.clients
            <==> x in g.clients && !(x in {src, dst} && !g.clients[x].active && |g.clients[x].peers| == 1))
      && SameEntries(g.clients, g'.clients, g'.clients.Keys)
  {
    hide RulesOk, ListsOk, Connections, LinkTo, RemoveConnection, EraseOffloadLink, EraseIfUnused, LinkedPairs;
    hide Linked, Connected, PeersOk, LinksOk;
    var g2 := Disconnected(g, src, dst);
    DisconnectedUnlinks(g, src, dst);
    RemoveConnectionCounts(g.clients, src, dst);
    EraseUnusedKeepsInv(g2, src);
    EraseUnusedKeepsInv(g2.(clients := EraseIfUnused(g2.clients, src)), dst);
    LastConnectionGoes(g, src, dst);
    UnusedGo(g2.clients, src, dst);
  }

  lemma UnusedGo(cs: Clients, a: Addr, b: Addr)
    ensures var cs' := EraseIfUnused(EraseIfUnused(cs, a), b);
      && (forall x :: x in cs' <==> x in cs && !(x in {a, b} && !cs[x].active && cs[x].peers == []))
      && forall x | x in cs' :: cs'[x] == cs[x]
  {
  }

  /** A client that becomes inactive loses its links and keeps its connections; it stays in the
    * table only for their sake. No other link changes.
    */
  lemma InactiveUnlinks(g: Graph, a: Addr)
    requires Inv(g) && a in g.clients
    ensures var g' := ClientInactive(g, a);
      && (forall x, y :: Connected(g'.clients, x, y) == Connected(g.clients, x, y))
      && (forall x, y :: Linked(g'.clients, x, y) == if x == a || y == a then None else Linked(g.clients, x, y))
      && (a in g'.clients <==> g.clients[a].peers != [])
      && (a in g'.clients ==> !g'.clients[a].active)
      && (forall x | x != a :: x in g'.clients <==> x in g.clients)
      && SameEntries(g.clients, g'.clients, g'.clients.Keys - {a})
      && g'.numOffloadPair == g.numOffloadPair - |g.clients[a].links|
  {
    hide Inv, TurnOffLinks, Connected, Linked;
    TurnOffKeepsInv(g, a);
    var g1 := TurnOffLinks(g, a);
    SameConnected(g.clients, g1.clients);
    var client := g1.clients[a];
    ChangeKeepsInv(g1, a, client.mac, client.iface, false);
    var g2 := g1.(clients := g1.clients[a := client.(active := false)]);
    assert client.(mac := client.mac, iface := client.iface, active := false) == client.(active := false);
    EraseUnusedKeepsInv(g2, a);
  }

  /** Which peers' pairs are counted if there is room: the active ones whose second direction the
    * hardware takes.
    */
  ghost function Counted(g: Graph, a: Addr, answers: seq<(Answer, Answer)>): (counted: seq<bool>)
    requires a in g.clients && |g.clients[a].peers| <= |answers|
    requires forall p | p in g.clients[a].peers :: p.who in g.clients
    ensures |counted| == |g.clients[a].peers|
  {
    seq(|g.clients[a].peers|, j requires 0 <= j < |g.clients[a].peers| =>
      g.clients[g.clients[a].peers[j].who].active && answers[j].1.Success())
  }

  /** The number of pairs at the turn of peer `j`, from `n` on. */
  ghost function PairsAt(n: int, counted: seq<bool>, j: nat): int
    requires j <= |counted|
  {
    if j == 0 then n
    else
      var m := PairsAt(n, counted, j - 1);
      if counted[j - 1] && m < MAX_OFFLOAD_PAIR then m + 1 else m
  }

  /** What becomes of the links with peer `j`. */
  ghost predicate LinkedAsAnswered(g: Graph, cs': Clients, a: Addr, j: nat, answers: (Answer, Answer), pairs: int)
    requires a in g.clients && j < |g.clients[a].peers| && g.clients[a].peers[j].who in g.clients
  {
    var b := g.clients[a].peers[j].who;
    var room := g.clients[b].active && pairs < MAX_OFFLOAD_PAIR;
    && (Linked(cs', a, b).Some? <==> room && answers.0.Success())
    && (Linked(cs', b, a).Some? <==> room && answers.1.Success())
  }

  ghost predicate SameLinksBetween(cs: Clients, cs': Clients, a: Addr, b: Addr) {
    Linked(cs', a, b) == Linked(cs, a, b) && Linked(cs', b, a) == Linked(cs, b, a)
  }

  ghost predicate PeersUnlinked(cs: Clients, a: Addr, i: nat)
    requires a in cs
  {
    && PeerListOk(cs[a].peers)
    && forall j | 0 <= j < |cs[a].peers| ::
         var b := cs[a].peers[j].who;
         b in cs && b != a && (i <= j ==> Linked(cs, a, b).None? && Linked(cs, b, a).None?)
  }

  /** It is the turn of peer `i`. */
  ghost predicate TurnOf(g: Graph, a: Addr, i: nat, answers: seq<(Answer, Answer)>, n: int, counted: seq<bool>) {
    && ListsOk(g.clients) && RulesOk(g.clients, g.rules) && a in g.clients
    && i <= |g.clients[a].peers| == |counted| <= |answers| && PeersUnlinked(g.clients, a, i)
    && PeerAnswersFresh(g, a, i, answers)
    && (forall j | 0 <= j < |counted| ::
          counted[j] <==> g.clients[g.clients[a].peers[j].who].active && answers[j].1.Success())
    && g.numOffloadPair == PairsAt(n, counted, i)
  }

  lemma NextTurn(g: Graph, a: Addr, i: nat, answers: seq<(Answer, Answer)>, n: int, counted: seq<bool>)
    requires TurnOf(g, a, i, answers, n, counted) && i < |counted|
    ensures var g1 := LinkPeer(g, a, i, answers[i]);
      && TurnOf(g1, a, i + 1, answers, n, counted) && SameButLinks(g.clients, g1.clients)
      && LinkedAsAnswered(g, g1.clients, a, i, answers[i], PairsAt(n, counted, i))
      && (forall j | 0 <= j < |counted| && j != i ::
            SameLinksBetween(g.clients, g1.clients, a, g.clients[a].peers[j].who))
      && (forall y | PeerIndex(g.clients[a].peers, y) == |counted| :: SameLinksBetween(g.clients, g1.clients, a, y))
      && (forall x, y | x != a && y != a :: Linked(g1.clients, x, y) == Linked(g.clients, x, y))
  {
    hide RulesOk, ListsOk, LinkPeer, FreshAnswers, Linked, Answer.Success;
    LinkPeerLinksAsAnswered(g, a, i, answers[i]);
  }

  lemma {:induction false} LinkPeersAsAnswered(g: Graph, a: Addr, i: nat, answers: seq<(Answer, Answer)>,
                                               n: int, counted: seq<bool>)
    requires TurnOf(g, a, i, answers, n, counted)
    ensures var g' := LinkPeers(g, a, i, answers);
      && SameButLinks(g.clients, g'.clients) && TurnOf(g', a, |counted|, answers, n, counted)
      && (forall j | i <= j < |counted| ::
            LinkedAsAnswered(g, g'.clients, a, j, answers[j], PairsAt(n, counted, j)))
      && (forall j | 0 <= j < i :: SameLinksBetween(g.clients, g'.clients, a, g.clients[a].peers[j].who))
      && (forall y | PeerIndex(g.clients[a].peers, y) == |counted| :: SameLinksBetween(g.clients, g'.clients, a, y))
      && (forall x, y | x != a && y != a :: Linked(g'.clients, x, y) == Linked(g.clients, x, y))
    decreases |g.clients[a].peers| - i
  {
    hide ListsOk, RulesOk, PeerAnswersFresh, LinkPeer, Linked, PairsAt, LinkedAsAnswered;
    var peers := g.clients[a].peers;
    if i == |peers| {
    } else {
      NextTurn(g, a, i, answers, n, counted);
      var g1, g' := LinkPeer(g, a, i, answers[i]), LinkPeers(g, a, i, answers);
      LinkPeersAsAnswered(g1, a, i + 1, answers, n, counted);
      forall j | i <= j < |counted|
        ensures LinkedAsAnswered(g, g'.clients, a, j, answers[j], PairsAt(n, counted, j))
      {
        StillAsAnswered(g, g1, g'.clients, a, j, answers[j], PairsAt(n, counted, j));
      }
    }
  }

  lemma StillAsAnswered(g: Graph, g1: Graph, cs': Clients, a: Addr, j: nat, answers: (Answer, Answer), pairs: int)
    requires a in g.clients && j < |g.clients[a].peers| && g.clients[a].peers[j].who in g.clients
    requires SameButLinks(g.clients, g1.clients) && SameButLinks(g1.clients, cs')
    requires LinkedAsAnswered(g1, cs', a, j, answers, pairs)
      || (LinkedAsAnswered(g, g1.clients, a, j, answers, pairs)
          && SameLinksBetween(g1.clients, cs', a, g.clients[a].peers[j].who))
    ensures LinkedAsAnswered(g, cs', a, j, answers, pairs)
  {
    hide Linked;
  }

  /** A client that comes back under its address is linked to each peer, direction by direction,
    * if and only if the peer is active, there is room for a pair at its turn, and the hardware
    * takes the rules of that direction. No other link changes.
    */
  lemma ActiveAgainLinks(g: Graph, a: Addr, mac: int, iface: int, answers: seq<(Answer, Answer)>)
    requires Inv(g) && a in g.clients && !g.clients[a].active && ActiveAnswersFresh(g, a, mac, iface, answers)
    ensures forall p | p in g.clients[a].peers :: p.who in g.clients
    ensures var g' := ClientActive(g, a, mac, iface, answers);
      var counted := Counted(g, a, answers);
      && a in g'.clients && g'.clients[a].mac == mac && g'.clients[a].iface == iface && g'.clients[a].active
      && g'.clients[a].peers == g.clients[a].peers
      && g'.numOffloadPair == PairsAt(g.numOffloadPair, counted, |counted|)
      && ListsOk(g'.clients) && RulesOk(g'.clients, g'.rules)
      && g'.clients.Keys == g.clients.Keys && SameEntries(g.clients, g'.clients, g.clients.Keys - {a})
      && (forall x, y :: Connected(g'.clients, x, y) == Connected(g.clients, x, y))
      && (forall j | 0 <= j < |counted| ::
            LinkedAsAnswered(g, g'.clients, a, j, answers[j], PairsAt(g.numOffloadPair, counted, j)))
      && (forall y | PeerIndex(g.clients[a].peers, y) == |counted| :: SameLinksBetween(g.clients, g'.clients, a, y))
      && (forall x, y | x != a && y != a :: Linked(g'.clients, x, y) == Linked(g.clients, x, y))
  {
    FirstTurn(g, a, mac, iface, answers);
    var counted := Counted(g, a, answers);
    var g1 := g.(clients := g.clients[a := g.clients[a].(mac := mac, iface := iface, active := true)]);
    assert ClientActive(g, a, mac, iface, answers) == LinkPeers(g1, a, 0, answers);
    hide Inv, ClientActive, LinkPeers, Linked, Connected, PairsAt, Counted, LinkedAsAnswered;
    LinkPeersAsAnswered(g1, a, 0, answers, g.numOffloadPair, counted);
    hide PeerAnswersFresh, RulesOk, ListsOk, PeersUnlinked, Answer.Success;
    var cs' := LinkPeers(g1, a, 0, answers).clients;
    SameConnected(g1.clients, cs');
    forall j | 0 <= j < |counted|
      ensures LinkedAsAnswered(g, cs', a, j, answers[j], PairsAt(g.numOffloadPair, counted, j))
    {
      SameAnswered(g, g1, cs', a, j, answers[j], PairsAt(g.numOffloadPair, counted, j));
    }
    forall y | PeerIndex(g.clients[a].peers, y) == |counted|
      ensures SameLinksBetween(g.clients, cs', a, y)
    {
      assert SameLinksBetween(g1.clients, cs', a, y);
    }
    ReturnKeepsEntries(g.clients, g1.clients[a], cs', a);
    hide SameLinksBetween, SameButLinks, SameEntries, TurnOf;
  }

  lemma ReturnKeepsEntries(cs: Clients, client: Client, cs': Clients, a: Addr)
    requires a in cs && SameButLinks(cs[a := client], cs')
    ensures cs'.Keys == cs.Keys && SameEntries(cs, cs', cs.Keys - {a}) && cs'[a] == client.(links := cs'[a].links)
  {
  }

  lemma SameAnswered(g: Graph, g1: Graph, cs': Clients, a: Addr, j: nat, answers: (Answer, Answer), pairs: int)
    requires a in g.clients && a in g1.clients && g1.clients[a].peers == g.clients[a].peers && j < |g.clients[a].peers|
    requires var b := g.clients[a].peers[j].who;
      b in g.clients && b in g1.clients && g1.clients[b].active == g.clients[b].active
    requires LinkedAsAnswered(g1, cs', a, j, answers, pairs)
    ensures LinkedAsAnswered(g, cs', a, j, answers, pairs)
  {
    hide Linked;
  }

  lemma FirstTurn(g: Graph, a: Addr, mac: int, iface: int, answers: seq<(Answer, Answer)>)
    requires Inv(g) && a in g.clients && !g.clients[a].active && ActiveAnswersFresh(g, a, mac, iface, answers)
    ensures forall p | p in g.clients[a].peers :: p.who in g.clients && p.who != a
    ensures var cs' := g.clients[a := g.clients[a].(mac := mac, iface := iface, active := true)];
      && TurnOf(g.(clients := cs'), a, 0, answers, g.numOffloadPair, Counted(g, a, answers))
      && (forall x, y :: Linked(cs', x, y) == Linked(g.clients, x, y))
      && (forall x, y :: Connected(cs', x, y) == Connected(g.clients, x, y))
  {
    hide PeerAnswersFresh, Linked, RulesOk, LinksOk, LinkedPairs, Connected, Answer.Success;
    InactiveHasNoLinks(g, a);
    ChangeKeepsInv(g, a, mac, iface, true);
    forall j | 0 <= j < |g.clients[a].peers|
      ensures var b := g.clients[a].peers[j].who;
        b in g.clients && b != a && Linked(g.clients, b, a).None?
    {
      PeerIsConnected(g.clients, a, j);
      LinksAreMutual(g.clients, a, g.clients[a].peers[j].who);
    }
  }

  /** A client that is new, with nothing but what the event says of it; one that is known as it is;
    * and addresses that nobody knows.
    */
  lemma NewAndUnknownClients(g: Graph, a: Addr, b: Addr, mac: int, iface: int, answers: seq<(Answer, Answer)>,
                             pair: (Answer, Answer))
    requires a in g.clients ==> |g.clients[a].peers| <= |answers|
    ensures a !in g.clients ==>
      && ClientActive(g, a, mac, iface, answers) == g.(clients := g.clients[a := Client(mac, iface, true, [], [])])
      && ClientInactive(g, a) == g && ClientDisconnect(g, a) == g
      && NewConnection(g, a, b, pair) == g && NewConnection(g, b, a, pair) == g
      && DelConnection(g, a, b) == g && DelConnection(g, b, a) == g
    ensures a in g.clients && g.clients[a].active && g.clients[a].mac == mac ==>
      ClientActive(g, a, mac, iface, answers) == g
  {
    hide TurnOffLinks, ClearPeers, LinkPeers, AddConnection, RemoveConnection;
  }

  /** Another client under the same address starts anew: the old one's connections and links are
    * gone, and no others.
    */
  lemma NewMacStartsAnew(g: Graph, a: Addr, mac: int, iface: int, answers: seq<(Answer, Answer)>)
    requires Inv(g) && a in g.clients && g.clients[a].active && g.clients[a].mac != mac
    requires |g.clients[a].peers| <= |answers|
    ensures var g' := ClientActive(g, a, mac, iface, answers);
      && a in g'.clients && g'.clients[a] == Client(mac, iface, true, [], [])
      && g'.clients.Keys == g.clients.Keys && SameEntries(g.clients, g'.clients, g.clients.Keys - {a})
      && (forall x, y :: Connected(g'.clients, x, y) == if x == a || y == a then 0 else Connected(g.clients, x, y))
      && (forall x, y :: Linked(g'.clients, x, y) == if x == a || y == a then None else Linked(g.clients, x, y))
  {
    hide Inv, TurnOffLinks, ClearPeers, Connected, Linked;
    TurnOffKeepsInv(g, a);
    var g1 := TurnOffLinks(g, a);
    SameConnected(g.clients, g1.clients);
    ClearKeepsInv(g1, a);
    ChangeKeepsInv(g1.(clients := ClearPeers(g1.clients, a)), a, mac, iface, true);
  }
}
