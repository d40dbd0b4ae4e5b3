/** What holds in every run of the offload graph, under hardware that gives out fresh handles
  * and never fails for one direction of a pair alone.
  */
module LanToLanRuns {
  import opened LanToLanGraph
  import opened LanToLanInvariant
  import opened LanToLanEvents

  datatype Event =
    | EvActive(a: Addr, mac: int, iface: int, answers: seq<(Answer, Answer)>)
    | EvInactive(a: Addr)
    | EvDisconnect(a: Addr)
    | EvNewConnection(src: Addr, dst: Addr, pair: (Answer, Answer))
    | EvDelConnection(src: Addr, dst: Addr)

  ghost predicate CanDo(g: Graph, e: Event) {
    match e
    case EvActive(a, mac, iface, answers) => ActiveAnswersOk(g, a, mac, iface, answers)
    case EvInactive(_) => true
    case EvDisconnect(_) => true
    case EvNewConnection(src, dst, pair) => src != dst && NewAnswersOk(g, src, dst, pair)
    case EvDelConnection(src, dst) => src != dst
  }

  ghost function Next(g: Graph, e: Event): Graph
    requires CanDo(g, e)
  {
    match e
    case EvActive(a, mac, iface, answers) => ClientActive(g, a, mac, iface, answers)
    case EvInactive(a) => ClientInactive(g, a)
    case EvDisconnect(a) => ClientDisconnect(g, a)
    case EvNewConnection(src, dst, pair) => NewConnection(g, src, dst, pair)
    case EvDelConnection(src, dst) => DelConnection(g, src, dst)
  }

  ghost predicate IsRun(graphs: seq<Graph>, events: seq<Event>) {
    && |graphs| == |events| + 1
    && graphs[0] == Graph(map[], 0, map[], 0)
    && forall k | 0 <= k < |events| :: CanDo(graphs[k], events[k]) && graphs[k + 1] == Next(graphs[k], events[k])
  }

  lemma EmptyGraphIsInv()
    ensures Inv(Graph(map[], 0, map[], 0))
  {
    var cs: Clients := map[];
    assert LinkedPairs(cs) == {};
  }

  lemma StepKeepsInv(g: Graph, e: Event)
    requires Inv(g) && CanDo(g, e)
    ensures Inv(Next(g, e))
  {
    hide Inv;
    match e
    case EvActive(a, mac, iface, answers) => ActiveKeepsInv(g, a, mac, iface, answers);
    case EvInactive(a) => InactiveKeepsInv(g, a);
    case EvDisconnect(a) => DisconnectForgetsClient(g, a);
    case EvNewConnection(src, dst, pair) => NewConnectionKeepsInv(g, src, dst, pair);
    case EvDelConnection(src, dst) => DelConnectionKeepsInv(g, src, dst);
  }

  lemma {:induction false} RunKeepsInv(graphs: seq<Graph>, events: seq<Event>, n: nat)
    requires IsRun(graphs, events) && n < |graphs|
    ensures Inv(graphs[n])
  {
    hide Inv;
    if n == 0 {
      EmptyGraphIsInv();
    } else {
      RunKeepsInv(graphs, events, n - 1);
      StepKeepsInv(graphs[n - 1], events[n - 1]);
    }
  }

  /** Each peer entry has its counterpart with the same positive count, and no other entry of
    * the list is for the same client.
    */
  lemma PeersAreMutual(graphs: seq<Graph>, events: seq<Event>, n: nat, a: Addr, i: nat)
    requires IsRun(graphs, events) && n < |graphs|
    requires a in graphs[n].clients && i < |graphs[n].clients[a].peers|
    ensures var cs := graphs[n].clients;
      var p := cs[a].peers[i];
      && p.numConnection > 0 && p.who != a && p.who in cs
      && Peer(a, p.numConnection) in cs[p.who].peers
      && forall j | 0 <= j < |cs[a].peers| && cs[a].peers[j].who == p.who :: j == i
  {
    RunKeepsInv(graphs, events, n);
    hide LinksOk, RulesOk, LinkedPairs;
    var cs := graphs[n].clients;
    PeerIsConnected(cs, a, i);
    var b := cs[a].peers[i].who;
    assert Connected(cs, b, a) == Connected(cs, a, b);
  }

  /** Each link has its counterpart, leads to a peer, and both ends are active; no other link
    * of the list leads there.
    */
  lemma LinksAreMutualPeers(graphs: seq<Graph>, events: seq<Event>, n: nat, a: Addr, i: nat)
    requires IsRun(graphs, events) && n < |graphs|
    requires a in graphs[n].clients && i < |graphs[n].clients[a].links|
    ensures var cs := graphs[n].clients;
      var l := cs[a].links[i];
      && l.who != a && l.who in cs && cs[a].active && cs[l.who].active
      && (exists j :: 0 <= j < |cs[l.who].links| && cs[l.who].links[j].who == a)
      && (exists j :: 0 <= j < |cs[a].peers| && cs[a].peers[j].who == l.who)
      && forall j | 0 <= j < |cs[a].links| && cs[a].links[j].who == l.who :: j == i
  {
    RunKeepsInv(graphs, events, n);
    hide RulesOk, LinkedPairs;
    var cs := graphs[n].clients;
    LinkIsFound(cs[a].links, i);
    var b := cs[a].links[i].who;
    assert Linked(cs, a, b).Some? && Linked(cs, b, a).Some? && Connected(cs, a, b) > 0;
    LinkToSays(cs[b].links, a);
    assert cs[b].links[LinkIndex(cs[b].links, a)].who == a;
    assert cs[a].peers[PeerIndex(cs[a].peers, b)].who == b;
  }

  /** The counter is the number of linked pairs, at most `MAX_OFFLOAD_PAIR`. */
  lemma CounterCountsLinkedPairs(graphs: seq<Graph>, events: seq<Event>, n: nat)
    requires IsRun(graphs, events) && n < |graphs|
    ensures 0 <= graphs[n].numOffloadPair == |LinkedPairs(graphs[n].clients)| <= MAX_OFFLOAD_PAIR
  {
    RunKeepsInv(graphs, events, n);
    hide RulesOk, PeersOk, LinksOk, ListsOk, LinkedPairs;
  }

  /** Every link leads between clients and has its three rules. What `a` sends to `b` is filtered
    * where `a` is attached, and routed to where `b` is, with a header from the one's MAC address to
    * the other's.
    */
  ghost predicate LinksHaveRules(g: Graph) {
    forall a, b | Linked(g.clients, a, b).Some? ::
      && a in g.clients && b in g.clients
      && HasRules(g.rules, Linked(g.clients, a, b).value, a, g.clients[a], b, g.clients[b])
  }

  ghost predicate HasRules(rules: Rules, l: Link, a: Addr, client: Client, b: Addr, peer: Client) {
    && (Filter, l.filter) in rules && rules[(Filter, l.filter)] == FilterRule(client.iface, a, b)
    && (Route, l.route) in rules && rules[(Route, l.route)] == RouteRule(peer.iface, a, b, l.header)
    && (Header, l.header) in rules && rules[(Header, l.header)] == HeaderRule(peer.iface, a, b, client.mac, peer.mac)
  }

  /** Every rule is recorded by some link. */
  ghost predicate RulesHaveLinks(g: Graph) {
    forall h | h in g.rules ::
      exists a, b :: Linked(g.clients, a, b).Some? && Linked(g.clients, a, b).value.Handle(h.0) == h
  }

  /** No two links record the same rule. */
  ghost predicate RulesAreNotShared(g: Graph) {
    forall a, b, x, y, k | Linked(g.clients, a, b).Some? && Linked(g.clients, x, y).Some? ::
      Linked(g.clients, a, b).value.Handle(k) == Linked(g.clients, x, y).value.Handle(k) ==> a == x && b == y
  }

  /** The hardware has exactly the rules that links record, each for the link that records it
    * and saying what it should; no rule was deleted that was not there, so none twice.
    */
  lemma RulesAreThoseOfLinks(graphs: seq<Graph>, events: seq<Event>, n: nat)
    requires IsRun(graphs, events) && n < |graphs|
    ensures var g := graphs[n];
      g.failedDeletes == 0 && LinksHaveRules(g) && RulesHaveLinks(g) && RulesAreNotShared(g)
  {
    hide IsRun, ListsOk, PeersOk, LinksOk, RulesOk, LinkedPairs, LinksHaveRules, RulesHaveLinks, RulesAreNotShared;
    RunKeepsInv(graphs, events, n);
    EachLinkHasItsRules(graphs[n]);
    EachRuleIsOfALink(graphs[n]);
    NoRuleIsSharedByLinks(graphs[n]);
  }

  lemma EachLinkHasItsRules(g: Graph)
    requires LinksOk(g.clients) && RulesOk(g.clients, g.rules)
    ensures LinksHaveRules(g)
  {
    hide Linked;
    OnlyClientsAreLinked(g.clients);
    forall a, b | Linked(g.clients, a, b).Some?
      ensures HasRules(g.rules, Linked(g.clients, a, b).value, a, g.clients[a], b, g.clients[b])
    {
      LinkLeadsThere(g.clients, a, b);
      LinkHasItsRules(g, a, b);
    }
  }

  lemma LinkHasItsRules(g: Graph, a: Addr, b: Addr)
    requires RulesOk(g.clients, g.rules) && a in g.clients && b in g.clients
    requires Linked(g.clients, a, b).Some? && Linked(g.clients, a, b).value.who == b
    ensures HasRules(g.rules, Linked(g.clients, a, b).value, a, g.clients[a], b, g.clients[b])
  {
    hide Linked;
    var l := Linked(g.clients, a, b).value;
    forall k: Kind
      ensures l.Handle(k) in g.rules && g.rules[l.Handle(k)] == RuleFor(k, a, g.clients[a], g.clients[b], l)
    {
    }
    assert l.Handle(Filter) == (Filter, l.filter) && l.Handle(Route) == (Route, l.route);
    assert l.Handle(Header) == (Header, l.header);
  }

  lemma EachRuleIsOfALink(g: Graph)
    requires RulesOk(g.clients, g.rules)
    ensures RulesHaveLinks(g)
  {
    hide Linked;
  }

  lemma NoRuleIsSharedByLinks(g: Graph)
    requires LinksOk(g.clients) && RulesOk(g.clients, g.rules)
    ensures RulesAreNotShared(g)
  {
    hide RulesOk, LinksOk, Linked, Link.Handle;
    forall a, b, x, y, k | Linked(g.clients, a, b).Some? && Linked(g.clients, x, y).Some?
      ensures Linked(g.clients, a, b).value.Handle(k) == Linked(g.clients, x, y).value.Handle(k) ==> a == x && b == y
    {
      RuleNamesItsLink(g, a, b, k);
      RuleNamesItsLink(g, x, y, k);
    }
  }

  lemma RuleNamesItsLink(g: Graph, a: Addr, b: Addr, k: Kind)
    requires LinksOk(g.clients) && RulesOk(g.clients, g.rules) && Linked(g.clients, a, b).Some?
    ensures var h := Linked(g.clients, a, b).value.Handle(k);
      h in g.rules && g.rules[h].from == a && g.rules[h].to == b
  {
    OnlyClientsAreLinked(g.clients);
    LinkLeadsThere(g.clients, a, b);
    hide Linked;
    var l := Linked(g.clients, a, b).value;
    assert g.rules[l.Handle(k)] == RuleFor(k, a, g.clients[a], g.clients[b], l);
  }
}
