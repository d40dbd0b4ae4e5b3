/** The graph of LAN clients whose traffic to each other is offloaded to hardware. Each client
  * has a list of peers, with the number of connections to each, and a list of links, with the
  * handles of the hardware rules for the traffic that it sends to the peer.
  */
module LanToLanGraph {
  import opened Options

  const MAX_OFFLOAD_PAIR := 3

  type Addr = int

  datatype Peer = Peer(who: Addr, numConnection: int)

  /** The rules for one direction: a filter, a route, and the header that the route puts on. */
  datatype Kind = Filter | Route | Header

  datatype Link = Link(who: Addr, filter: nat, route: nat, header: nat) {
    function Handle(k: Kind): (Kind, nat) {
      match k
      case Filter => (Filter, filter)
      case Route => (Route, route)
      case Header => (Header, header)
    }

    function Handles(): set<(Kind, nat)> {
      {Handle(Filter), Handle(Route), Handle(Header)}
    }
  }

  datatype Client = Client(mac: int, iface: int, active: bool, peers: seq<Peer>, links: seq<Link>)

  /** What a rule says: on which interface it is, and for whose traffic. */
  datatype Rule =
    | FilterRule(iface: int, from: Addr, to: Addr)
    | RouteRule(iface: int, from: Addr, to: Addr, header: nat)
    | HeaderRule(iface: int, from: Addr, to: Addr, fromMac: int, toMac: int)

  type Clients = map<Addr, Client>
  type Rules = map<(Kind, nat), Rule>

  /** One IP type's clients. `failedDeletes` counts deletions of rules that were not there. */
  datatype Graph = Graph(clients: Clients, numOffloadPair: int, rules: Rules, failedDeletes: nat)

  // ---- Lists ----

  /** Where the first entry for `b` is; the length of the list if there is none. */
  function PeerIndex(ps: seq<Peer>, b: Addr): (i: nat)
    ensures i <= |ps| && (i < |ps| ==> ps[i].who == b)
    ensures forall j | 0 <= j < i :: ps[j].who != b
  {
    if ps == [] || ps[0].who == b then 0 else PeerIndex(ps[1..], b) + 1
  }

  function LinkIndex(ls: seq<Link>, b: Addr): (i: nat)
    ensures i <= |ls| && (i < |ls| ==> ls[i].who == b)
    ensures forall j | 0 <= j < i :: ls[j].who != b
  {
    if ls == [] || ls[0].who == b then 0 else LinkIndex(ls[1..], b) + 1
  }

  function Without<T>(xs: seq<T>, i: nat): seq<T>
    requires i <= |xs|
  {
    if i == |xs| then xs else xs[..i] + xs[i + 1..]
  }

  /** How many connections to `b` a peer list counts. */
  function Connections(ps: seq<Peer>, b: Addr): int {
    var i := PeerIndex(ps, b);
    if i < |ps| then ps[i].numConnection else 0
  }

  function LinkTo(ls: seq<Link>, b: Addr): Option<Link> {
    var i := LinkIndex(ls, b);
    if i < |ls| then Some(ls[i]) else None
  }

  /** One connection more, with a new entry for the first. */
  function CountUp(ps: seq<Peer>, b: Addr): seq<Peer> {
    var i := PeerIndex(ps, b);
    if i < |ps| then ps[i := Peer(b, ps[i].numConnection + 1)] else ps + [Peer(b, 1)]
  }

  /** One connection less; the entry goes with the last. */
  function CountDown(ps: seq<Peer>, b: Addr): seq<Peer> {
    var i := PeerIndex(ps, b);
    if i == |ps| then ps
    else if ps[i].numConnection == 1 then Without(ps, i)
    else ps[i := Peer(b, ps[i].numConnection - 1)]
  }

  // ---- Rules ----

  /** What the hardware says to the three rules of a link: a handle, or a failure. */
  datatype Answer = Answer(header: Option<nat>, route: Option<nat>, filter: Option<nat>) {
    predicate Success() {
      header.Some? && route.Some? && filter.Some?
    }

    /** It gives out no handle that is in use. */
    ghost predicate Fresh(rules: Rules) {
      && (header.Some? ==> (Header, header.value) !in rules)
      && (route.Some? ==> (Route, route.value) !in rules)
      && (filter.Some? ==> (Filter, filter.value) !in rules)
    }
  }

  /** The rule of kind `k` for link `l` of the client at `a`. */
  function RuleFor(k: Kind, a: Addr, client: Client, peer: Client, l: Link): Rule {
    match k
    case Filter => FilterRule(client.iface, a, l.who)
    case Route => RouteRule(peer.iface, a, l.who, l.header)
    case Header => HeaderRule(peer.iface, a, l.who, client.mac, peer.mac)
  }

  function DeleteRules(rules: Rules, l: Link): Rules {
    rules - l.Handles()
  }

  /** How many of the three deletions fail. */
  function MissingRules(rules: Rules, l: Link): nat {
    (if l.Handle(Filter) in rules then 0 else 1)
    + (if l.Handle(Route) in rules then 0 else 1)
    + (if l.Handle(Header) in rules then 0 else 1)
  }

  // ---- Links ----

  datatype AddResult = AddResult(success: bool, graph: Graph)

  /** `add_offload_link`, one direction; it does all or nothing. */
  function AddOffloadLink(g: Graph, a: Addr, b: Addr, answer: Answer): (r: AddResult)
    requires a in g.clients && b in g.clients
    ensures r.graph.clients.Keys == g.clients.Keys
  {
    if g.numOffloadPair >= MAX_OFFLOAD_PAIR || !answer.Success() then AddResult(false, g)
    else
      var l := Link(b, answer.filter.value, answer.route.value, answer.header.value);
      var client, peer := g.clients[a], g.clients[b];
      AddResult(true,
        g.(clients := g.clients[a := client.(links := client.links + [l])],
           rules := g.rules[l.Handle(Header) := RuleFor(Header, a, client, peer, l)]
                           [l.Handle(Route) := RuleFor(Route, a, client, peer, l)]
                           [l.Handle(Filter) := RuleFor(Filter, a, client, peer, l)]))
  }

  /** Deletes the link from `a` to `b` and its rules, if there is one. */
  function DropLink(g: Graph, a: Addr, b: Addr): (g': Graph)
    requires a in g.clients
    ensures g'.clients.Keys == g.clients.Keys
  {
    var client := g.clients[a];
    var i := LinkIndex(client.links, b);
    if i == |client.links| then g
    else
      g.(clients := g.clients[a := client.(links := Without(client.links, i))],
         rules := DeleteRules(g.rules, client.links[i]),
         failedDeletes := g.failedDeletes + MissingRules(g.rules, client.links[i]))
  }

  /** `erase_offload_link`: both directions. */
  function EraseOffloadLink(g: Graph, a: Addr, b: Addr): (g': Graph)
    requires a in g.clients && b in g.clients
    ensures g'.clients.Keys == g.clients.Keys
  {
    var g1 := DropLink(g, a, b);
    var g2 := DropLink(g1, b, a);
    var both := LinkTo(g.clients[a].links, b).Some? && LinkTo(g1.clients[b].links, a).Some?;
    if both && g2.failedDeletes == g.failedDeletes then g2.(numOffloadPair := g2.numOffloadPair - 1) else g2
  }

  /** `turnoff_offload_links`: link after link, as long as they lead somewhere. */
  function TurnOffLinks(g: Graph, a: Addr): (g': Graph)
    requires a in g.clients
    ensures g'.clients.Keys == g.clients.Keys
    decreases |g.clients[a].links|
  {
    var links := g.clients[a].links;
    if links == [] || links[0].who !in g.clients then g
    else TurnOffLinks(EraseOffloadLink(g, a, links[0].who), a)
  }

  // ---- Peers ----

  /** `add_connection`. */
  function AddConnection(cs: Clients, a: Addr, b: Addr): Clients
    requires a in cs && b in cs
  {
    var cs1 := cs[a := cs[a].(peers := CountUp(cs[a].peers, b))];
    cs1[b := cs1[b].(peers := CountUp(cs1[b].peers, a))]
  }

  /** `remove_connection`. */
  function RemoveConnection(cs: Clients, a: Addr, b: Addr): Clients
    requires a in cs && b in cs
  {
    var cs1 := cs[a := cs[a].(peers := CountDown(cs[a].peers, b))];
    cs1[b := cs1[b].(peers := CountDown(cs1[b].peers, a))]
  }

  /** Takes `a` and `b` off each other's peer lists, however many connections they count. */
  function DropPeers(cs: Clients, a: Addr, b: Addr): (cs': Clients)
    requires a in cs && b in cs
    ensures cs'.Keys == cs.Keys
  {
    var cs1 := cs[a := cs[a].(peers := Without(cs[a].peers, PeerIndex(cs[a].peers, b)))];
    cs1[b := cs1[b].(peers := Without(cs1[b].peers, PeerIndex(cs1[b].peers, a)))]
  }

  /** `clear_peer_list`: peer after peer, as long as they lead somewhere. */
  function ClearPeers(cs: Clients, a: Addr): (cs': Clients)
    requires a in cs
    ensures cs'.Keys == cs.Keys
    decreases |cs[a].peers|
  {
    var peers := cs[a].peers;
    if peers == [] || peers[0].who !in cs then cs
    else ClearPeers(DropPeers(cs, a, peers[0].who), a)
  }

  // ---- Events ----

  /** Both directions of a first connection; a failed second direction is not undone. */
  function LinkBothWays(g: Graph, a: Addr, b: Addr, answers: (Answer, Answer)): Graph
    requires a in g.clients && b in g.clients
  {
    var r1 := AddOffloadLink(g, a, b, answers.0);
    if !r1.success then g
    else
      var r2 := AddOffloadLink(r1.graph, b, a, answers.1);
      if !r2.success then r1.graph
      else r2.graph.(numOffloadPair := g.numOffloadPair + 1)
  }

  function NewConnection(g: Graph, src: Addr, dst: Addr, answers: (Answer, Answer)): Graph {
    if src !in g.clients || dst !in g.clients then g
    else
      var cs := AddConnection(g.clients, src, dst);
      var first := |cs[src].peers| > |g.clients[src].peers| || |cs[dst].peers| > |g.clients[dst].peers|;
      if first && cs[src].active && cs[dst].active then LinkBothWays(g.(clients := cs), src, dst, answers)
      else g.(clients := cs)
  }

  function EraseIfUnused(cs: Clients, a: Addr): Clients {
    if a in cs && !cs[a].active && cs[a].peers == [] then cs - {a} else cs
  }

  function DelConnection(g: Graph, src: Addr, dst: Addr): Graph {
    if src !in g.clients || dst !in g.clients then g
    else
      var cs := RemoveConnection(g.clients, src, dst);
      var last := |cs[dst].peers| < |g.clients[dst].peers|;
      if !last then g.(clients := cs)
      else
        var g1 := g.(clients := cs);
        var g2 := if cs[src].active && cs[dst].active then EraseOffloadLink(g1, src, dst) else g1;
        g2.(clients := EraseIfUnused(EraseIfUnused(g2.clients, src), dst))
  }

  function ClientInactive(g: Graph, a: Addr): Graph {
    if a !in g.clients then g
    else
      var g1 := TurnOffLinks(g, a);
      g1.(clients := EraseIfUnused(g1.clients[a := g1.clients[a].(active := false)], a))
  }

  function ClientDisconnect(g: Graph, a: Addr): Graph {
    if a !in g.clients then g
    else
      var g1 := TurnOffLinks(g, a);
      g1.(clients := ClearPeers(g1.clients, a) - {a})
  }

  /** `check_potential_link` from peer `i` on: the second direction is tried whether or not the
    * first succeeded, and alone decides whether the pair counts.
    */
  function LinkPeers(g: Graph, a: Addr, i: nat, answers: seq<(Answer, Answer)>): Graph
    requires a in g.clients && i <= |g.clients[a].peers| <= |answers|
    decreases |g.clients[a].peers| - i
  {
    if i == |g.clients[a].peers| then g
    else LinkPeers(LinkPeer(g, a, i, answers[i]), a, i + 1, answers)
  }

  function LinkPeer(g: Graph, a: Addr, i: nat, answers: (Answer, Answer)): (g': Graph)
    requires a in g.clients && i < |g.clients[a].peers|
    ensures a in g'.clients && g'.clients[a].peers == g.clients[a].peers
  {
    var peer := g.clients[a].peers[i];
    if peer.who !in g.clients || !g.clients[peer.who].active || peer.numConnection <= 0 then g
    else
      var g1 := AddOffloadLink(g, a, peer.who, answers.0).graph;
      var r2 := AddOffloadLink(g1, peer.who, a, answers.1);
      if r2.success then r2.graph.(numOffloadPair := r2.graph.numOffloadPair + 1) else r2.graph
  }

  /** A client is (again) active; `answers` are for its peers, in order, should it have any. */
  function ClientActive(g: Graph, a: Addr, mac: int, iface: int, answers: seq<(Answer, Answer)>): Graph
    requires a in g.clients ==> |g.clients[a].peers| <= |answers|
  {
    if a !in g.clients then g.(clients := g.clients[a := Client(mac, iface, true, [], [])])
    else if g.clients[a].active then
      if g.clients[a].mac == mac then g
      else
        var g1 := TurnOffLinks(g, a);
        var cs := ClearPeers(g1.clients, a);
        g1.(clients := cs[a := cs[a].(mac := mac, iface := iface, active := true)])
    else
      var client := g.clients[a].(mac := mac, iface := iface, active := true);
      LinkPeers(g.(clients := g.clients[a := client]), a, 0, answers)
  }
}
