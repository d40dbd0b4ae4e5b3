/** The handlers of LAN-to-LAN events, as they edit the client table step by step. The client
  * table and its lists are values that the steps reassign, with addresses for pointers.
  */
module LanToLan {
  import opened Options
  import opened LanToLanGraph
  import opened LanToLanInvariant
  import opened LanToLanEvents
  import opened LanToLanWalks

  class LanToLan {
    var clients: Clients
    var numOffloadPair: int
    var rules: Rules          // what the hardware has
    var failedDeletes: nat    // how often the hardware had no such rule

    ghost function Value(): Graph
      reads this
    {
      Graph(clients, numOffloadPair, rules, failedDeletes)
    }

    constructor ()
      ensures Value() == Graph(map[], 0, map[], 0)
    {
      clients, numOffloadPair, rules, failedDeletes := map[], 0, map[], 0;
    }

    // ---- Searching lists ----

    static method FindPeer(ps: seq<Peer>, b: Addr) returns (i: nat)
      ensures i == PeerIndex(ps, b)
    {
      i := 0;
      while i < |ps| && ps[i].who != b
        invariant i <= |ps| && forall j | 0 <= j < i :: ps[j].who != b
      {
        i := i + 1;
      }
    }

    static method FindLink(ls: seq<Link>, b: Addr) returns (i: nat)
      ensures i == LinkIndex(ls, b)
    {
      i := 0;
      while i < |ls| && ls[i].who != b
        invariant i <= |ls| && forall j | 0 <= j < i :: ls[j].who != b
      {
        i := i + 1;
      }
    }

    // ---- Hardware rules ----

    method AddRule(k: Kind, answer: Option<nat>, rule: Rule) returns (success: bool)
      modifies this`rules
      ensures success <==> answer.Some?
      ensures rules == if success then old(rules)[(k, answer.value) := rule] else old(rules)
    {
      success := answer.Some?;
      if success {
        rules := rules[(k, answer.value) := rule];
      }
    }

    method DelRule(handle: (Kind, nat)) returns (success: bool)
      modifies this`rules, this`failedDeletes
      ensures rules == old(rules) - {handle}
      ensures success <==> handle in old(rules)
      ensures failedDeletes == old(failedDeletes) + if success then 0 else 1
    {
      success := handle in rules;
      if success {
        rules := rules - {handle};
      } else {
        failedDeletes := failedDeletes + 1;
      }
    }

    /** Three rules or none: what was added before a failure is deleted again. */
    method AddOffloadLink(a: Addr, b: Addr, answer: Answer) returns (success: bool)
      requires a in clients && b in clients && answer.Fresh(rules)
      modifies this`clients, this`rules, this`failedDeletes
      ensures var r := LanToLanGraph.AddOffloadLink(old(Value()), a, b, answer);
        success == r.success && Value() == r.graph
    {
      if numOffloadPair >= MAX_OFFLOAD_PAIR {
        return false;
      }
      var client, peer := clients[a], clients[b];
      var added := AddRule(Header, answer.header, HeaderRule(peer.iface, a, b, client.mac, peer.mac));
      if !added {
        return false;
      }
      var header := answer.header.value;
      added := AddRule(Route, answer.route, RouteRule(peer.iface, a, b, header));
      if !added {
        var _ := DelRule((Header, header));
        return false;
      }
      added := AddRule(Filter, answer.filter, FilterRule(client.iface, a, b));
      if !added {
        var _ := DelRule((Route, answer.route.value));
        var _ := DelRule((Header, header));
        return false;
      }
      var link := Link(b, answer.filter.value, answer.route.value, header);
      clients := clients[a := client.(links := client.links + [link])];
      return true;
    }

    method DelOffloadLink(link: Link) returns (success: bool)
      modifies this`rules, this`failedDeletes
      ensures rules == DeleteRules(old(rules), link)
      ensures failedDeletes == old(failedDeletes) + MissingRules(old(rules), link)
      ensures success <==> MissingRules(old(rules), link) == 0
    {
      success := true;
      var deleted := DelRule((Filter, link.filter));
      if !deleted {
        success := false;
      }
      deleted := DelRule((Route, link.route));
      if !deleted {
        success := false;
      }
      deleted := DelRule((Header, link.header));
      if !deleted {
        success := false;
      }
      assert rules == DeleteRules(old(rules), link);
    }

    /** One of the two searches of `erase_offload_link`. */
    method DropLink(a: Addr, b: Addr) returns (success: bool)
      requires a in clients
      modifies this`clients, this`rules, this`failedDeletes
      ensures Value() == LanToLanGraph.DropLink(old(Value()), a, b)
      ensures success <==> LinkTo(old(clients)[a].links, b).Some? && failedDeletes == old(failedDeletes)
    {
      var links := clients[a].links;
      var i := FindLink(links, b);
      if i == |links| {
        return false;
      }
      success := DelOffloadLink(links[i]);
      clients := clients[a := clients[a].(links := links[..i] + links[i + 1..])];
    }

    method EraseOffloadLink(src: Addr, dst: Addr)
      requires src in clients && dst in clients
      modifies this
      ensures Value() == LanToLanGraph.EraseOffloadLink(old(Value()), src, dst)
    {
      var srcSuccess := DropLink(src, dst);
      var dstSuccess := DropLink(dst, src);
      if srcSuccess && dstSuccess {
        numOffloadPair := numOffloadPair - 1;
      }
    }

    /** One link of the walk below: its rules go, and then the link back. */
    method TurnoffLink(a: Addr, link: Link) returns (success: bool)
      requires a in clients && link.who in clients && link.who != a
      modifies this
      ensures Walk(success, Value()) == TurnOffStep(old(Value()), a, link)
    {
      var peer := link.who;
      success := DelOffloadLink(link);
      if !success {
        return;
      }
      var links := clients[peer].links;
      var i := FindLink(links, a);
      if i == |links| {
        return false;
      }
      success := DelOffloadLink(links[i]);
      if !success {
        return;
      }
      clients := clients[peer := clients[peer].(links := links[..i] + links[i + 1..])];
      numOffloadPair := numOffloadPair - 1;
    }

    /** Walks the client's link list, which stays as it is until the walk is over. The walk ends
      * early, and leaves the list, when a rule is missing or a link back.
      */
    method TurnoffOffloadLinks(a: Addr) returns (success: bool)
      requires a in clients && LinksLead(clients, a)
      modifies this
      ensures Walk(success, Value()) == WalkLinks(old(Value()), a, 0)
    {
      hide TurnOffStep, WalkLinks, LinksLead;
      var links := clients[a].links;
      var i := 0;
      while i < |links|
        invariant i <= |links| && clients.Keys == old(clients).Keys && clients[a] == old(clients)[a]
        invariant LinksLead(clients, a) && WalkLinks(Value(), a, i) == WalkLinks(old(Value()), a, 0)
      {
        ghost var g := Value();
        LinkLeads(clients, a, i);
        success := TurnoffLink(a, links[i]);
        if !success {
          WalkStops(g, a, i);
          return;
        }
        WalkStepsOn(g, a, i);
        i := i + 1;
      }
      WalkIsOver(Value(), a);
      clients := clients[a := clients[a].(links := [])];
      return true;
    }

    // ---- Peers ----

    method ErasePeer(a: Addr, b: Addr) returns (found: bool)
      requires a in clients
      modifies this`clients
      ensures var peers := old(clients)[a].peers;
        && (found <==> PeerIndex(peers, b) < |peers|)
        && clients == if found then WithPeers(old(clients), a, Without(peers, PeerIndex(peers, b))) else old(clients)
    {
      var peers := clients[a].peers;
      var i := FindPeer(peers, b);
      found := i < |peers|;
      if found {
        clients := clients[a := clients[a].(peers := peers[..i] + peers[i + 1..])];
      }
    }

    /** Walks the client's peer list, which stays as it is until the walk is over. The walk ends
      * early, and leaves the list, when the client is not in a peer's list.
      */
    method ClearPeerList(a: Addr) returns (success: bool)
      requires a in clients && PeersLead(clients, a)
      modifies this`clients
      ensures Walk(success, Value()) == WalkPeers(old(Value()), a, 0)
    {
      hide Without, PeerIndex, WalkPeers, PeersLead;
      var peers := clients[a].peers;
      var i := 0;
      while i < |peers|
        invariant i <= |peers| && clients.Keys == old(clients).Keys && clients[a] == old(clients)[a]
        invariant PeersLead(clients, a) && WalkPeers(Value(), a, i) == WalkPeers(old(Value()), a, 0)
      {
        PeerWalkStepsOn(Value(), a, i);
        success := ErasePeer(peers[i].who, a);
        if !success {
          return;
        }
        i := i + 1;
      }
      PeerWalkIsOver(Value(), a);
      clients := clients[a := clients[a].(peers := [])];
      return true;
    }

    /** Counts a connection in the list of one end. */
    method CountConnection(a: Addr, b: Addr) returns (inserted: bool)
      requires a in clients
      modifies this`clients
      ensures clients == old(clients)[a := old(clients)[a].(peers := CountUp(old(clients)[a].peers, b))]
      ensures inserted <==> |CountUp(old(clients)[a].peers, b)| > |old(clients)[a].peers|
    {
      var peers := clients[a].peers;
      var i := FindPeer(peers, b);
      inserted := i == |peers|;
      if inserted {
        clients := clients[a := clients[a].(peers := peers + [Peer(b, 1)])];
      } else {
        var peer := peers[i].(numConnection := peers[i].numConnection + 1);
        clients := clients[a := clients[a].(peers := peers[i := peer])];
      }
    }

    method AddConnection(src: Addr, dst: Addr) returns (first: bool)
      requires src in clients && dst in clients && src != dst
      modifies this`clients
      ensures clients == LanToLanGraph.AddConnection(old(clients), src, dst)
      ensures first <==>
        || |clients[src].peers| > |old(clients)[src].peers|
        || |clients[dst].peers| > |old(clients)[dst].peers|
    {
      var srcInserted := CountConnection(src, dst);
      var dstInserted := CountConnection(dst, src);
      first := srcInserted || dstInserted;
    }

    method DiscountConnection(a: Addr, b: Addr) returns (erased: bool)
      requires a in clients
      modifies this`clients
      ensures clients == old(clients)[a := old(clients)[a].(peers := CountDown(old(clients)[a].peers, b))]
      ensures erased <==> |CountDown(old(clients)[a].peers, b)| < |old(clients)[a].peers|
    {
      var peers := clients[a].peers;
      var i := FindPeer(peers, b);
      erased := false;
      if i < |peers| {
        var peer := peers[i].(numConnection := peers[i].numConnection - 1);
        erased := peer.numConnection == 0;
        clients := clients[a := clients[a].(peers := if erased then peers[..i] + peers[i + 1..] else peers[i := peer])];
      } else {
        assert clients[a := clients[a].(peers := peers)] == clients;
      }
    }

    /** Whether an entry was removed is said of the second list only. */
    method RemoveConnection(src: Addr, dst: Addr) returns (last: bool)
      requires src in clients && dst in clients && src != dst
      modifies this`clients
      ensures clients == LanToLanGraph.RemoveConnection(old(clients), src, dst)
      ensures last <==> |clients[dst].peers| < |old(clients)[dst].peers|
    {
      var _ := DiscountConnection(src, dst);
      last := DiscountConnection(dst, src);
    }

    // ---- Events ----

    method HandleNewConnection(src: Addr, dst: Addr, answers: (Answer, Answer))
      requires src != dst && NewAnswersFresh(Value(), src, dst, answers)
      modifies this
      ensures Value() == NewConnection(old(Value()), src, dst, answers)
    {
      if src !in clients || dst !in clients {
        return;
      }
      hide LanToLanGraph.AddConnection, LanToLanGraph.AddOffloadLink, Answer.Fresh;
      var first := AddConnection(src, dst);
      if first && clients[src].active && clients[dst].active {
        var success := AddOffloadLink(src, dst, answers.0);
        if !success {
          return;
        }
        success := AddOffloadLink(dst, src, answers.1);
        if !success {
          return;
        }
        numOffloadPair := numOffloadPair + 1;
      }
    }

    method EraseUnused(a: Addr)
      modifies this`clients
      ensures clients == EraseIfUnused(old(clients), a)
    {
      if a in clients && !clients[a].active && |clients[a].peers| == 0 {
        clients := clients - {a};
      }
    }

    method HandleDelConnection(src: Addr, dst: Addr)
      requires src != dst
      modifies this
      ensures Value() == DelConnection(old(Value()), src, dst)
    {
      if src !in clients || dst !in clients {
        return;
      }
      hide LanToLanGraph.RemoveConnection, LanToLanGraph.EraseOffloadLink, EraseIfUnused;
      var last := RemoveConnection(src, dst);
      if last && clients[src].active && clients[dst].active {
        EraseOffloadLink(src, dst);
      }
      if last {
        EraseUnused(src);
        EraseUnused(dst);
      }
    }

    /** On a consistent graph, which is what `old(Inv(Value()))` says, the walks run to their end. */
    method HandleClientInactive(a: Addr)
      requires Leads(clients, a)
      modifies this
      ensures Value() == WalkInactive(old(Value()), a)
      ensures old(Inv(Value())) ==> Value() == ClientInactive(old(Value()), a) && Inv(Value())
    {
      if Inv(Value()) {
        InactiveKeepsInv(Value(), a);
        WalksMakeTheEvents(Value(), a);
      }
      hide Inv, ClientInactive;
      if a !in clients {
        return;
      }
      hide WalkInactive, LinksLead, PeersLead;
      TurnOffAndErase(a);
    }

    method TurnOffAndErase(a: Addr)
      requires a in clients && Leads(clients, a)
      modifies this
      ensures Value() == WalkInactive(old(Value()), a)
    {
      hide WalkLinks, LinksLead, PeersLead, EraseIfUnused;
      var _ := TurnoffOffloadLinks(a);
      clients := clients[a := clients[a].(active := false)];
      EraseUnused(a);
    }

    method TurnOffAndClear(a: Addr)
      requires a in clients && Leads(clients, a)
      modifies this
      ensures Value() == BothWalks(old(Value()), a)
    {
      hide WalkLinks, WalkPeers;
      var _ := TurnoffOffloadLinks(a);
      var _ := ClearPeerList(a);
    }

    method HandleClientDisconnect(a: Addr)
      requires Leads(clients, a)
      modifies this
      ensures Value() == WalkDisconnect(old(Value()), a)
      ensures old(Inv(Value())) ==> Value() == ClientDisconnect(old(Value()), a) && Inv(Value())
    {
      if Inv(Value()) {
        DisconnectForgetsClient(Value(), a);
        WalksMakeTheEvents(Value(), a);
      }
      hide Inv, BothWalks, Leads, ClientDisconnect;
      if a !in clients {
        return;
      }
      TurnOffAndClear(a);
      clients := clients - {a};
    }

    /** Both directions for one peer; only the second decides whether the pair is counted. */
    method LinkToPeer(a: Addr, i: nat, answers: (Answer, Answer))
      requires a in clients && i < |clients[a].peers|
      requires clients[a].peers[i].who in clients ==> FreshAnswers(Value(), a, clients[a].peers[i].who, answers)
      modifies this
      ensures Value() == LinkPeer(old(Value()), a, i, answers)
    {
      hide LanToLanGraph.AddOffloadLink, Answer.Fresh;
      var peer := clients[a].peers[i];
      if peer.who in clients && clients[peer.who].active && peer.numConnection > 0 {
        var success := AddOffloadLink(a, peer.who, answers.0);
        success := AddOffloadLink(peer.who, a, answers.1);
        if success {
          numOffloadPair := numOffloadPair + 1;
        }
      }
    }

    method CheckPotentialLink(a: Addr, answers: seq<(Answer, Answer)>)
      requires a in clients && |clients[a].peers| <= |answers| && PeerAnswersFresh(Value(), a, 0, answers)
      modifies this
      ensures Value() == LinkPeers(old(Value()), a, 0, answers)
    {
      hide LinkPeer, FreshAnswers;
      var i := 0;
      while i < |clients[a].peers|
        invariant a in clients && i <= |clients[a].peers| <= |answers| && PeerAnswersFresh(Value(), a, i, answers)
        invariant LinkPeers(Value(), a, i, answers) == LinkPeers(old(Value()), a, 0, answers)
        invariant clients[a].peers == old(clients)[a].peers
        decreases |old(clients)[a].peers| - i
      {
        LinkToPeer(a, i, answers[i]);
        i := i + 1;
      }
    }

    method HandleClientActive(a: Addr, mac: int, iface: int, answers: seq<(Answer, Answer)>)
      requires Leads(clients, a) && ActiveAnswersFresh(Value(), a, mac, iface, answers)
      modifies this
      ensures Value() == WalkActive(old(Value()), a, mac, iface, answers)
      ensures old(Inv(Value())) ==> Value() == ClientActive(old(Value()), a, mac, iface, answers)
      ensures old(Inv(Value()) && ActiveAnswersOk(Value(), a, mac, iface, answers)) ==> Inv(Value())
    {
      if Inv(Value()) {
        WalksMakeTheEvents(Value(), a);
        if ActiveAnswersOk(Value(), a, mac, iface, answers) {
          ActiveKeepsInv(Value(), a, mac, iface, answers);
        }
      }
      hide Inv, TurnOffLinks, ClearPeers, BothWalks, Leads, PeerAnswersFresh, PeerAnswersOk, LinkPeers;
      if a !in clients {
        clients := clients[a := Client(mac, iface, true, [], [])];
      } else if clients[a].active {
        if clients[a].mac != mac {
          TurnOffAndClear(a);
          clients := clients[a := clients[a].(mac := mac, iface := iface, active := true)];
        }
      } else {
        clients := clients[a := clients[a].(mac := mac, iface := iface, active := true)];
        CheckPotentialLink(a, answers);
      }
    }
  }
}
