/** What the offload graph keeps: connections are mutual, links are mutual and lead between
  * active peers, the counter counts the linked pairs, and the hardware has exactly the rules
  * that the links record.
  */
module LanToLanInvariant {
  import opened Options
  import opened LanToLanGraph

  // ---- The graph through its lists ----

  ghost function Connected(cs: Clients, a: Addr, b: Addr): int {
    if a in cs then Connections(cs[a].peers, b) else 0
  }

  ghost function Linked(cs: Clients, a: Addr, b: Addr): Option<Link> {
    if a in cs then LinkTo(cs[a].links, b) else None
  }

  ghost predicate PeerListOk(ps: seq<Peer>) {
    && (forall i, j | 0 <= i < j < |ps| :: ps[i].who != ps[j].who)
    && (forall i | 0 <= i < |ps| :: ps[i].numConnection > 0)
  }

  ghost predicate LinkListOk(ls: seq<Link>) {
    forall i, j | 0 <= i < j < |ls| :: ls[i].who != ls[j].who
  }

  /** No list has two entries for the same client. */
  ghost predicate ListsOk(cs: Clients) {
    forall a | a in cs :: PeerListOk(cs[a].peers) && LinkListOk(cs[a].links)
  }

  /** Peers are mutual, with equal and positive counts, and nobody is their own peer. */
  ghost predicate PeersOk(cs: Clients) {
    forall a, b ::
      && 0 <= Connected(cs, a, b) == Connected(cs, b, a)
      && (Connected(cs, a, b) > 0 ==> a in cs && b in cs && a != b)
  }

  /** Links are mutual and lead between connected, active clients. */
  ghost predicate LinksOk(cs: Clients) {
    forall a, b | Linked(cs, a, b).Some? ::
      && Linked(cs, b, a).Some?
      && Connected(cs, a, b) > 0
      && a in cs && cs[a].active
  }

  ghost function LinkedPairs(cs: Clients): set<(Addr, Addr)> {
    set a, b | a in cs && b in cs && a < b && Linked(cs, a, b).Some? :: (a, b)
  }

  /** The rules of every link are there and say what they should, and there are no others. */
  ghost predicate RulesOk(cs: Clients, rules: Rules) {
    && (forall a, b, k | Linked(cs, a, b).Some? && a in cs && b in cs ::
          var l := Linked(cs, a, b).value;
          l.Handle(k) in rules && rules[l.Handle(k)] == RuleFor(k, a, cs[a], cs[b], l))
    && (forall h | h in rules ::
          var l := Linked(cs, rules[h].from, rules[h].to);
          l.Some? && l.value.Handle(h.0) == h)
  }

  ghost predicate Inv(g: Graph) {
    && ListsOk(g.clients) && PeersOk(g.clients) && LinksOk(g.clients)
    && g.numOffloadPair == |LinkedPairs(g.clients)| <= MAX_OFFLOAD_PAIR
    && RulesOk(g.clients, g.rules)
    && g.failedDeletes == 0
  }

  // ---- Lists ----

  lemma WithoutNothing<T>(xs: seq<T>)
    ensures Without(xs, |xs|) == xs
  {
  }

  lemma WithoutLength<T>(xs: seq<T>, i: nat)
    requires i < |xs|
    ensures |Without(xs, i)| == |xs| - 1
  {
  }

  lemma WithoutAt<T>(xs: seq<T>, i: nat, m: nat)
    requires i < |xs| && m < |xs| - 1
    ensures |Without(xs, i)| == |xs| - 1 && Without(xs, i)[m] == xs[if m < i then m else m + 1]
  {
  }

  lemma EntryIsFound(ps: seq<Peer>, i: nat)
    requires PeerListOk(ps) && i < |ps|
    ensures PeerIndex(ps, ps[i].who) == i && Connections(ps, ps[i].who) == ps[i].numConnection > 0
  {
  }

  lemma NoEntryIsFound(ps: seq<Peer>, x: Addr)
    requires forall i | 0 <= i < |ps| :: ps[i].who != x
    ensures PeerIndex(ps, x) == |ps| && Connections(ps, x) == 0
  {
  }

  lemma LinkIsFound(ls: seq<Link>, i: nat)
    requires LinkListOk(ls) && i < |ls|
    ensures LinkIndex(ls, ls[i].who) == i && LinkTo(ls, ls[i].who) == Some(ls[i])
  {
  }

  lemma NoLinkIsFound(ls: seq<Link>, x: Addr)
    requires forall i | 0 <= i < |ls| :: ls[i].who != x
    ensures LinkIndex(ls, x) == |ls| && LinkTo(ls, x) == None
  {
  }

  lemma CountUpCounts(ps: seq<Peer>, b: Addr, x: Addr)
    requires PeerListOk(ps)
    ensures PeerListOk(CountUp(ps, b))
    ensures Connections(CountUp(ps, b), x) == Connections(ps, x) + if x == b then 1 else 0
    ensures |CountUp(ps, b)| > |ps| <==> Connections(ps, b) == 0
  {
    hide Connections, PeerIndex;
    var i, j, ps' := PeerIndex(ps, b), PeerIndex(ps, x), CountUp(ps, b);
    assert forall m | 0 <= m < |ps| && m != i :: ps'[m] == ps[m];
    if i < |ps| {
      EntryIsFound(ps, i);
      EntryIsFound(ps', i);
    } else {
      NoEntryIsFound(ps, b);
      EntryIsFound(ps', |ps|);
    }
    if x != b {
      if j < |ps| {
        EntryIsFound(ps, j);
        EntryIsFound(ps', j);
      } else {
        NoEntryIsFound(ps, x);
        NoEntryIsFound(ps', x);
      }
    }
  }

  lemma CountDownCounts(ps: seq<Peer>, b: Addr, x: Addr)
    requires PeerListOk(ps)
    ensures PeerListOk(CountDown(ps, b))
    ensures Connections(CountDown(ps, b), x) == Connections(ps, x) - if x == b && Connections(ps, b) > 0 then 1 else 0
    ensures |CountDown(ps, b)| == |ps| - if Connections(ps, b) == 1 then 1 else 0
  {
    var i, j, ps' := PeerIndex(ps, b), PeerIndex(ps, x), CountDown(ps, b);
    if i == |ps| {
      NoEntryIsFound(ps, b);
    } else if ps[i].numConnection == 1 {
      WithoutPeerCounts(ps, b, x);
    } else {
      EntryIsFound(ps, i);
      EntryIsFound(ps', i);
      if x != b {
        if j < |ps| {
          EntryIsFound(ps, j);
          EntryIsFound(ps', j);
        } else {
          NoEntryIsFound(ps', x);
        }
      }
    }
  }

  lemma WithoutPeerCounts(ps: seq<Peer>, b: Addr, x: Addr)
    requires PeerListOk(ps)
    ensures var ps' := Without(ps, PeerIndex(ps, b));
      PeerListOk(ps') && Connections(ps', x) == if x == b then 0 else Connections(ps, x)
  {
    hide Connections, Without, PeerIndex;
    var i, j := PeerIndex(ps, b), PeerIndex(ps, x);
    var ps' := Without(ps, i);
    if i == |ps| {
      WithoutNothing(ps);
      NoEntryIsFound(ps, b);
    } else {
      WithoutLength(ps, i);
      forall m, n | 0 <= m < n < |ps'|
        ensures ps'[m].who != ps'[n].who
      {
        WithoutAt(ps, i, m);
        WithoutAt(ps, i, n);
      }
      forall m | 0 <= m < |ps'|
        ensures ps'[m].numConnection > 0
      {
        WithoutAt(ps, i, m);
      }
      WithoutPeerFinds(ps, b, x);
    }
  }

  lemma WithoutPeerFinds(ps: seq<Peer>, b: Addr, x: Addr)
    requires PeerListOk(ps) && PeerIndex(ps, b) < |ps| && PeerListOk(Without(ps, PeerIndex(ps, b)))
    ensures Connections(Without(ps, PeerIndex(ps, b)), x) == if x == b then 0 else Connections(ps, x)
  {
    hide Connections, Without, PeerIndex;
    var i, j := PeerIndex(ps, b), PeerIndex(ps, x);
    var ps' := Without(ps, i);
    WithoutLength(ps, i);
    if x != b && j < |ps| {
      var j' := if j < i then j else j - 1;
      WithoutAt(ps, i, j');
      EntryIsFound(ps, j);
      EntryIsFound(ps', j');
    } else {
      forall m | 0 <= m < |ps'|
        ensures ps'[m].who != x
      {
        WithoutAt(ps, i, m);
      }
      NoEntryIsFound(ps', x);
      if x != b {
        NoEntryIsFound(ps, x);
      }
    }
  }

  lemma AppendedLink(ls: seq<Link>, l: Link, x: Addr)
    requires LinkListOk(ls) && LinkTo(ls, l.who).None?
    ensures LinkListOk(ls + [l])
    ensures LinkTo(ls + [l], x) == if x == l.who then Some(l) else LinkTo(ls, x)
  {
    var j := LinkIndex(ls, x);
    if j < |ls| {
      LinkIsFound(ls, j);
      LinkIsFound(ls + [l], j);
    } else if x == l.who {
      LinkIsFound(ls + [l], |ls|);
    } else {
      NoLinkIsFound(ls + [l], x);
    }
  }

  lemma WithoutLink(ls: seq<Link>, b: Addr, x: Addr)
    requires LinkListOk(ls)
    ensures var ls' := Without(ls, LinkIndex(ls, b));
      LinkListOk(ls') && LinkTo(ls', x) == if x == b then None else LinkTo(ls, x)
  {
    hide LinkTo, Without, LinkIndex;
    var i, j := LinkIndex(ls, b), LinkIndex(ls, x);
    var ls' := Without(ls, i);
    if i == |ls| {
      WithoutNothing(ls);
      NoLinkIsFound(ls, b);
    } else {
      WithoutLength(ls, i);
      forall m, n | 0 <= m < n < |ls'|
        ensures ls'[m].who != ls'[n].who
      {
        WithoutAt(ls, i, m);
        WithoutAt(ls, i, n);
      }
      WithoutLinkFinds(ls, b, x);
    }
  }

  lemma WithoutLinkFinds(ls: seq<Link>, b: Addr, x: Addr)
    requires LinkListOk(ls) && LinkIndex(ls, b) < |ls| && LinkListOk(Without(ls, LinkIndex(ls, b)))
    ensures LinkTo(Without(ls, LinkIndex(ls, b)), x) == if x == b then None else LinkTo(ls, x)
  {
    hide LinkTo, Without, LinkIndex;
    var i, j := LinkIndex(ls, b), LinkIndex(ls, x);
    var ls' := Without(ls, i);
    WithoutLength(ls, i);
    if x != b && j < |ls| {
      var j' := if j < i then j else j - 1;
      WithoutAt(ls, i, j');
      LinkIsFound(ls, j);
      LinkIsFound(ls', j');
    } else {
      forall m | 0 <= m < |ls'|
        ensures ls'[m].who != x
      {
        WithoutAt(ls, i, m);
      }
      NoLinkIsFound(ls', x);
      if x != b {
        NoLinkIsFound(ls, x);
      }
    }
  }

  // ---- Changes of one edge ----

  /** The same clients, but for their peer lists. */
  ghost predicate SameButPeers(cs: Clients, cs': Clients) {
    cs'.Keys == cs.Keys && forall x | x in cs :: cs'[x] == cs[x].(peers := cs'[x].peers)
  }

  ghost predicate SameButLinks(cs: Clients, cs': Clients) {
    cs'.Keys == cs.Keys && forall x | x in cs :: cs'[x] == cs[x].(links := cs'[x].links)
  }

  /** These clients are still the same, but for their lists. */
  ghost predicate SameEntries(cs: Clients, cs': Clients, still: set<Addr>) {
    forall x | x in still ::
      x in cs && x in cs' && cs'[x] == cs[x].(peers := cs'[x].peers, links := cs'[x].links)
  }

  ghost predicate IsEdge(x: Addr, y: Addr, a: Addr, b: Addr) {
    (x == a && y == b) || (x == b && y == a)
  }

  /** `n` connections between `a` and `b` now, and the others as before. */
  ghost predicate ConnectionsBecome(cs: Clients, cs': Clients, a: Addr, b: Addr, n: int) {
    forall x, y :: Connected(cs', x, y) == if IsEdge(x, y, a, b) then n else Connected(cs, x, y)
  }

  lemma AddConnectionCounts(cs: Clients, a: Addr, b: Addr)
    requires ListsOk(cs) && PeersOk(cs) && a in cs && b in cs && a != b
    ensures var cs' := AddConnection(cs, a, b);
      && ListsOk(cs') && SameButPeers(cs, cs')
      && ConnectionsBecome(cs, cs', a, b, Connected(cs, a, b) + 1)
      && (|cs'[a].peers| > |cs[a].peers| <==> Connected(cs, a, b) == 0)
      && (|cs'[b].peers| > |cs[b].peers| <==> Connected(cs, a, b) == 0)
  {
    hide CountUp, Connections, PeerListOk, LinkListOk;
    var cs' := AddConnection(cs, a, b);
    assert Connected(cs, a, b) == Connected(cs, b, a);
    forall x, y
      ensures Connected(cs', x, y) == if IsEdge(x, y, a, b) then Connected(cs, a, b) + 1 else Connected(cs, x, y)
    {
      CountUpCounts(cs[a].peers, b, y);
      CountUpCounts(cs[b].peers, a, y);
    }
    CountUpCounts(cs[a].peers, b, b);
    CountUpCounts(cs[b].peers, a, a);
  }

  lemma RemoveConnectionCounts(cs: Clients, a: Addr, b: Addr)
    requires ListsOk(cs) && PeersOk(cs) && a in cs && b in cs && a != b
    ensures var cs' := RemoveConnection(cs, a, b);
      && ListsOk(cs') && SameButPeers(cs, cs')
      && ConnectionsBecome(cs, cs', a, b, if Connected(cs, a, b) == 0 then 0 else Connected(cs, a, b) - 1)
      && |cs'[a].peers| == |cs[a].peers| - (if Connected(cs, a, b) == 1 then 1 else 0)
      && |cs'[b].peers| == |cs[b].peers| - (if Connected(cs, a, b) == 1 then 1 else 0)
  {
    hide CountDown, Connections, PeerListOk, LinkListOk;
    var cs' := RemoveConnection(cs, a, b);
    assert 0 <= Connected(cs, a, b) == Connected(cs, b, a);
    var n := if Connected(cs, a, b) == 0 then 0 else Connected(cs, a, b) - 1;
    forall x, y
      ensures Connected(cs', x, y) == if IsEdge(x, y, a, b) then n else Connected(cs, x, y)
    {
      CountDownCounts(cs[a].peers, b, y);
      CountDownCounts(cs[b].peers, a, y);
    }
    CountDownCounts(cs[a].peers, b, b);
    CountDownCounts(cs[b].peers, a, a);
  }

  lemma DropPeersCounts(cs: Clients, a: Addr, b: Addr)
    requires ListsOk(cs) && a in cs && b in cs && a != b
    ensures var cs' := DropPeers(cs, a, b);
      ListsOk(cs') && SameButPeers(cs, cs') && ConnectionsBecome(cs, cs', a, b, 0)
  {
    hide Without, Connections, PeerListOk, LinkListOk, PeerIndex;
    var cs' := DropPeers(cs, a, b);
    forall x, y
      ensures Connected(cs', x, y) == if IsEdge(x, y, a, b) then 0 else Connected(cs, x, y)
    {
      WithoutPeerCounts(cs[a].peers, b, y);
      WithoutPeerCounts(cs[b].peers, a, y);
    }
    WithoutPeerCounts(cs[a].peers, b, b);
    WithoutPeerCounts(cs[b].peers, a, a);
  }

  /** A change of peer lists keeps everything, if linked clients stay connected. */
  lemma ConnectionsKeepInv(g: Graph, cs': Clients, a: Addr, b: Addr, n: nat)
    requires Inv(g) && ListsOk(cs') && SameButPeers(g.clients, cs') && ConnectionsBecome(g.clients, cs', a, b, n)
    requires a in g.clients && b in g.clients && a != b
    requires n > 0 || Linked(g.clients, a, b).None?
    ensures Inv(g.(clients := cs'))
    ensures forall x, y :: Linked(cs', x, y) == Linked(g.clients, x, y)
  {
    hide Connections, LinkTo, PeerListOk, LinkListOk;
    var cs := g.clients;
    assert forall x, y :: Linked(cs', x, y) == Linked(cs, x, y);
    assert LinkedPairs(cs') == LinkedPairs(cs);
    assert Connected(cs, a, b) == Connected(cs, b, a);
    assert PeersOk(cs');
    assert LinksOk(cs') by {
      assert Linked(cs, b, a).Some? ==> Linked(cs, a, b).Some?;
    }
    hide Linked, Connected, ListsOk;
    RulesStayOk(cs, cs', g.rules);
  }

  /** Interfaces and addresses are all that the rules depend on, besides the links. */
  lemma RulesStayOk(cs: Clients, cs': Clients, rules: Rules)
    requires RulesOk(cs, rules)
    requires forall x, y :: Linked(cs', x, y) == Linked(cs, x, y)
    requires forall x, y | Linked(cs, x, y).Some? && x in cs' && y in cs' ::
      && x in cs && y in cs && cs'[x].mac == cs[x].mac && cs'[x].iface == cs[x].iface
      && cs'[y].mac == cs[y].mac && cs'[y].iface == cs[y].iface
    ensures RulesOk(cs', rules)
  {
    hide Linked;
  }

  // ---- Links of one direction ----

  ghost predicate LinkBecomes(cs: Clients, cs': Clients, a: Addr, b: Addr, l: Option<Link>) {
    forall x, y :: Linked(cs', x, y) == if x == a && y == b then l else Linked(cs, x, y)
  }

  /** Deleting a link deletes exactly its rules, and they are there to be deleted. */
  lemma DropLinkKeepsRules(g: Graph, a: Addr, b: Addr)
    requires ListsOk(g.clients) && RulesOk(g.clients, g.rules)
    requires a in g.clients && b in g.clients
    ensures var g' := DropLink(g, a, b);
      && ListsOk(g'.clients) && RulesOk(g'.clients, g'.rules) && SameButLinks(g.clients, g'.clients)
      && LinkBecomes(g.clients, g'.clients, a, b, None)
      && g'.failedDeletes == g.failedDeletes && g'.numOffloadPair == g.numOffloadPair
  {
    hide PeerListOk, LinkListOk, Without;
    var g', ls := DropLink(g, a, b), g.clients[a].links;
    forall x, y
      ensures Linked(g'.clients, x, y) == if x == a && y == b then None else Linked(g.clients, x, y)
    {
      WithoutLink(ls, b, y);
    }
    WithoutLink(ls, b, b);
    hide LinkTo, LinkIndex;
    if Linked(g.clients, a, b).Some? {
      var l := Linked(g.clients, a, b).value;
      LinkToSays(ls, b);
      RulesWithout(g.clients, g'.clients, g.rules, a, b, l);
    }
  }

  lemma LinkToSays(ls: seq<Link>, b: Addr)
    ensures LinkTo(ls, b).Some? ==>
      && LinkIndex(ls, b) < |ls| && LinkTo(ls, b).value == ls[LinkIndex(ls, b)] && LinkTo(ls, b).value.who == b
    ensures LinkTo(ls, b).None? ==> LinkIndex(ls, b) == |ls|
  {
  }

  lemma LinkLeadsThere(cs: Clients, a: Addr, b: Addr)
    ensures Linked(cs, a, b).Some? ==> Linked(cs, a, b).value.who == b
  {
    if a in cs {
      LinkToSays(cs[a].links, b);
    }
  }

  lemma RulesWithout(cs: Clients, cs': Clients, rules: Rules, a: Addr, b: Addr, l: Link)
    requires RulesOk(cs, rules) && a in cs && b in cs && Linked(cs, a, b) == Some(l) && l.who == b
    requires SameButLinks(cs, cs') && LinkBecomes(cs, cs', a, b, None)
    ensures RulesOk(cs', DeleteRules(rules, l)) && MissingRules(rules, l) == 0
  {
    hide Linked;
    var rules' := DeleteRules(rules, l);
    forall k: Kind
      ensures l.Handle(k) in rules && rules[l.Handle(k)].from == a && rules[l.Handle(k)].to == b
    {
    }
    forall x, y, k | Linked(cs', x, y).Some? && x in cs' && y in cs'
      ensures var m := Linked(cs', x, y).value;
        m.Handle(k) in rules' && rules'[m.Handle(k)] == RuleFor(k, x, cs'[x], cs'[y], m)
    {
      var m := Linked(cs, x, y).value;
      LinkLeadsThere(cs, x, y);
      assert rules[m.Handle(k)] == RuleFor(k, x, cs[x], cs[y], m);
    }
    forall h | h in rules'
      ensures var m := Linked(cs', rules'[h].from, rules'[h].to);
        m.Some? && m.value.Handle(h.0) == h
    {
      assert Linked(cs, rules[h].from, rules[h].to).value.Handle(h.0) == h;
      assert l.Handle(h.0) !in rules';
    }
  }

  /** A successful addition adds one link and exactly its three rules. */
  lemma AddOffloadLinkKeepsRules(g: Graph, a: Addr, b: Addr, answer: Answer)
    requires ListsOk(g.clients) && RulesOk(g.clients, g.rules) && a in g.clients && b in g.clients
    requires Linked(g.clients, a, b).None? && answer.Fresh(g.rules)
    ensures var r := AddOffloadLink(g, a, b, answer);
      && (r.success <==> g.numOffloadPair < MAX_OFFLOAD_PAIR && answer.Success())
      && (!r.success ==> r.graph == g)
      && (r.success ==>
            && ListsOk(r.graph.clients) && RulesOk(r.graph.clients, r.graph.rules)
            && SameButLinks(g.clients, r.graph.clients)
            && Linked(r.graph.clients, a, b).Some?
            && LinkBecomes(g.clients, r.graph.clients, a, b, Linked(r.graph.clients, a, b))
            && r.graph.failedDeletes == g.failedDeletes && r.graph.numOffloadPair == g.numOffloadPair)
  {
    hide PeerListOk, LinkListOk;
    var r := AddOffloadLink(g, a, b, answer);
    if r.success {
      var l := Link(b, answer.filter.value, answer.route.value, answer.header.value);
      var ls, cs' := g.clients[a].links, r.graph.clients;
      forall x, y
        ensures Linked(cs', x, y) == if x == a && y == b then Some(l) else Linked(g.clients, x, y)
      {
        AppendedLink(ls, l, y);
      }
      AppendedLink(ls, l, b);
      hide LinkTo, LinkIndex;
      RulesWith(g.clients, cs', g.rules, r.graph.rules, a, b, l);
    }
  }

  lemma RulesWith(cs: Clients, cs': Clients, rules: Rules, rules': Rules, a: Addr, b: Addr, l: Link)
    requires RulesOk(cs, rules) && a in cs && b in cs && l.who == b && Linked(cs, a, b).None?
    requires SameButLinks(cs, cs') && LinkBecomes(cs, cs', a, b, Some(l))
    requires forall k: Kind :: l.Handle(k) !in rules
    requires rules' == rules[l.Handle(Header) := RuleFor(Header, a, cs[a], cs[b], l)]
                            [l.Handle(Route) := RuleFor(Route, a, cs[a], cs[b], l)]
                            [l.Handle(Filter) := RuleFor(Filter, a, cs[a], cs[b], l)]
    ensures RulesOk(cs', rules')
  {
    hide Linked;
    forall k: Kind
      ensures l.Handle(k) in rules' && rules'[l.Handle(k)] == RuleFor(k, a, cs[a], cs[b], l)
    {
    }
    forall x, y, k | Linked(cs', x, y).Some? && x in cs' && y in cs'
      ensures var m := Linked(cs', x, y).value;
        m.Handle(k) in rules' && rules'[m.Handle(k)] == RuleFor(k, x, cs'[x], cs'[y], m)
    {
      if !(x == a && y == b) {
        var m := Linked(cs, x, y).value;
        assert rules[m.Handle(k)] == RuleFor(k, x, cs[x], cs[y], m);
      }
    }
    forall h | h in rules'
      ensures var m := Linked(cs', rules'[h].from, rules'[h].to);
        m.Some? && m.value.Handle(h.0) == h
    {
      if h in rules {
        assert Linked(cs, rules[h].from, rules[h].to).value.Handle(h.0) == h;
      } else {
        assert h == l.Handle(h.0);
      }
    }
  }

  // ---- Links of both directions ----

  ghost function Ordered(a: Addr, b: Addr): (Addr, Addr) {
    if a < b then (a, b) else (b, a)
  }

  /** Changing both directions of an edge between different clients. */
  ghost predicate LinksBecome(cs: Clients, cs': Clients, a: Addr, b: Addr, both: bool) {
    && SameButLinks(cs, cs')
    && Linked(cs', a, b).Some? == Linked(cs', b, a).Some? == both
    && forall x, y | !IsEdge(x, y, a, b) :: Linked(cs', x, y) == Linked(cs, x, y)
  }

  lemma PairsAfterChange(cs: Clients, cs': Clients, a: Addr, b: Addr, both: bool)
    requires LinksBecome(cs, cs', a, b, both) && a in cs && b in cs && a != b
    requires Linked(cs, a, b).Some? == Linked(cs, b, a).Some? == !both
    ensures |LinkedPairs(cs')| == |LinkedPairs(cs)| + if both then 1 else -1
  {
    if both {
      OnePairMore(cs, cs', a, b);
    } else {
      OnePairMore(cs', cs, a, b);
    }
  }

  lemma OnePairMore(less: Clients, more: Clients, a: Addr, b: Addr)
    requires less.Keys == more.Keys && a in less && b in less && a != b
    requires Linked(less, a, b).None? && Linked(less, b, a).None?
    requires Linked(more, a, b).Some? && Linked(more, b, a).Some?
    requires forall x, y | !IsEdge(x, y, a, b) :: Linked(more, x, y) == Linked(less, x, y)
    ensures LinkedPairs(more) == LinkedPairs(less) + {Ordered(a, b)}
    ensures |LinkedPairs(more)| == |LinkedPairs(less)| + 1
  {
    hide Linked;
    forall x, y
      ensures (x, y) in LinkedPairs(more) <==> (x, y) in LinkedPairs(less) || (x, y) == Ordered(a, b)
    {
    }
    assert Ordered(a, b) !in LinkedPairs(less);
  }

  lemma LinksStayOk(cs: Clients, cs': Clients, a: Addr, b: Addr, both: bool)
    requires PeersOk(cs) && LinksOk(cs) && LinksBecome(cs, cs', a, b, both) && a in cs && b in cs
    requires both ==> Connected(cs, a, b) > 0 && cs[a].active && cs[b].active
    ensures PeersOk(cs') && LinksOk(cs')
  {
    hide Linked, Connections;
    assert forall x, y :: Connected(cs', x, y) == Connected(cs, x, y);
    hide Connected;
  }

  /** `erase_offload_link` takes both directions of a link away, or does nothing if there is none. */
  lemma EraseKeepsInv(g: Graph, a: Addr, b: Addr)
    requires Inv(g) && a in g.clients && b in g.clients && a != b
    ensures var g' := EraseOffloadLink(g, a, b);
      && Inv(g') && LinksBecome(g.clients, g'.clients, a, b, false)
      && g'.numOffloadPair == g.numOffloadPair - (if Linked(g.clients, a, b).Some? then 1 else 0)
  {
    hide PeerListOk, LinkListOk, RulesOk, ListsOk, DropLink, PeersOk, LinkTo;
    var g1, g' := DropLink(g, a, b), EraseOffloadLink(g, a, b);
    DropLinkKeepsRules(g, a, b);
    DropLinkKeepsRules(g1, b, a);
    assert LinksBecome(g.clients, g'.clients, a, b, false);
    assert Linked(g.clients, a, b).Some? ==> Linked(g.clients, b, a).Some?;
    assert Linked(g.clients, b, a).Some? ==> Linked(g.clients, a, b).Some?;
    LinksStayOk(g.clients, g'.clients, a, b, false);
    if Linked(g.clients, a, b).Some? {
      PairsAfterChange(g.clients, g'.clients, a, b, false);
    } else {
      hide LinksOk;
      assert forall x, y :: Linked(g'.clients, x, y) == Linked(g.clients, x, y);
      assert LinkedPairs(g'.clients) == LinkedPairs(g.clients);
    }
  }
}
