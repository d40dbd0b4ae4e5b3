/** What can follow when the hardware takes the rules of one direction of a pair and refuses those
  * of the other: a client may be erased to which another one still has a link.
  */
module LanToLanRefusals {
  import opened Options
  import opened LanToLanGraph
  import opened LanToLanInvariant
  import opened LanToLanEvents
  import opened LanToLanWalks
  import opened LanToLanEffects
  import opened LanToLanRuns

  /** No list has an address that is not in the table. */
  ghost predicate NoneDangles(cs: Clients) {
    forall x | x in cs :: Leads(cs, x)
  }

  ghost predicate LinksToPeers(cs: Clients) {
    forall x, y | Linked(cs, x, y).Some? :: Connected(cs, x, y) > 0
  }

  /** Consistent but for links of one direction only. */
  ghost predicate Sound(g: Graph) {
    ListsOk(g.clients) && RulesOk(g.clients, g.rules) && PeersOk(g.clients) && LinksToPeers(g.clients)
  }

  /** The first link from `i` on that has no link back. */
  ghost function FirstUnanswered(cs: Clients, a: Addr, i: nat): (k: nat)
    requires a in cs && i <= |cs[a].links|
    ensures i <= k <= |cs[a].links|
    decreases |cs[a].links| - i
  {
    if i == |cs[a].links| || Linked(cs, cs[a].links[i].who, a).None? then i else FirstUnanswered(cs, a, i + 1)
  }

  /** The walk over the links of `a`, from `i` on, comes to `x` before it ends. */
  ghost predicate Reaches(cs: Clients, a: Addr, i: nat, x: Addr)
    requires a in cs && i <= |cs[a].links|
  {
    i <= LinkIndex(cs[a].links, x) < FirstUnanswered(cs, a, i)
  }

  /** Everyone with a link to `a` is reached. */
  ghost predicate AllAnswered(cs: Clients, a: Addr)
    requires a in cs
  {
    forall x | Linked(cs, x, a).Some? :: Reaches(cs, a, 0, x)
  }

  // ---- The walk over the links ----

  lemma AnsweredStep(g: Graph, a: Addr, l: Link, rest: seq<Link>)
    requires a in g.clients && l.who in g.clients && l.who != a && Linked(g.clients, l.who, a).Some?
    requires var h := WithLinks(g, a, [l] + rest); ListsOk(h.clients) && RulesOk(h.clients, h.rules)
    ensures var w := TurnOffStep(g, a, l);
      var h' := WithLinks(w.graph, a, rest);
      && w.success && ListsOk(h'.clients) && RulesOk(h'.clients, h'.rules)
      && (forall x, y | x != a :: Linked(w.graph.clients, x, y) == if x == l.who && y == a then None else Linked(g.clients, x, y))
      && RulesGo(g.rules, w.graph.rules, a, l.who, true)
      && w.graph.numOffloadPair == g.numOffloadPair - 1 && w.graph.failedDeletes == g.failedDeletes
  {
    hide ListsOk, RulesOk, TurnOffStep, MissingRules, DeleteRules, DropLink, LinkTo;
    var h, b := WithLinks(g, a, [l] + rest), l.who;
    FirstIsDropped(h, a, l, rest);
    var g1 := DeleteLinkRules(g, l);
    DropIgnoresOthers(g1, a, b, rest);
    assert WithLinks(g1, a, rest) == DropLink(h, a, b);
    DropLinkKeepsRules(h, a, b);
    DropLinkKeepsRules(DropLink(h, a, b), b, a);
    DropLinkDeletes(h, a, b);
    DropLinkDeletes(DropLink(h, a, b), b, a);
    StepIsDrop(g, a, l);
    var w, h' := TurnOffStep(g, a, l), DropLink(DropLink(h, a, b), b, a);
    assert WithLinks(w.graph, a, rest) == h'.(numOffloadPair := g.numOffloadPair - 1);
    forall x, y | x != a
      ensures Linked(w.graph.clients, x, y) == if x == b && y == a then None else Linked(g.clients, x, y)
    {
      assert Linked(w.graph.clients, x, y) == Linked(h'.clients, x, y);
      assert Linked(h.clients, x, y) == Linked(g.clients, x, y);
    }
  }

  /** The rules for what `a` sends to `b` go, and those for the way back if `both`; no others. */
  ghost predicate RulesGo(rules: Rules, rules': Rules, a: Addr, b: Addr, both: bool) {
    && (forall h :: h in rules' <==>
          h in rules && !(rules[h].from == a && rules[h].to == b) && !(both && rules[h].from == b && rules[h].to == a))
    && (forall h | h in rules' :: rules'[h] == rules[h])
  }

  lemma DropLinkDeletes(g: Graph, a: Addr, b: Addr)
    requires ListsOk(g.clients) && RulesOk(g.clients, g.rules) && a in g.clients && b in g.clients
    ensures RulesGo(g.rules, DropLink(g, a, b).rules, a, b, false)
  {
    LinkToSays(g.clients[a].links, b);
    hide ListsOk, LinkTo, LinkIndex;
    if Linked(g.clients, a, b).Some? {
      var l := Linked(g.clients, a, b).value;
      hide Linked, Link.Handles;
      HandlesAreItsRules(g, a, b, l);
      hide RulesOk;
    }
  }

  lemma HandlesAreItsRules(g: Graph, a: Addr, b: Addr, l: Link)
    requires RulesOk(g.clients, g.rules) && a in g.clients && b in g.clients
    requires Linked(g.clients, a, b) == Some(l) && l.who == b
    ensures forall h :: h in l.Handles() <==> h in g.rules && g.rules[h].from == a && g.rules[h].to == b
  {
    hide Linked;
    forall h
      ensures h in l.Handles() <==> h in g.rules && g.rules[h].from == a && g.rules[h].to == b
    {
      if h in l.Handles() {
        assert g.rules[l.Handle(h.0)] == RuleFor(h.0, a, g.clients[a], g.clients[b], l);
      }
    }
  }

  lemma FirstIsDropped(g: Graph, a: Addr, l: Link, rest: seq<Link>)
    requires a in g.clients && l.who in g.clients && g.clients[a].links == [l] + rest
    requires ListsOk(g.clients) && RulesOk(g.clients, g.rules)
    ensures DropLink(g, a, l.who) == WithLinks(DeleteLinkRules(g, l), a, rest) && MissingRules(g.rules, l) == 0
  {
    hide RulesOk, DeleteRules;
    LinkIsFound(g.clients[a].links, 0);
    DropLinkKeepsRules(g, a, l.who);
    assert Without(g.clients[a].links, 0) == rest;
  }

  lemma {:induction false} SameUnanswered(cs: Clients, cs': Clients, a: Addr, i: nat)
    requires a in cs && a in cs' && cs'[a].links == cs[a].links && i <= |cs[a].links|
    requires forall j | i <= j < |cs[a].links| ::
      Linked(cs', cs[a].links[j].who, a).Some? == Linked(cs, cs[a].links[j].who, a).Some?
    ensures FirstUnanswered(cs', a, i) == FirstUnanswered(cs, a, i)
    decreases |cs[a].links| - i
  {
    hide Linked;
    if i == |cs[a].links| {
    } else {
      SameUnanswered(cs, cs', a, i + 1);
    }
  }

  ghost predicate RestIsFine(g: Graph, a: Addr, i: nat)
    requires a in g.clients && i <= |g.clients[a].links|
  {
    && LinksLead(g.clients, a) && ListsOk(g.clients)
    && RulesOk(WithLinks(g, a, g.clients[a].links[i..]).clients, g.rules)
  }

  lemma UnansweredStep(g: Graph, a: Addr, l: Link)
    requires l.who in g.clients && Linked(g.clients, l.who, a).None?
    ensures !TurnOffStep(g, a, l).success && TurnOffStep(g, a, l).graph == DeleteLinkRules(g, l)
  {
    hide MissingRules, DeleteRules;
  }

  lemma AnsweredIsFine(g: Graph, a: Addr, i: nat)
    requires a in g.clients && i < |g.clients[a].links| && RestIsFine(g, a, i)
    requires Linked(g.clients, g.clients[a].links[i].who, a).Some?
    ensures var l := g.clients[a].links[i];
      var w := TurnOffStep(g, a, l);
      && w.success && RestIsFine(w.graph, a, i + 1)
      && (forall x, y | x != a ::
            Linked(w.graph.clients, x, y) == if x == l.who && y == a then None else Linked(g.clients, x, y))
      && RulesGo(g.rules, w.graph.rules, a, l.who, true)
      && w.graph.numOffloadPair == g.numOffloadPair - 1 && w.graph.failedDeletes == g.failedDeletes
  {
    hide RulesGo, RulesOk, ListsOk, Linked, TurnOffStep;
    var links := g.clients[a].links;
    var g1 := TurnOffStep(g, a, links[i]).graph;
    assert links[i..] == [links[i]] + links[i + 1..];
    TailIsOk(g.clients, a, i);
    AnsweredStep(g, a, links[i], links[i + 1..]);
    ListsAreOk(g.clients, a);
    ListsStayOk(WithLinks(g1, a, links[i + 1..]).clients, a, g1.clients[a]);
    assert g1.clients == WithLinks(g1, a, links[i + 1..]).clients[a := g1.clients[a]];
  }

  lemma TailIsOk(cs: Clients, a: Addr, i: nat)
    requires ListsOk(cs) && a in cs && i <= |cs[a].links|
    ensures ListsOk(cs[a := cs[a].(links := cs[a].links[i..])])
  {
    ListsStayOk(cs, a, cs[a].(links := cs[a].links[i..]));
  }

  lemma WalkStepReaches(g: Graph, a: Addr, i: nat)
    requires a in g.clients && i < |g.clients[a].links| && RestIsFine(g, a, i)
    ensures var l := g.clients[a].links[i];
      var w := TurnOffStep(g, a, l);
      && LinkIndex(g.clients[a].links, l.who) == i
      && w.graph.clients[a] == g.clients[a]
      && (Linked(g.clients, l.who, a).None? ==> !w.success && w.graph.clients == g.clients)
      && (Linked(g.clients, l.who, a).Some? ==>
            && w.success && RestIsFine(w.graph, a, i + 1)
            && FirstUnanswered(w.graph.clients, a, i + 1) == FirstUnanswered(g.clients, a, i)
            && forall x, y | x != a ::
                 Linked(w.graph.clients, x, y) == if x == l.who && y == a then None else Linked(g.clients, x, y))
  {
    var links := g.clients[a].links;
    LinkIsFound(links, i);
    if Linked(g.clients, links[i].who, a).None? {
      UnansweredStep(g, a, links[i]);
    } else {
      AnsweredIsFine(g, a, i);
      OthersFollow(g.clients, a, i);
      hide RestIsFine, TurnOffStep, Linked;
      SameUnanswered(g.clients, TurnOffStep(g, a, links[i]).graph.clients, a, i + 1);
    }
  }

  lemma OthersFollow(cs: Clients, a: Addr, i: nat)
    requires ListsOk(cs) && a in cs && i < |cs[a].links|
    ensures forall j | i < j < |cs[a].links| :: cs[a].links[j].who != cs[a].links[i].who
  {
    ListsAreOk(cs, a);
  }

  /** The walk takes the links back of those it reaches, and no others. */
  ghost predicate WalkedLinks(cs: Clients, w: Walk, a: Addr, i: nat)
    requires a in cs && i <= |cs[a].links|
  {
    && (w.success <==> FirstUnanswered(cs, a, i) == |cs[a].links|)
    && ListsOk(w.graph.clients) && a in w.graph.clients
    && w.graph.clients[a].links == (if w.success then [] else cs[a].links)
    && forall x, y | x != a ::
         Linked(w.graph.clients, x, y) == if y == a && Reaches(cs, a, i, x) then None else Linked(cs, x, y)
  }

  lemma WalkEnds(g: Graph, a: Addr)
    requires ListsOk(g.clients) && a in g.clients && LinksLead(g.clients, a)
    ensures WalkedLinks(g.clients, WalkLinks(g, a, |g.clients[a].links|), a, |g.clients[a].links|)
  {
    hide LinkTo;
    ListsStayOk(g.clients, a, g.clients[a].(links := []));
    hide ListsOk;
  }

  lemma WalkFails(cs: Clients, w: Walk, a: Addr, i: nat)
    requires ListsOk(cs) && a in cs && i < |cs[a].links| && Linked(cs, cs[a].links[i].who, a).None?
    requires !w.success && w.graph.clients == cs
    ensures WalkedLinks(cs, w, a, i)
  {
    hide ListsOk, Linked;
  }

  lemma WalkGoesOn(cs: Clients, cs1: Clients, w: Walk, a: Addr, i: nat)
    requires a in cs && a in cs1 && i < |cs[a].links| && cs1[a] == cs[a]
    requires LinkIndex(cs[a].links, cs[a].links[i].who) == i && Linked(cs, cs[a].links[i].who, a).Some?
    requires FirstUnanswered(cs1, a, i + 1) == FirstUnanswered(cs, a, i)
    requires forall x, y | x != a ::
      Linked(cs1, x, y) == if x == cs[a].links[i].who && y == a then None else Linked(cs, x, y)
    requires WalkedLinks(cs1, w, a, i + 1)
    ensures WalkedLinks(cs, w, a, i)
  {
    ReachesNext(cs, cs1, a, i);
    hide ListsOk, Linked, Reaches, FirstUnanswered;
  }

  lemma {:induction false} WalkDropsReached(g: Graph, a: Addr, i: nat)
    requires a in g.clients && i <= |g.clients[a].links| && RestIsFine(g, a, i)
    ensures WalkedLinks(g.clients, WalkLinks(g, a, i), a, i)
    decreases |g.clients[a].links| - i
  {
    hide ListsOk, RulesOk, Linked, WalkedLinks, TurnOffStep;
    if i == |g.clients[a].links| {
      WalkEnds(g, a);
    } else {
      WalkStepReaches(g, a, i);
      var w := TurnOffStep(g, a, g.clients[a].links[i]);
      if w.success {
        WalkDropsReached(w.graph, a, i + 1);
        WalkGoesOn(g.clients, w.graph.clients, WalkLinks(g, a, i), a, i);
      } else {
        WalkFails(g.clients, w, a, i);
      }
    }
  }

  lemma ReachesNext(cs: Clients, cs1: Clients, a: Addr, i: nat)
    requires a in cs && a in cs1 && i < |cs[a].links| && cs1[a] == cs[a]
    requires LinkIndex(cs[a].links, cs[a].links[i].who) == i
    ensures Linked(cs, cs[a].links[i].who, a).None? ==> forall x :: !Reaches(cs, a, i, x)
    ensures Linked(cs, cs[a].links[i].who, a).Some? && FirstUnanswered(cs1, a, i + 1) == FirstUnanswered(cs, a, i) ==>
      forall x :: Reaches(cs, a, i, x) <==> x == cs[a].links[i].who || Reaches(cs1, a, i + 1, x)
  {
    hide Linked, LinkIndex;
  }

  // ---- The walk over the peers ----

  lemma ClearStep(cs: Clients, a: Addr, b: Addr)
    requires ListsOk(cs) && b in cs && Connected(cs, b, a) > 0
    ensures PeerIndex(cs[b].peers, a) < |cs[b].peers|
    ensures var cs' := WithPeers(cs, b, Without(cs[b].peers, PeerIndex(cs[b].peers, a)));
      && ListsOk(cs')
      && forall x, y :: Connected(cs', x, y) == if x == b && y == a then 0 else Connected(cs, x, y)
  {
    hide ListsOk, PeerListOk, LinkListOk, Without, PeerIndex;
    ListsAreOk(cs, b);
    var peers := Without(cs[b].peers, PeerIndex(cs[b].peers, a));
    forall y
      ensures PeerListOk(peers) && Connections(peers, y) == if y == a then 0 else Connections(cs[b].peers, y)
    {
      WithoutPeerCounts(cs[b].peers, a, y);
    }
    hide Connections;
    assert PeerListOk(peers);
    ListsStayOk(cs, b, cs[b].(peers := peers));
  }

  ghost predicate PeersAnswer(g: Graph, a: Addr, i: nat) {
    && ListsOk(g.clients) && a in g.clients && PeersLead(g.clients, a) && i <= |g.clients[a].peers|
    && forall j | i <= j < |g.clients[a].peers| :: Connected(g.clients, g.clients[a].peers[j].who, a) > 0
  }

  ghost function ClearedFrom(g: Graph, b: Addr, a: Addr): Graph
    requires b in g.clients
  {
    g.(clients := WithPeers(g.clients, b, Without(g.clients[b].peers, PeerIndex(g.clients[b].peers, a))))
  }

  lemma NextPeerIsCleared(g: Graph, a: Addr, i: nat)
    requires PeersAnswer(g, a, i) && i < |g.clients[a].peers|
    ensures var b := g.clients[a].peers[i].who;
      var h := ClearedFrom(g, b, a);
      && PeersAnswer(h, a, i + 1) && h.clients[a] == g.clients[a]
      && WalkPeers(g, a, i) == WalkPeers(h, a, i + 1)
      && (forall x :: PeerIndex(g.clients[a].peers, x) == i <==> x == b)
      && (forall x, y :: Connected(h.clients, x, y) == if x == b && y == a then 0 else Connected(g.clients, x, y))
  {
    hide ListsOk, PeerListOk, LinkListOk, Connections, Without, PeerIndex, Connected;
    var b := g.clients[a].peers[i].who;
    ListsAreOk(g.clients, a);
    ClearStep(g.clients, a, b);
    OtherEntries(g.clients[a].peers, i);
  }

  lemma NoPeersAreOk(cs: Clients, a: Addr)
    requires ListsOk(cs) && a in cs
    ensures ListsOk(WithPeers(cs, a, []))
  {
    ListsStayOk(cs, a, cs[a].(peers := []));
  }

  ghost predicate WalkedPeers(cs: Clients, w: Walk, a: Addr, i: nat)
    requires a in cs
  {
    && w.success && ListsOk(w.graph.clients) && a in w.graph.clients && w.graph.clients[a].peers == []
    && forall x, y | x != a ::
         Connected(w.graph.clients, x, y)
           == if y == a && i <= PeerIndex(cs[a].peers, x) < |cs[a].peers| then 0 else Connected(cs, x, y)
  }

  lemma PeersEnd(g: Graph, a: Addr)
    requires ListsOk(g.clients) && a in g.clients && PeersLead(g.clients, a)
    ensures WalkedPeers(g.clients, WalkPeers(g, a, |g.clients[a].peers|), a, |g.clients[a].peers|)
  {
    hide ListsOk, Connections;
    NoPeersAreOk(g.clients, a);
  }

  lemma PeersGoOn(cs: Clients, cs1: Clients, w: Walk, a: Addr, i: nat)
    requires a in cs && a in cs1 && i < |cs[a].peers| && cs1[a] == cs[a]
    requires forall x :: PeerIndex(cs[a].peers, x) == i <==> x == cs[a].peers[i].who
    requires forall x, y :: Connected(cs1, x, y) == if x == cs[a].peers[i].who && y == a then 0 else Connected(cs, x, y)
    requires WalkedPeers(cs1, w, a, i + 1)
    ensures WalkedPeers(cs, w, a, i)
  {
    hide ListsOk, Connected, PeerIndex;
  }

  /** As connections are mutual, the walk finds the client in each of its peers' lists. */
  lemma {:induction false} WalkPeersClears(g: Graph, a: Addr, i: nat)
    requires PeersAnswer(g, a, i)
    ensures WalkedPeers(g.clients, WalkPeers(g, a, i), a, i)
    decreases |g.clients[a].peers| - i
  {
    hide ListsOk, Connected, WalkPeers, WalkedPeers, PeerIndex, ClearedFrom;
    if i == |g.clients[a].peers| {
      PeersEnd(g, a);
    } else {
      NextPeerIsCleared(g, a, i);
      var h := ClearedFrom(g, g.clients[a].peers[i].who, a);
      WalkPeersClears(h, a, i + 1);
      PeersGoOn(g.clients, h.clients, WalkPeers(h, a, i + 1), a, i);
    }
  }

  lemma OtherEntries(ps: seq<Peer>, i: nat)
    requires PeerListOk(ps) && i < |ps|
    ensures forall j | 0 <= j < |ps| && j != i :: ps[j].who != ps[i].who
    ensures forall x :: PeerIndex(ps, x) == i <==> x == ps[i].who
  {
    EntryIsFound(ps, i);
  }

  // ---- Disconnection ----

  /** On lists without duplicates, what dangles shows in who is linked or connected. */
  lemma DanglesIfLinked(cs: Clients)
    requires ListsOk(cs)
    ensures NoneDangles(cs)
      <==> forall x, y | x in cs && (Linked(cs, x, y).Some? || Connected(cs, x, y) > 0) :: y in cs && y != x
  {
    hide ListsOk, Connections, LinkTo;
    forall x | x in cs
      ensures Leads(cs, x) <==> forall y | Linked(cs, x, y).Some? || Connected(cs, x, y) > 0 :: y in cs && y != x
    {
      ListsAreOk(cs, x);
      ListedIfLinked(cs[x].links);
      ListedIfConnected(cs[x].peers);
    }
    hide Leads, Linked, Connected;
  }

  lemma ListedIfLinked(ls: seq<Link>)
    requires LinkListOk(ls)
    ensures forall y :: LinkTo(ls, y).Some? <==> exists i :: 0 <= i < |ls| && ls[i].who == y
  {
    forall y
      ensures LinkTo(ls, y).Some? <==> exists i :: 0 <= i < |ls| && ls[i].who == y
    {
      if i :| 0 <= i < |ls| && ls[i].who == y {
        LinkIsFound(ls, i);
      }
    }
  }

  lemma ListedIfConnected(ps: seq<Peer>)
    requires PeerListOk(ps)
    ensures forall y :: Connections(ps, y) > 0 <==> exists i :: 0 <= i < |ps| && ps[i].who == y
  {
    forall y
      ensures Connections(ps, y) > 0 <==> exists i :: 0 <= i < |ps| && ps[i].who == y
    {
      if i :| 0 <= i < |ps| && ps[i].who == y {
        EntryIsFound(ps, i);
      }
    }
  }

  /** In a sound graph nothing dangles. */
  lemma SoundLeads(g: Graph)
    requires Sound(g)
    ensures NoneDangles(g.clients)
  {
    hide ListsOk, RulesOk, Linked, Connected;
    assert forall x, y | Linked(g.clients, x, y).Some? || Connected(g.clients, x, y) > 0 :: y in g.clients && y != x;
    DanglesIfLinked(g.clients);
  }

  /** What the two walks over the lists of `a` do to the others' lists. */
  lemma BothWalksReach(g: Graph, a: Addr)
    requires Sound(g) && a in g.clients
    ensures Leads(g.clients, a)
    ensures var cs, cs' := g.clients, BothWalks(g, a).clients;
      && ListsOk(cs') && cs'[a].peers == [] && (cs'[a].links == [] || cs'[a].links == cs[a].links)
      && (forall x, y | x != a ::
            Linked(cs', x, y) == if y == a && Reaches(cs, a, 0, x) then None else Linked(cs, x, y))
      && (forall x, y | x != a :: Connected(cs', x, y) == if y == a then 0 else Connected(cs, x, y))
  {
    hide ListsOk, RulesOk, PeersOk, LinksToPeers, Linked, Connected, WalkLinks, WalkPeers, Leads, Reaches;
    SoundLeads(g);
    assert Leads(g.clients, a);
    SoundIsFine(g, a);
    WalkDropsReached(g, a, 0);
    var g1 := WalkLinks(g, a, 0).graph;
    SameConnected(g.clients, g1.clients);
    PeersAreAnswered(g.clients, g1.clients, a);
    WalkPeersClears(g1, a, 0);
    SameLinked(g1.clients, WalkPeers(g1, a, 0).graph.clients);
  }

  lemma SoundIsFine(g: Graph, a: Addr)
    requires Sound(g) && a in g.clients && Leads(g.clients, a)
    ensures RestIsFine(g, a, 0)
  {
    hide ListsOk, RulesOk, LinksLead;
    assert g.clients[a].links[0..] == g.clients[a].links;
    assert WithLinks(g, a, g.clients[a].links[0..]).clients == g.clients;
  }

  lemma SameLinked(cs: Clients, cs': Clients)
    requires SameButPeers(cs, cs')
    ensures forall x, y :: Linked(cs', x, y) == Linked(cs, x, y)
  {
    hide LinkTo;
  }

  lemma PeersAreAnswered(cs: Clients, cs1: Clients, a: Addr)
    requires ListsOk(cs) && PeersOk(cs) && a in cs && Leads(cs, a) && SameButLinks(cs, cs1)
    requires forall x, y :: Connected(cs1, x, y) == Connected(cs, x, y)
    ensures PeersLead(cs1, a)
    ensures forall j | 0 <= j < |cs1[a].peers| :: Connected(cs1, cs1[a].peers[j].who, a) > 0
    ensures forall x :: Connected(cs, x, a) > 0 <==> 0 <= PeerIndex(cs1[a].peers, x) < |cs1[a].peers|
    ensures forall x :: Connected(cs, x, a) >= 0
  {
    hide LinksLead, LinkListOk;
    ListsAreOk(cs, a);
    hide ListsOk;
    var peers := cs[a].peers;
    forall j | 0 <= j < |peers|
      ensures Connected(cs, a, peers[j].who) > 0
    {
      EntryIsFound(peers, j);
    }
    forall x
      ensures Connected(cs, a, x) > 0 <==> PeerIndex(peers, x) < |peers|
    {
      if PeerIndex(peers, x) < |peers| {
        EntryIsFound(peers, PeerIndex(peers, x));
      }
    }
    hide Connected, PeerIndex;
    assert forall x :: 0 <= Connected(cs, x, a) == Connected(cs, a, x);
  }

  /** After a disconnection exactly those still have a link to the client whom the walk over its
    * links did not reach: who has a link to it and gets none back, or comes behind someone who has
    * none to it. Nobody still has it as a peer, and nothing changes between others.
    */
  lemma DisconnectReaches(g: Graph, a: Addr)
    requires Sound(g) && a in g.clients
    ensures Leads(g.clients, a)
    ensures var cs, cs' := g.clients, WalkDisconnect(g, a).clients;
      && cs'.Keys == cs.Keys - {a} && ListsOk(cs')
      && (forall x | x in cs' :: Linked(cs', x, a).Some? <==> Linked(cs, x, a).Some? && !Reaches(cs, a, 0, x))
      && (forall x | x in cs' :: Connected(cs', x, a) == 0)
      && (forall x, y | x != a && y != a ::
            Linked(cs', x, y) == Linked(cs, x, y) && Connected(cs', x, y) == Connected(cs, x, y))
      && (NoneDangles(cs') <==> AllAnswered(cs, a))
  {
    hide RulesOk, Linked, Connected, BothWalks, Reaches, PeersOk, LinksToPeers;
    BothWalksReach(g, a);
    var cs1 := BothWalks(g, a).clients;
    ErasedLooksTheSame(cs1, a);
    hide ListsOk;
    assert Leads(g.clients, a);
    DanglesIfLinked(cs1 - {a});
    SoundLinks(g);
    hide Leads;
  }

  lemma ErasedLooksTheSame(cs: Clients, a: Addr)
    requires ListsOk(cs)
    ensures ListsOk(cs - {a})
    ensures forall x, y | x != a :: Linked(cs - {a}, x, y) == Linked(cs, x, y) && Connected(cs - {a}, x, y) == Connected(cs, x, y)
  {
    hide PeerListOk, LinkListOk, LinkTo, Connections;
  }

  lemma SoundLinks(g: Graph)
    requires Sound(g)
    ensures forall x, y | Linked(g.clients, x, y).Some? || Connected(g.clients, x, y) > 0 ::
      x in g.clients && y in g.clients && x != y
  {
    hide ListsOk, RulesOk, Linked, Connected;
  }

  // ---- The other events ----

  lemma AddLeavesNoneDangling(g: Graph, a: Addr, b: Addr, answer: Answer)
    requires NoneDangles(g.clients) && a in g.clients && b in g.clients && a != b
    ensures NoneDangles(AddOffloadLink(g, a, b, answer).graph.clients)
  {
    hide MissingRules;
    var r := AddOffloadLink(g, a, b, answer);
    if r.success {
      var l := Link(b, answer.filter.value, answer.route.value, answer.header.value);
      forall x | x in g.clients
        ensures Leads(r.graph.clients, x)
      {
        assert Leads(g.clients, x);
        assert x != a ==> r.graph.clients[x] == g.clients[x];
        assert r.graph.clients[a].links == g.clients[a].links + [l] && r.graph.clients[a].peers == g.clients[a].peers;
      }
    }
  }

  lemma {:induction false} LinkPeersLeavesNoneDangling(g: Graph, a: Addr, i: nat, answers: seq<(Answer, Answer)>)
    requires NoneDangles(g.clients) && a in g.clients && i <= |g.clients[a].peers| <= |answers|
    ensures NoneDangles(LinkPeers(g, a, i, answers).clients)
    decreases |g.clients[a].peers| - i
  {
    if i == |g.clients[a].peers| {
    } else {
      assert Leads(g.clients, a);
      var b := g.clients[a].peers[i].who;
      hide NoneDangles, AddOffloadLink;
      AddLeavesNoneDangling(g, a, b, answers[i].0);
      AddLeavesNoneDangling(AddOffloadLink(g, a, b, answers[i].0).graph, b, a, answers[i].1);
      LinkPeersLeavesNoneDangling(LinkPeer(g, a, i, answers[i]), a, i + 1, answers);
    }
  }

  lemma ChangeLeavesNoneDangling(cs: Clients, a: Addr, client: Client)
    requires NoneDangles(cs)
    requires if a in cs then client.peers == cs[a].peers && client.links == cs[a].links else client.peers == [] && client.links == []
    ensures NoneDangles(cs[a := client])
  {
    var cs' := cs[a := client];
    forall x | x in cs'
      ensures Leads(cs', x)
    {
      assert x in cs ==> Leads(cs, x);
    }
  }

  lemma ActiveLeavesNoneDangling(g: Graph, a: Addr, mac: int, iface: int, answers: seq<(Answer, Answer)>)
    requires Sound(g) && (a in g.clients ==> |g.clients[a].peers| <= |answers|)
    ensures Leads(g.clients, a) && NoneDangles(WalkActive(g, a, mac, iface, answers).clients)
  {
    SoundLeads(g);
    assert Leads(g.clients, a);
    hide Sound, Leads, NoneDangles, BothWalks, LinkPeers;
    if a !in g.clients {
      ChangeLeavesNoneDangling(g.clients, a, Client(mac, iface, true, [], []));
    } else if !g.clients[a].active {
      var client := g.clients[a].(mac := mac, iface := iface, active := true);
      ChangeLeavesNoneDangling(g.clients, a, client);
      LinkPeersLeavesNoneDangling(g.(clients := g.clients[a := client]), a, 0, answers);
    } else if g.clients[a].mac != mac {
      BothWalksLeaveNoneDangling(g, a);
      var cs := BothWalks(g, a).clients;
      ChangeLeavesNoneDangling(cs, a, cs[a].(mac := mac, iface := iface, active := true));
    }
  }

  lemma BothWalksLeaveNoneDangling(g: Graph, a: Addr)
    requires Sound(g) && a in g.clients
    ensures Leads(g.clients, a) && NoneDangles(BothWalks(g, a).clients)
  {
    hide ListsOk, RulesOk, PeersOk, LinksToPeers, BothWalks, Reaches, LinkTo, Connections, NoneDangles, Leads;
    BothWalksReach(g, a);
    SoundLinks(g);
    var cs' := BothWalks(g, a).clients;
    DanglesIfLinked(cs');
    EmptyLists(cs', a);
    assert forall y :: Linked(cs', a, y).Some? ==> Linked(g.clients, a, y).Some?;
  }

  lemma EmptyLists(cs: Clients, a: Addr)
    requires a in cs
    ensures cs[a].links == [] ==> forall y :: Linked(cs, a, y).None?
    ensures cs[a].peers == [] ==> forall y :: Connected(cs, a, y) == 0
  {
  }

  // ---- Every event, whatever the hardware answers ----

  lemma NewConnectionStaysSound(g: Graph, src: Addr, dst: Addr, answers: (Answer, Answer))
    requires Sound(g) && src != dst && NewAnswersFresh(g, src, dst, answers)
    ensures Sound(NewConnection(g, src, dst, answers))
  {
    hide ListsOk, RulesOk, Connected, Linked, AddConnection, LinkBothWays, FreshAnswers;
    if src in g.clients && dst in g.clients {
      var cs := AddConnection(g.clients, src, dst);
      AddConnectionCounts(g.clients, src, dst);
      SameLinked(g.clients, cs);
      RulesStayOk(g.clients, cs, g.rules);
      var g1 := g.(clients := cs);
      assert Sound(g1);
      if Connected(g.clients, src, dst) == 0 {
        assert Connected(g.clients, dst, src) == 0;
        BothWaysStaySound(g1, src, dst, answers);
      }
    }
  }

  lemma BothWaysStaySound(g: Graph, a: Addr, b: Addr, answers: (Answer, Answer))
    requires Sound(g) && a in g.clients && b in g.clients && Connected(g.clients, a, b) > 0
    requires Linked(g.clients, a, b).None? && Linked(g.clients, b, a).None? && FreshAnswers(g, a, b, answers)
    ensures Sound(LinkBothWays(g, a, b, answers))
  {
    hide ListsOk, RulesOk, Connected, Linked, AddOffloadLink, Answer.Fresh;
    AddOffloadLinkKeepsRules(g, a, b, answers.0);
    var r1 := AddOffloadLink(g, a, b, answers.0);
    if r1.success {
      SameConnected(g.clients, r1.graph.clients);
      AddOffloadLinkKeepsRules(r1.graph, b, a, answers.1);
      SameConnected(r1.graph.clients, AddOffloadLink(r1.graph, b, a, answers.1).graph.clients);
      assert Connected(g.clients, b, a) > 0;
    }
  }

  lemma WalkLeavesConnections(g: Graph, a: Addr)
    requires Sound(g) && a in g.clients
    ensures Leads(g.clients, a)
    ensures var cs, cs1 := g.clients, WalkLinks(g, a, 0).graph.clients;
      && ListsOk(cs1) && (cs1[a].links == [] || cs1[a].links == cs[a].links)
      && (forall x, y :: Connected(cs1, x, y) == Connected(cs, x, y))
      && (forall x, y | x != a :: Linked(cs1, x, y).Some? ==> Linked(cs, x, y).Some?)
  {
    hide ListsOk, RulesOk, PeersOk, LinksToPeers, Linked, Connected, WalkLinks, Leads, Reaches;
    SoundLeads(g);
    assert Leads(g.clients, a);
    SoundIsFine(g, a);
    WalkDropsReached(g, a, 0);
    SameConnected(g.clients, WalkLinks(g, a, 0).graph.clients);
  }

  lemma InactiveLeavesNoneDangling(g: Graph, a: Addr)
    requires Sound(g)
    ensures Leads(g.clients, a) && NoneDangles(WalkInactive(g, a).clients)
  {
    SoundLeads(g);
    assert Leads(g.clients, a);
    hide Sound, Linked, Connected, WalkLinks, NoneDangles, LinksLead, PeersLead;
    if a in g.clients {
      var cs1 := WalkLinks(g, a, 0).graph.clients;
      WalkLeavesConnections(g, a);
      SoundLinks(g);
      LinksGo(g.clients, cs1, a);
      InactiveStaysOrGoes(g, a);
      hide WalkInactive;
      if cs1[a].peers == [] {
        NobodyKnows(g, cs1, a);
      } else {
        ChangeLeavesNoneDangling(cs1, a, cs1[a].(active := false));
      }
    }
  }

  lemma InactiveStaysOrGoes(g: Graph, a: Addr)
    requires a in g.clients && Leads(g.clients, a)
    ensures var cs1 := WalkLinks(g, a, 0).graph.clients;
      WalkInactive(g, a).clients == if cs1[a].peers == [] then cs1 - {a} else cs1[a := cs1[a].(active := false)]
  {
    hide WalkLinks, LinksLead, PeersLead;
    var cs1 := WalkLinks(g, a, 0).graph.clients;
    assert cs1[a := cs1[a].(active := false)] - {a} == cs1 - {a};
  }

  lemma LinksGo(cs: Clients, cs1: Clients, a: Addr)
    requires ListsOk(cs1) && cs1.Keys == cs.Keys && a in cs && (cs1[a].links == [] || cs1[a].links == cs[a].links)
    requires forall x, y | Linked(cs, x, y).Some? || Connected(cs, x, y) > 0 :: y in cs && x != y
    requires forall x, y :: Connected(cs1, x, y) == Connected(cs, x, y)
    requires forall x, y | x != a :: Linked(cs1, x, y).Some? ==> Linked(cs, x, y).Some?
    ensures NoneDangles(cs1)
  {
    hide ListsOk, NoneDangles, Connected, LinkTo;
    DanglesIfLinked(cs1);
    EmptyLists(cs1, a);
    assert forall y :: Linked(cs1, a, y).Some? ==> Linked(cs, a, y).Some?;
  }

  /** A client without peers is in nobody's list and may go. */
  lemma NobodyKnows(g: Graph, cs1: Clients, a: Addr)
    requires Sound(g) && a in g.clients && g.clients[a].peers == [] && NoneDangles(cs1) && cs1.Keys == g.clients.Keys
    requires ListsOk(cs1)
    requires forall x, y :: Connected(cs1, x, y) == Connected(g.clients, x, y)
    requires forall x, y | x != a :: Linked(cs1, x, y).Some? ==> Linked(g.clients, x, y).Some?
    ensures NoneDangles(cs1 - {a})
  {
    hide ListsOk, RulesOk, NoneDangles, Connected, Linked;
    EmptyLists(g.clients, a);
    assert forall x :: Connected(g.clients, x, a) == 0 && Linked(g.clients, x, a).None?;
    DanglesIfLinked(cs1);
    ErasedLooksTheSame(cs1, a);
    DanglesIfLinked(cs1 - {a});
  }

  /** This end goes with its last connection, but the other stays and has a link to it. */
  ghost predicate Strands(cs: Clients, gone: Addr, other: Addr) {
    && gone in cs && other in cs && Connected(cs, gone, other) == 1 && GoesWithLast(cs[gone])
    && !GoesWithLast(cs[other]) && Linked(cs, other, gone).Some?
  }

  ghost predicate GoesWithLast(client: Client) {
    !client.active && |client.peers| == 1
  }

  /** The graph before unused ends are erased: one connection less, and after the last between
    * active clients no link.
    */
  ghost function BeforeErasing(g: Graph, src: Addr, dst: Addr): Graph
    requires src in g.clients && dst in g.clients
  {
    var g1 := g.(clients := RemoveConnection(g.clients, src, dst));
    if Connected(g.clients, src, dst) == 1 && g.clients[src].active && g.clients[dst].active
    then EraseOffloadLink(g1, src, dst) else g1
  }

  lemma BeforeErasingIsFine(g: Graph, src: Addr, dst: Addr)
    requires Sound(g) && src in g.clients && dst in g.clients && src != dst
    ensures var cs, cs' := g.clients, BeforeErasing(g, src, dst).clients;
      var n := Connected(cs, src, dst);
      && ListsOk(cs') && cs'.Keys == cs.Keys && SameEntries(cs, cs', cs.Keys)
      && |cs'[src].peers| == |cs[src].peers| - (if n == 1 then 1 else 0)
      && |cs'[dst].peers| == |cs[dst].peers| - (if n == 1 then 1 else 0)
      && ConnectionsBecome(cs, cs', src, dst, if n == 0 then 0 else n - 1)
      && (forall x, y | Linked(cs', x, y).Some? :: Linked(cs, x, y).Some?)
      && (!(cs[src].active && cs[dst].active) ==> forall x, y :: Linked(cs', x, y) == Linked(cs, x, y))
  {
    hide ListsOk, RulesOk, RemoveConnection, EraseOffloadLink, Linked, Connected, PeersOk, LinksToPeers;
    var cs1 := RemoveConnection(g.clients, src, dst);
    RemoveConnectionCounts(g.clients, src, dst);
    SameLinked(g.clients, cs1);
    RulesStayOk(g.clients, cs1, g.rules);
    EraseOnlyLinks(g.(clients := cs1), src, dst);
    SameConnected(cs1, EraseOffloadLink(g.(clients := cs1), src, dst).clients);
  }

  lemma EraseOnlyLinks(g: Graph, a: Addr, b: Addr)
    requires ListsOk(g.clients) && RulesOk(g.clients, g.rules) && a in g.clients && b in g.clients
    ensures var cs' := EraseOffloadLink(g, a, b).clients;
      && ListsOk(cs') && SameButLinks(g.clients, cs')
      && forall x, y | Linked(cs', x, y).Some? :: Linked(g.clients, x, y).Some?
  {
    hide ListsOk, RulesOk, DropLink, Linked, LinkTo;
    DropLinkKeepsRules(g, a, b);
    DropLinkKeepsRules(DropLink(g, a, b), b, a);
  }

  lemma DelErases(g: Graph, src: Addr, dst: Addr)
    requires Sound(g) && src in g.clients && dst in g.clients && src != dst
    ensures var cs, cs2 := g.clients, BeforeErasing(g, src, dst).clients;
      DelConnection(g, src, dst).clients
        == if Connected(cs, src, dst) == 1 then EraseIfUnused(EraseIfUnused(cs2, src), dst) else cs2
  {
    hide ListsOk, RulesOk, RemoveConnection, EraseOffloadLink, EraseIfUnused, Connected;
    RemoveConnectionCounts(g.clients, src, dst);
  }

  lemma OnlyPeer(cs: Clients, e: Addr, o: Addr)
    requires ListsOk(cs) && e in cs && |cs[e].peers| == 1 && Connected(cs, e, o) > 0
    ensures forall x :: Connected(cs, e, x) > 0 <==> x == o
  {
    EntryIsFound(cs[e].peers, 0);
  }

  /** The only one who can have the address of an end that goes is the other end. */
  lemma GoneIsLinkedByOther(g: Graph, e: Addr, o: Addr, x: Addr)
    requires Sound(g) && e in g.clients && GoesWithLast(g.clients[e]) && Connected(g.clients, e, o) == 1
    requires Linked(g.clients, x, e).Some? || Connected(g.clients, x, e) > 0
    ensures x == o
  {
    hide ListsOk, RulesOk, Linked, Connected;
    assert Connected(g.clients, x, e) == Connected(g.clients, e, x);
    OnlyPeer(g.clients, e, o);
  }

  lemma StrandedDangles(g: Graph, cs': Clients, e: Addr, o: Addr)
    requires Sound(g) && ListsOk(cs') && Strands(g.clients, e, o) && e !in cs' && o in cs'
    requires Linked(cs', o, e) == Linked(g.clients, o, e)
    ensures !NoneDangles(cs')
  {
    hide ListsOk, RulesOk, Linked, Connected, NoneDangles;
    DanglesIfLinked(cs');
  }

  /** What is left dangles exactly if one end is stranded. */
  lemma DelStrands(g: Graph, src: Addr, dst: Addr)
    requires Sound(g) && src in g.clients && dst in g.clients && src != dst
    ensures NoneDangles(DelConnection(g, src, dst).clients)
      <==> !Strands(g.clients, src, dst) && !Strands(g.clients, dst, src)
  {
    hide ListsOk, RulesOk, NoneDangles, Linked, Connected, BeforeErasing, DelConnection, EraseIfUnused, LinksToPeers;
    var cs, cs2 := g.clients, BeforeErasing(g, src, dst).clients;
    SoundLinks(g);
    BeforeErasingIsFine(g, src, dst);
    DelErases(g, src, dst);
    assert Connected(cs, src, dst) == Connected(cs, dst, src);
    if Connected(cs, src, dst) == 1 {
      LastStrands(g, cs2, src, dst);
    } else {
      DanglesIfLinked(cs2);
    }
  }

  lemma LastStrands(g: Graph, cs2: Clients, src: Addr, dst: Addr)
    requires Sound(g) && src in g.clients && dst in g.clients && src != dst && Connected(g.clients, src, dst) == 1
    requires ListsOk(cs2) && cs2.Keys == g.clients.Keys && SameEntries(g.clients, cs2, g.clients.Keys)
    requires |cs2[src].peers| == |g.clients[src].peers| - 1 && |cs2[dst].peers| == |g.clients[dst].peers| - 1
    requires ConnectionsBecome(g.clients, cs2, src, dst, 0)
    requires forall x, y | Linked(cs2, x, y).Some? :: Linked(g.clients, x, y).Some?
    requires !(g.clients[src].active && g.clients[dst].active) ==> forall x, y :: Linked(cs2, x, y) == Linked(g.clients, x, y)
    ensures NoneDangles(EraseIfUnused(EraseIfUnused(cs2, src), dst))
      <==> !Strands(g.clients, src, dst) && !Strands(g.clients, dst, src)
  {
    hide ListsOk, RulesOk, NoneDangles, EraseIfUnused;
    var cs, cs' := g.clients, EraseIfUnused(EraseIfUnused(cs2, src), dst);
    UnusedGo(cs2, src, dst);
    FewerLookTheSame(cs2, cs');
    hide Linked, Connected, LinksToPeers;
    assert Connected(cs, src, dst) == Connected(cs, dst, src);
    assert forall x | x in cs :: x in cs' <==> !(x in {src, dst} && GoesWithLast(cs[x]));
    if Strands(cs, src, dst) {
      StrandedDangles(g, cs', src, dst);
    } else if Strands(cs, dst, src) {
      StrandedDangles(g, cs', dst, src);
    } else {
      forall x, y | x in cs' && (Linked(cs', x, y).Some? || Connected(cs', x, y) > 0)
        ensures y in cs' && y != x
      {
        SoundLinks(g);
        if y !in cs' {
          GoneIsLinkedByOther(g, y, if y == src then dst else src, x);
        }
      }
      DanglesIfLinked(cs');
    }
  }

  lemma FewerLookTheSame(cs: Clients, cs': Clients)
    requires ListsOk(cs) && forall x | x in cs' :: x in cs && cs'[x] == cs[x]
    ensures ListsOk(cs')
    ensures forall x, y | x in cs' :: Linked(cs', x, y) == Linked(cs, x, y) && Connected(cs', x, y) == Connected(cs, x, y)
  {
    hide PeerListOk, LinkListOk, LinkTo, Connections;
  }

  // ---- Runs with any answers ----

  /** Handles are fresh and no pointer that is followed dangles. Each direction may be refused. */
  ghost predicate CanDoAny(g: Graph, e: Event) {
    match e
    case EvActive(a, mac, iface, answers) => Leads(g.clients, a) && ActiveAnswersFresh(g, a, mac, iface, answers)
    case EvInactive(a) => Leads(g.clients, a)
    case EvDisconnect(a) => Leads(g.clients, a)
    case EvNewConnection(src, dst, pair) => src != dst && NewAnswersFresh(g, src, dst, pair)
    case EvDelConnection(src, dst) => src != dst
  }

  ghost function NextAny(g: Graph, e: Event): Graph
    requires CanDoAny(g, e)
  {
    match e
    case EvActive(a, mac, iface, answers) => WalkActive(g, a, mac, iface, answers)
    case EvInactive(a) => WalkInactive(g, a)
    case EvDisconnect(a) => WalkDisconnect(g, a)
    case EvNewConnection(src, dst, pair) => NewConnection(g, src, dst, pair)
    case EvDelConnection(src, dst) => DelConnection(g, src, dst)
  }

  ghost predicate IsAnyRun(graphs: seq<Graph>, events: seq<Event>) {
    && |graphs| == |events| + 1
    && graphs[0] == Graph(map[], 0, map[], 0)
    && forall k | 0 <= k < |events| :: CanDoAny(graphs[k], events[k]) && graphs[k + 1] == NextAny(graphs[k], events[k])
  }

  /** On consistent graphs these are the events as they are said to be. */
  lemma EventsAgree(g: Graph, e: Event)
    requires Inv(g) && CanDo(g, e)
    ensures CanDoAny(g, e) && NextAny(g, e) == Next(g, e)
  {
    hide Inv, Leads, ClientActive, ClientInactive, ClientDisconnect, WalkActive, WalkInactive, WalkDisconnect;
    hide PeerAnswersFresh;
    if !e.EvNewConnection? && !e.EvDelConnection? {
      WalksMakeTheEvents(g, e.a);
    }
  }

  lemma RunsAreAnyRuns(graphs: seq<Graph>, events: seq<Event>)
    requires IsRun(graphs, events)
    ensures IsAnyRun(graphs, events)
  {
    hide CanDo, Next, CanDoAny, NextAny, Inv;
    forall k | 0 <= k < |events|
      ensures CanDoAny(graphs[k], events[k]) && graphs[k + 1] == NextAny(graphs[k], events[k])
    {
      RunKeepsInv(graphs, events, k);
      EventsAgree(graphs[k], events[k]);
    }
  }

  /** Whatever the hardware answers, one event makes a consistent graph at worst sound. */
  lemma AnyAnswerStaysSound(g: Graph, e: Event)
    requires Inv(g) && CanDoAny(g, e)
    ensures Sound(NextAny(g, e))
  {
    match e
    case EvNewConnection(src, dst, pair) =>
      ConsistentIsSound(g);
      NewConnectionStaysSound(g, src, dst, pair);
    case EvDelConnection(src, dst) =>
      EventStaysConsistent(g, e);
      ConsistentIsSound(Next(g, e));
    case EvInactive(a) =>
      EventStaysConsistent(g, e);
      ConsistentIsSound(Next(g, e));
    case EvDisconnect(a) =>
      EventStaysConsistent(g, e);
      ConsistentIsSound(Next(g, e));
    case EvActive(a, mac, iface, answers) =>
      if a in g.clients && !g.clients[a].active {
        ReturnStaysSound(g, a, mac, iface, answers);
      } else {
        EventStaysConsistent(g, e);
        ConsistentIsSound(Next(g, e));
      }
  }

  lemma ReturnStaysSound(g: Graph, a: Addr, mac: int, iface: int, answers: seq<(Answer, Answer)>)
    requires Inv(g) && a in g.clients && !g.clients[a].active && ActiveAnswersFresh(g, a, mac, iface, answers)
    ensures Sound(ClientActive(g, a, mac, iface, answers))
  {
    hide PeerAnswersFresh, ClientActive, RulesOk, Linked, Connections, PairsAt, Counted, LinkedAsAnswered;
    ActiveAgainLinks(g, a, mac, iface, answers);
    InactiveHasNoLinks(g, a);
    var g', peers := ClientActive(g, a, mac, iface, answers), g.clients[a].peers;
    forall y | Linked(g'.clients, a, y).Some? || Linked(g'.clients, y, a).Some?
      ensures Connected(g.clients, a, y) == Connected(g.clients, y, a) > 0
    {
      if PeerIndex(peers, y) == |peers| {
        assert SameLinksBetween(g.clients, g'.clients, a, y);
      } else {
        PeerIsConnected(g.clients, a, PeerIndex(peers, y));
      }
    }
    hide ListsOk, Connected;
  }

  lemma EventStaysConsistent(g: Graph, e: Event)
    requires Inv(g) && CanDo(g, e)
    ensures Inv(Next(g, e)) && CanDoAny(g, e) && NextAny(g, e) == Next(g, e)
  {
    StepKeepsInv(g, e);
    EventsAgree(g, e);
  }

  lemma ConsistentIsSound(g: Graph)
    requires Inv(g)
    ensures Sound(g)
  {
    hide RulesOk, ListsOk;
  }

  /** Exactly when an event leaves an address in a list that is no longer in the table: when a
    * client disconnects to which somebody has a link that the walk over its own links does not
    * reach, or when the last connection of an inactive client ends whose peer has a link to it.
    */
  lemma EventLeavesNoneDangling(g: Graph, e: Event)
    requires Sound(g) && CanDoAny(g, e)
    ensures NoneDangles(NextAny(g, e).clients)
      <==> match e
           case EvDisconnect(a) => (a in g.clients ==> AllAnswered(g.clients, a))
           case EvDelConnection(src, dst) => !Strands(g.clients, src, dst) && !Strands(g.clients, dst, src)
           case _ => true
  {
    match e
    case EvActive(a, mac, iface, answers) => ActiveLeavesNoneDangling(g, a, mac, iface, answers);
    case EvInactive(a) => InactiveLeavesNoneDangling(g, a);
    case EvDisconnect(a) =>
      SoundLeads(g);
      if a in g.clients {
        DisconnectReaches(g, a);
      }
    case EvNewConnection(src, dst, pair) =>
      NewConnectionStaysSound(g, src, dst, pair);
      SoundLeads(NewConnection(g, src, dst, pair));
    case EvDelConnection(src, dst) =>
      SoundLeads(g);
      if src in g.clients && dst in g.clients {
        DelStrands(g, src, dst);
      }
  }

  const TAKEN := Answer(Some(1), Some(1), Some(1))
  const REFUSED := Answer(None, None, None)

  /** Two clients become active and connect, the second direction is refused, and the second
    * client disconnects.
    */
  const REFUSE_THEN_LEAVE: seq<Event> := [
    EvActive(1, 10, 0, []), EvActive(2, 20, 1, []), EvNewConnection(1, 2, (TAKEN, REFUSED)), EvDisconnect(2)]

  const FIRST := Client(10, 0, true, [], [])
  const SECOND := Client(20, 1, true, [], [])

  /** The first client has a link to the second, which is not in the table any more. */
  lemma RefusalLeavesADanglingLink() returns (graphs: seq<Graph>)
    ensures IsAnyRun(graphs, REFUSE_THEN_LEAVE)
    ensures graphs[4].clients == map[1 := FIRST.(links := [Link(2, 1, 1, 1)])]
  {
    hide NewConnection, WalkDisconnect, WalkActive, Leads, NewAnswersFresh, ActiveAnswersFresh;
    var g0, g1 := Graph(map[], 0, map[], 0), Graph(map[1 := FIRST], 0, map[], 0);
    var g2 := Graph(map[1 := FIRST, 2 := SECOND], 0, map[], 0);
    BothBecomeActive(g0, g1, g2);
    var g3 := NewConnection(g2, 1, 2, (TAKEN, REFUSED));
    HalfLinked(g2, FIRST, SECOND);
    SecondGoes(g3, g3.clients[1], g3.clients[2]);
    TakenIsFresh(g2);
    var g4 := WalkDisconnect(g3, 2);
    assert CanDoAny(g2, REFUSE_THEN_LEAVE[2]) && NextAny(g2, REFUSE_THEN_LEAVE[2]) == g3;
    assert CanDoAny(g3, REFUSE_THEN_LEAVE[3]) && NextAny(g3, REFUSE_THEN_LEAVE[3]) == g4;
    hide CanDoAny, NextAny;
    graphs := [g0, g1, g2, g3, g4];
  }

  lemma BothBecomeActive(g0: Graph, g1: Graph, g2: Graph)
    requires g0 == Graph(map[], 0, map[], 0) && g1 == g0.(clients := map[1 := FIRST])
    requires g2 == g0.(clients := map[1 := FIRST, 2 := SECOND])
    ensures CanDoAny(g0, REFUSE_THEN_LEAVE[0]) && NextAny(g0, REFUSE_THEN_LEAVE[0]) == g1
    ensures CanDoAny(g1, REFUSE_THEN_LEAVE[1]) && NextAny(g1, REFUSE_THEN_LEAVE[1]) == g2
  {
  }

  lemma TakenIsFresh(g: Graph)
    requires g.rules == map[]
    ensures NewAnswersFresh(g, 1, 2, (TAKEN, REFUSED))
  {
    hide AddOffloadLink, AddConnection;
  }

  lemma HalfLinked(g: Graph, first: Client, second: Client)
    requires g.clients == map[1 := first, 2 := second] && g.numOffloadPair == 0
    requires first.active && second.active && first.peers == second.peers == [] && first.links == []
    ensures NewConnection(g, 1, 2, (TAKEN, REFUSED)).clients
         == map[1 := first.(peers := [Peer(2, 1)], links := [Link(2, 1, 1, 1)]), 2 := second.(peers := [Peer(1, 1)])]
  {
    assert [] + [Peer(2, 1)] == [Peer(2, 1)] && [] + [Peer(1, 1)] == [Peer(1, 1)];
    assert [] + [Link(2, 1, 1, 1)] == [Link(2, 1, 1, 1)];
    var cs := map[1 := first.(peers := [Peer(2, 1)]), 2 := second.(peers := [Peer(1, 1)])];
    assert AddConnection(g.clients, 1, 2) == cs;
    hide AddConnection;
    var r1 := AddOffloadLink(g.(clients := cs), 1, 2, TAKEN);
    assert r1.success && !AddOffloadLink(r1.graph, 2, 1, REFUSED).success;
  }

  lemma SecondGoes(g: Graph, first: Client, second: Client)
    requires g.clients == map[1 := first, 2 := second]
    requires second.links == [] && second.peers == [Peer(1, 1)] && first.peers == [Peer(2, 1)]
    requires forall i | 0 <= i < |first.links| :: first.links[i].who == 2
    ensures Leads(g.clients, 2) && WalkDisconnect(g, 2).clients == map[1 := first.(peers := [])]
  {
    assert WithLinks(g, 2, []) == g;
    var g1 := g.(clients := WithPeers(g.clients, 1, []));
    assert Without(first.peers, 0) == [];
    assert WalkPeers(g1, 2, 1).graph.clients == WithPeers(g1.clients, 2, []);
    assert WalkPeers(g, 2, 0) == WalkPeers(g1, 2, 1);
  }
}
