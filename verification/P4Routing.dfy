/**
 Routes for the P4 fabric. Every (switch, host) rule is the first hop of a shortest path computed on
 its own; a separate walker later replays the installed rules to report where packets really go.
 */
module P4Routing {
  import opened Common
  import opened Net

  type Endpoint = (Node, Port)
  /** (dpid, destination address) -> egress port: the record of what the switches were told. */
  type Installed = map<(nat, Addr), Port>
  /** destination -> source -> node list */
  type Paths = map<Node, map<Node, seq<Node>>>
  /** The search library: a shortest path, or nothing when there is none. */
  type PathFinder = (Links, Node, Node) -> Option<seq<Node>>

  ghost predicate FindsShortest(find: PathFinder) {
    forall r, s, d ::
      match find(r, s, d)
      case Some(p) => IsShortestPath(r, p, s, d)
      case None => forall q :: !IsWalk(r, q, s, d)
  }

  // ---- all-pairs shortest paths ------------------------------------------------------------

  /** The edges whose source endpoint is believed down. */
  function DownEdges(g: Graph, down: set<Endpoint>): set<(Node, Node)> {
    set u, v | u in g.adj && v in g.adj[u] && (u, g.adj[u][v]) in down :: (u, v)
  }

  function SearchLinks(g: Graph, down: set<Endpoint>): (r: Links)
    ensures forall u, v :: Linked(r, u, v) <==> g.HasEdge(u, v) && (u, g.adj[u][v]) !in down
  {
    var drop := DownEdges(g, down);
    map u | u in g.adj :: set v | v in g.adj[u] && (u, v) !in drop
  }

  ghost predicate Reaches(r: Links, s: Node, d: Node) {
    exists n: nat :: HopsTo(r, s, d, n)
  }

  /** The table holds a shortest path for exactly the ordered pairs that have one. */
  ghost predicate AllShortest(r: Links, nodes: set<Node>, paths: Paths) {
    && paths.Keys == nodes
    && forall d :: d in nodes ==> ShortestTo(r, nodes, d, paths[d])
  }

  ghost predicate ShortestTo(r: Links, sources: set<Node>, d: Node, to: map<Node, seq<Node>>) {
    && (forall s :: s in to <==> s in sources && s != d && Reaches(r, s, d))
    && (forall s :: s in to ==> IsShortestPath(r, to[s], s, d))
  }

  lemma NoWalkNoReach(r: Links, s: Node, d: Node)
    requires forall q :: !IsWalk(r, q, s, d)
    ensures !Reaches(r, s, d)
  {
    if n: nat :| HopsTo(r, s, d, n) {
      var q := HopsWalk(r, s, d, n);
    }
  }

  method PathsTo(r: Links, nodes: seq<Node>, d: Node, find: PathFinder) returns (to: map<Node, seq<Node>>)
    requires FindsShortest(find)
    ensures ShortestTo(r, Elements(nodes), d, to)
  {
    hide IsShortestPath;
    to := map[];
    for i := 0 to |nodes|
      invariant ShortestTo(r, Elements(nodes[..i]), d, to)
    {
      var s := nodes[i];
      assert Elements(nodes[..i + 1]) == Elements(nodes[..i]) + {s};
      if s != d {
        var found := find(r, s, d);
        match found
        case Some(p) =>
          assert IsShortestPath(r, p, s, d);
          ShortestReaches(r, p, s, d);
          to := to[s := p];
        case None =>
          NoWalkNoReach(r, s, d);
      }
    }
    assert nodes[..|nodes|] == nodes;
  }

  lemma ShortestReaches(r: Links, p: seq<Node>, s: Node, d: Node)
    requires IsShortestPath(r, p, s, d)
    ensures Reaches(r, s, d)
  {
    WalkHops(r, p, s, d);
  }

  method CalculateAllPaths(g: Graph, nodes: seq<Node>, down: set<Endpoint>, find: PathFinder) returns (paths: Paths)
    requires FindsShortest(find) && Enumerates(nodes, g.adj.Keys)
    ensures AllShortest(SearchLinks(g, down), g.adj.Keys, paths)
  {
    hide ShortestTo;
    var r := SearchLinks(g, down);
    assert Elements(nodes) == g.adj.Keys;
    paths := map[];
    for i := 0 to |nodes|
      invariant forall d :: d in paths <==> d in nodes[..i]
      invariant forall d :: d in paths ==> ShortestTo(r, g.adj.Keys, d, paths[d])
    {
      var to := PathsTo(r, nodes, nodes[i], find);
      paths := paths[nodes[i] := to];
    }
  }

  // ---- the rules an install pass writes ----------------------------------------------------

  /** The (switch, host) pairs a pass writes; `only` restricts it to one switch. */
  function Wanted(paths: Paths, only: Option<nat>): (ks: set<(nat, Addr)>)
  {
    set d, s | d in paths && d.Host? && s in paths[d] && s.Switch? && (only.Some? ==> s.dpid == only.value)
      :: (s.dpid, d.ip)
  }

  lemma WantedMeans(paths: Paths, only: Option<nat>, s: nat, d: Addr)
    ensures (s, d) in Wanted(paths, only) <==>
            Host(d) in paths && Switch(s) in paths[Host(d)] && (only.Some? ==> s == only.value)
  {
    if Host(d) in paths && Switch(s) in paths[Host(d)] && (only.Some? ==> s == only.value) {
      assert (Switch(s).dpid, Host(d).ip) in Wanted(paths, only);
    }
  }

  /** The egress port of the first hop of the path chosen for this pair. */
  function RulePort(g: Graph, paths: Paths, k: (nat, Addr)): Port
    requires Host(k.1) in paths && Switch(k.0) in paths[Host(k.1)]
    requires |paths[Host(k.1)][Switch(k.0)]| >= 2
    requires g.HasEdge(Switch(k.0), paths[Host(k.1)][Switch(k.0)][1])
  {
    g.adj[Switch(k.0)][paths[Host(k.1)][Switch(k.0)][1]]
  }

  /** Every path in the table has a first hop, over a usable edge of the graph. */
  lemma FirstHopUsable(g: Graph, down: set<Endpoint>, paths: Paths, s: Node, d: Node)
    requires AllShortest(SearchLinks(g, down), g.adj.Keys, paths)
    requires d in paths && s in paths[d]
    ensures |paths[d][s]| >= 2 && g.HasEdge(s, paths[d][s][1]) && (s, g.adj[s][paths[d][s][1]]) !in down
    ensures IsDistance(SearchLinks(g, down), s, d, |paths[d][s]| - 1)
    ensures IsDistance(SearchLinks(g, down), paths[d][s][1], d, |paths[d][s]| - 2)
  {
    var r := SearchLinks(g, down);
    assert ShortestTo(r, g.adj.Keys, d, paths[d]);
    FirstHopIsCloser(r, paths[d][s], s, d);
    ShortestIsDistance(r, paths[d][s], s, d);
  }

  /** The record after a pass in which every write was accepted. */
  ghost predicate AllWritten(g: Graph, down: set<Endpoint>, paths: Paths, installed: Installed)
    requires AllShortest(SearchLinks(g, down), g.adj.Keys, paths)
  {
    forall s: nat, d: Addr :: (s, d) in Wanted(paths, None) ==> WrittenFor(g, down, paths, installed, s, d)
  }

  ghost predicate WrittenFor(g: Graph, down: set<Endpoint>, paths: Paths, installed: Installed, s: nat, d: Addr)
    requires AllShortest(SearchLinks(g, down), g.adj.Keys, paths)
    requires (s, d) in Wanted(paths, None)
  {
    WantedMeans(paths, None, s, d);
    FirstHopUsable(g, down, paths, Switch(s), Host(d));
    (s, d) in installed && installed[(s, d)] == RulePort(g, paths, (s, d))
  }

  // ---- following the installed rules -------------------------------------------------------

  function RuleAt(installed: Installed, u: Node, dst: Addr): Option<Port> {
    if u.Switch? && (u.dpid, dst) in installed then Some(installed[(u.dpid, dst)]) else None
  }

  /** The first neighbour, in insertion order, reached over this port. */
  function Behind(g: Graph, u: Node, candidates: seq<Node>, port: Port): (v: Option<Node>)
    ensures v.Some? ==> v.value in candidates && g.HasEdge(u, v.value) && g.adj[u][v.value] == port
    ensures v.None? ==> forall w :: w in candidates && g.HasEdge(u, w) ==> g.adj[u][w] != port
  {
    if candidates == [] then None
    else if g.HasEdge(u, candidates[0]) && g.adj[u][candidates[0]] == port then Some(candidates[0])
    else Behind(g, u, candidates[1..], port)
  }

  /** One hop of a packet for `dst` under the installed rules, refusing failed endpoints. */
  function NextHop(g: Graph, installed: Installed, down: set<Endpoint>, dst: Addr, u: Node): (v: Option<Node>)
    requires g.Valid()
    ensures v.Some? ==> v.value in g.adj
  {
    match RuleAt(installed, u, dst)
    case None => None
    case Some(port) => if (u, port) in down || u !in g.adj then None else Behind(g, u, g.order[u], port)
  }

  /** `p` is the journey of a packet for `dst`: every hop is the installed one, the last node is the host. */
  ghost predicate Delivers(g: Graph, installed: Installed, down: set<Endpoint>, dst: Addr, p: seq<Node>)
    requires g.Valid()
  {
    && |p| > 0 && p[|p| - 1] == Host(dst)
    && forall i :: 0 <= i < |p| - 1 ==>
         p[i] != Host(dst) && NextHop(g, installed, down, dst, p[i]) == Some(p[i + 1])
  }

  /** A host has one attachment: whoever it hears from is the only one it can talk to. */
  ghost predicate SingleHomed(g: Graph) {
    forall h: Node, u, v :: h.Host? && g.HasEdge(u, h) && g.HasEdge(h, v) ==> u == v
  }

  /** A rule out of a live port leads to the one neighbour behind that port. */
  lemma PortLeadsTo(g: Graph, installed: Installed, down: set<Endpoint>, dst: Addr, s: nat, v: Node)
    requires g.Valid() && OneNeighbourPerPort(g) && g.HasEdge(Switch(s), v)
    requires RuleAt(installed, Switch(s), dst) == Some(g.adj[Switch(s)][v]) && (Switch(s), g.adj[Switch(s)][v]) !in down
    ensures NextHop(g, installed, down, dst, Switch(s)) == Some(v)
  {
    assert v in g.order[Switch(s)];
  }

  /** Which path was chosen for a switch that can reach the host, and how far away it starts. */
  lemma ChosenPath(g: Graph, down: set<Endpoint>, paths: Paths, s: nat, d: Addr, n: nat)
    requires AllShortest(SearchLinks(g, down), g.adj.Keys, paths)
    requires Switch(s) in g.adj && Host(d) in g.adj && IsDistance(SearchLinks(g, down), Switch(s), Host(d), n)
    ensures (s, d) in Wanted(paths, None) && Host(d) in paths && Switch(s) in paths[Host(d)]
    ensures n > 0 && |paths[Host(d)][Switch(s)]| == n + 1
  {
    var r := SearchLinks(g, down);
    assert ShortestTo(r, g.adj.Keys, Host(d), paths[Host(d)]);
    assert Reaches(r, Switch(s), Host(d));
    WantedMeans(paths, None, s, d);
    FirstHopUsable(g, down, paths, Switch(s), Host(d));
    DistanceUnique(r, Switch(s), Host(d), n, |paths[Host(d)][Switch(s)]| - 1);
  }

  /** The rule of a switch that can reach the host moves the packet one hop closer, over a usable endpoint. */
  lemma RuleIsCloser(g: Graph, down: set<Endpoint>, paths: Paths, installed: Installed, s: nat, d: Addr, n: nat)
    returns (next: Node)
    requires g.Valid() && OneNeighbourPerPort(g) && SingleHomed(g)
    requires AllShortest(SearchLinks(g, down), g.adj.Keys, paths) && AllWritten(g, down, paths, installed)
    requires Switch(s) in g.adj && Host(d) in g.adj && IsDistance(SearchLinks(g, down), Switch(s), Host(d), n)
    ensures n > 0 && NextHop(g, installed, down, d, Switch(s)) == Some(next)
    ensures IsDistance(SearchLinks(g, down), next, Host(d), n - 1)
    ensures next in g.adj && (if n == 1 then next == Host(d) else next.Switch?)
  {
    hide OneNeighbourPerPort, SingleHomed, AllShortest, SearchLinks, NextHop, HopsTo;
    ChosenPath(g, down, paths, s, d, n);
    assert WrittenFor(g, down, paths, installed, s, d);
    FirstHopUsable(g, down, paths, Switch(s), Host(d));
    next := paths[Host(d)][Switch(s)][1];
    PortLeadsTo(g, installed, down, d, s, next);
    NextIsSwitch(g, down, s, next, d, n);
  }

  lemma NextIsSwitch(g: Graph, down: set<Endpoint>, s: nat, next: Node, d: Addr, n: nat)
    requires SingleHomed(g) && g.HasEdge(Switch(s), next) && n > 0
    requires IsDistance(SearchLinks(g, down), Switch(s), Host(d), n)
    requires IsDistance(SearchLinks(g, down), next, Host(d), n - 1)
    ensures if n == 1 then next == Host(d) else next.Switch?
  {
    if next.Host? && next != Host(d) {
      HostSendsBack(g, down, s, next, Host(d), n - 1);
    } else if next == Host(d) {
      assert HopsTo(SearchLinks(g, down), next, Host(d), 0);
    }
  }

  /** Another host is never on a shortest path: all it can do is send the packet back. */
  lemma HostSendsBack(g: Graph, down: set<Endpoint>, s: nat, h: Node, d: Node, m: nat)
    requires SingleHomed(g) && h.Host? && h != d && g.HasEdge(Switch(s), h)
    requires HopsTo(SearchLinks(g, down), h, d, m)
    ensures m > 0 && HopsTo(SearchLinks(g, down), Switch(s), d, m - 1)
  {
    var r := SearchLinks(g, down);
    var v :| Linked(r, h, v) && HopsTo(r, v, d, m - 1);
    assert v == Switch(s);
  }

  /**
   The independently chosen first hops compose: from any switch that can reach the host, the rules
   deliver in exactly the shortest distance, without revisiting a node and without ever leaving
   by an excluded endpoint.
   */
  lemma {:induction false} RulesDeliver(g: Graph, down: set<Endpoint>, paths: Paths, installed: Installed,
                                        s: nat, d: Addr, n: nat)
    returns (p: seq<Node>)
    requires g.Valid() && OneNeighbourPerPort(g) && SingleHomed(g)
    requires AllShortest(SearchLinks(g, down), g.adj.Keys, paths) && AllWritten(g, down, paths, installed)
    requires Switch(s) in g.adj && Host(d) in g.adj && IsDistance(SearchLinks(g, down), Switch(s), Host(d), n)
    ensures |p| == n + 1 && p[0] == Switch(s) && Delivers(g, installed, down, d, p)
    ensures forall i :: 0 <= i < n ==>
              p[i].Switch? && RuleAt(installed, p[i], d).Some? && (p[i], RuleAt(installed, p[i], d).value) !in down
    ensures NoDup(p)
    decreases n
  {
    hide OneNeighbourPerPort, SingleHomed, AllShortest, AllWritten, SearchLinks, IsDistance;
    var next := RuleIsCloser(g, down, paths, installed, s, d, n);
    if n == 1 {
      p := [Switch(s), next];
    } else {
      var tail := RulesDeliver(g, down, paths, installed, next.dpid, d, n - 1);
      p := [Switch(s)] + tail;
    }
    DeliveryIsSimple(g, installed, down, d, p);
  }

  /** Two journeys from the same node are the same journey. */
  lemma {:induction false} DeliveryUnique(g: Graph, installed: Installed, down: set<Endpoint>, dst: Addr,
                                          p: seq<Node>, q: seq<Node>)
    requires g.Valid() && Delivers(g, installed, down, dst, p) && Delivers(g, installed, down, dst, q)
    requires p[0] == q[0]
    ensures p == q
    decreases |p|
  {
    assert |p| > 1 ==> p[0] != Host(dst);
    assert |q| > 1 ==> q[0] != Host(dst);
    if |p| > 1 && |q| > 1 {
      assert NextHop(g, installed, down, dst, p[0]) == Some(p[0 + 1]);
      assert NextHop(g, installed, down, dst, q[0]) == Some(q[0 + 1]);
      DeliveryUnique(g, installed, down, dst, p[1..], q[1..]);
      assert p == [p[0]] + p[1..] && q == [q[0]] + q[1..];
    }
  }

  /** A journey that arrives cannot have been in a loop. */
  lemma DeliveryIsSimple(g: Graph, installed: Installed, down: set<Endpoint>, dst: Addr, p: seq<Node>)
    requires g.Valid() && Delivers(g, installed, down, dst, p)
    ensures NoDup(p)
  {
    forall i, j | 0 <= i <= j < |p| && p[i] == p[j]
      ensures i == j
    {
      assert Delivers(g, installed, down, dst, p[i..]) && Delivers(g, installed, down, dst, p[j..]);
      DeliveryUnique(g, installed, down, dst, p[i..], p[j..]);
      assert |p[i..]| == |p[j..]|;
    }
  }

  /** The partial journey the walker has made so far. */
  ghost predicate Prefix(g: Graph, installed: Installed, down: set<Endpoint>, dst: Addr, first: Node, p: seq<Node>, cur: Node)
    requires g.Valid()
  {
    && (forall i :: 0 <= i < |p| - 1 ==> p[i] != Host(dst) && NextHop(g, installed, down, dst, p[i]) == Some(p[i + 1]))
    && (|p| > 0 ==> p[0] == first && p[|p| - 1] != Host(dst)
                    && NextHop(g, installed, down, dst, p[|p| - 1]) == Some(cur))
    && (|p| == 0 ==> cur == first)
  }

  /** Every journey from `first` starts with what the walker has walked. */
  lemma {:induction false} PrefixOfJourney(g: Graph, installed: Installed, down: set<Endpoint>, dst: Addr,
                                           first: Node, p: seq<Node>, cur: Node, q: seq<Node>)
    requires g.Valid() && Prefix(g, installed, down, dst, first, p, cur)
    requires Delivers(g, installed, down, dst, q) && q[0] == first
    ensures |p| < |q| && q[..|p| + 1] == p + [cur]
    decreases |p|
  {
    if |p| > 0 {
      var shorter, last := p[..|p| - 1], p[|p| - 1];
      PrefixOfJourney(g, installed, down, dst, first, shorter, last, q);
      assert q[|p| - 1] == last;
      assert NextHop(g, installed, down, dst, q[|p| - 1]) == Some(q[|p| - 1 + 1]);
    }
  }

  /**
   The walker. It answers with a path exactly when following the installed rules from the source's
   first switch reaches the destination without a failed endpoint; that journey is the only one.
   */
  method InstalledPath(g: Graph, installed: Installed, srcHost: Node, dst: Addr, down: set<Endpoint>)
    returns (r: Option<seq<Node>>)
    requires g.Valid() && srcHost in g.adj && srcHost.Host? && srcHost != Host(dst)
    ensures IsWalkerAnswer(g, installed, down, srcHost, dst, r)
  {
    hide Prefix, NextHop, Delivers;
    var firstHops := g.order[srcHost];
    if |firstHops| == 0 {
      return None;
    }
    var first := firstHops[0];
    var hops := [srcHost];
    var current := first;
    assert first in g.adj[srcHost].Keys;
    PrefixStarts(g, installed, down, dst, first);
    assert hops[1..] == [];
    for k := 0 to |g.adj| + 1
      invariant |hops| == k + 1 && hops[0] == srcHost && NoDup(hops)
      invariant forall i :: 0 <= i < |hops| ==> hops[i] in g.adj
      // a host linked to itself is its own first hop, and has no rule to go on by
      invariant current in g.adj && (current !in hops || (k == 0 && current == srcHost))
      invariant Prefix(g, installed, down, dst, first, hops[1..], current)
    {
      ghost var walked := hops[1..];
      PrefixExtends(g, installed, down, dst, first, walked, current);
      hops := hops + [current];
      assert hops[1..] == walked + [current];
      if current == Host(dst) {
        return Some(hops);
      }
      var next := NextHop(g, installed, down, dst, current);
      OnlySwitchesForward(g, installed, down, dst, current);
      if next.None? || next.value in hops {
        StuckOrLooping(g, installed, down, dst, srcHost, first, walked, current);
        return None;
      }
      current := next.value;
    }
    NoDupFits(hops, g.adj.Keys);
    assert false;
  }

  lemma OnlySwitchesForward(g: Graph, installed: Installed, down: set<Endpoint>, dst: Addr, u: Node)
    requires g.Valid()
    ensures NextHop(g, installed, down, dst, u).Some? ==> u.Switch?
  {
  }

  lemma PrefixStarts(g: Graph, installed: Installed, down: set<Endpoint>, dst: Addr, first: Node)
    requires g.Valid()
    ensures Prefix(g, installed, down, dst, first, [], first)
  {
  }

  lemma PrefixExtends(g: Graph, installed: Installed, down: set<Endpoint>, dst: Addr,
                      first: Node, walked: seq<Node>, current: Node)
    requires g.Valid() && Prefix(g, installed, down, dst, first, walked, current)
    ensures current == Host(dst) ==> Delivers(g, installed, down, dst, walked + [current]) && (walked + [current])[0] == first
    ensures var next := NextHop(g, installed, down, dst, current);
            current != Host(dst) && next.Some? ==> Prefix(g, installed, down, dst, first, walked + [current], next.value)
  {
  }

  /** A journey that arrives goes on from every node before the last, to a node it has not visited. */
  lemma JourneyContinues(g: Graph, installed: Installed, down: set<Endpoint>, dst: Addr,
                         srcHost: Node, first: Node, walked: seq<Node>, current: Node, q: seq<Node>)
    requires g.Valid() && srcHost.Host? && srcHost != Host(dst) && current != Host(dst)
    requires Prefix(g, installed, down, dst, first, walked, current)
    requires Delivers(g, installed, down, dst, q) && q[0] == first
    ensures var next := NextHop(g, installed, down, dst, current);
            next.Some? && next.value != srcHost && next.value !in walked + [current]
  {
    var k := |walked|;
    PrefixOfJourney(g, installed, down, dst, first, walked, current, q);
    assert q[k] == current && k + 1 < |q|;
    assert NextHop(g, installed, down, dst, q[k]) == Some(q[k + 1]);
    DeliveryIsSimple(g, installed, down, dst, q);
    assert q[k + 1] !in q[..k + 1];
    assert k + 1 < |q| - 1 ==> NextHop(g, installed, down, dst, q[k + 1]) == Some(q[k + 1 + 1]);
  }

  /** Without a next hop, or with one already visited, no journey from `first` arrives. */
  lemma StuckOrLooping(g: Graph, installed: Installed, down: set<Endpoint>, dst: Addr,
                       srcHost: Node, first: Node, walked: seq<Node>, current: Node)
    requires g.Valid() && srcHost.Host? && srcHost != Host(dst) && current != Host(dst)
    requires Prefix(g, installed, down, dst, first, walked, current)
    requires var next := NextHop(g, installed, down, dst, current);
             next.None? || next.value == srcHost || next.value in walked + [current]
    ensures forall p :: |p| > 0 && p[0] == first ==> !Delivers(g, installed, down, dst, p)
  {
    hide Prefix, NextHop, Delivers;
    forall q | |q| > 0 && q[0] == first && Delivers(g, installed, down, dst, q)
      ensures false
    {
      JourneyContinues(g, installed, down, dst, srcHost, first, walked, current, q);
    }
  }

  // ---- what is installed against what is reported ------------------------------------------

  /** No hop of the journey leaves by one of these endpoints. */
  ghost predicate Avoids(installed: Installed, endpoints: set<Endpoint>, dst: Addr, p: seq<Node>) {
    forall i :: 0 <= i < |p| - 1 ==> !LeavesBy(installed, endpoints, dst, p[i])
  }

  ghost predicate LeavesBy(installed: Installed, endpoints: set<Endpoint>, dst: Addr, u: Node) {
    RuleAt(installed, u, dst).Some? && (u, RuleAt(installed, u, dst).value) in endpoints
  }

  lemma HopAvoiding(g: Graph, installed: Installed, moved: set<Endpoint>, withheld: set<Endpoint>, dst: Addr, u: Node, v: Node)
    requires g.Valid() && moved <= withheld
    ensures NextHop(g, installed, withheld, dst, u) == Some(v) <==>
              NextHop(g, installed, moved, dst, u) == Some(v) && !LeavesBy(installed, withheld, dst, u)
  {
  }

  /** Refusing more endpoints keeps exactly the journeys that do not use them. */
  lemma DeliversAvoiding(g: Graph, installed: Installed, moved: set<Endpoint>, withheld: set<Endpoint>, dst: Addr, p: seq<Node>)
    requires g.Valid() && moved <= withheld
    ensures Delivers(g, installed, withheld, dst, p) <==>
              Delivers(g, installed, moved, dst, p) && Avoids(installed, withheld, dst, p)
  {
    hide NextHop, LeavesBy;
    forall i | 0 <= i < |p| - 1
      ensures NextHop(g, installed, withheld, dst, p[i]) == Some(p[i + 1]) <==>
                NextHop(g, installed, moved, dst, p[i]) == Some(p[i + 1]) && !LeavesBy(installed, withheld, dst, p[i])
    {
      HopAvoiding(g, installed, moved, withheld, dst, p[i], p[i + 1]);
    }
    if Delivers(g, installed, withheld, dst, p) {
      forall i | 0 <= i < |p| - 1
        ensures NextHop(g, installed, moved, dst, p[i]) == Some(p[i + 1]) && !LeavesBy(installed, withheld, dst, p[i])
      {
        assert NextHop(g, installed, withheld, dst, p[i]) == Some(p[i + 1]);
      }
    }
    if Delivers(g, installed, moved, dst, p) && Avoids(installed, withheld, dst, p) {
      forall i | 0 <= i < |p| - 1 ensures NextHop(g, installed, withheld, dst, p[i]) == Some(p[i + 1]) {
        assert NextHop(g, installed, moved, dst, p[i]) == Some(p[i + 1]) && !LeavesBy(installed, withheld, dst, p[i]);
      }
    }
  }

  /**
   Install pass, then report. The pass routes around the endpoints worth moving traffic for; the report
   refuses every endpoint withheld from the kernel, which is at least as many. So a pair that
   can be connected has a working shortest journey `p`, and is reported exactly when that journey
   uses no withheld endpoint; what is reported is that journey.
   */
  lemma PassThenReport(g: Graph, moved: set<Endpoint>, withheld: set<Endpoint>, paths: Paths, installed: Installed,
                       srcHost: Node, dst: Addr, n: nat, r: Option<seq<Node>>)
    returns (p: seq<Node>)
    requires g.Valid() && OneNeighbourPerPort(g) && SingleHomed(g) && moved <= withheld
    requires AllShortest(SearchLinks(g, moved), g.adj.Keys, paths) && AllWritten(g, moved, paths, installed)
    requires srcHost in g.adj && Host(dst) in g.adj && |g.order[srcHost]| > 0
    requires var sw := g.order[srcHost][0];
             sw.Switch? && sw in g.adj && IsDistance(SearchLinks(g, moved), sw, Host(dst), n)
    requires IsWalkerAnswer(g, installed, withheld, srcHost, dst, r)
    ensures |p| == n + 1 && p[0] == g.order[srcHost][0] && Delivers(g, installed, moved, dst, p) && NoDup(p)
    ensures forall i :: 0 <= i < n ==> p[i].Switch? && RuleAt(installed, p[i], dst).Some?
    ensures r.Some? <==> Avoids(installed, withheld, dst, p)
    ensures r.Some? ==> r.value == [srcHost] + p
  {
    hide IsWalkerAnswer, Avoids, Delivers;
    p := RulesDeliver(g, moved, paths, installed, g.order[srcHost][0].dpid, dst, n);
    hide *;
    WorkingPairReportedIff(g, moved, withheld, installed, srcHost, dst, p, r);
  }

  /** Whatever wrote the rules: a pair whose packets arrive is reported exactly when they use nothing withheld. */
  lemma WorkingPairReportedIff(g: Graph, moved: set<Endpoint>, withheld: set<Endpoint>, installed: Installed,
                               srcHost: Node, dst: Addr, p: seq<Node>, r: Option<seq<Node>>)
    requires g.Valid() && moved <= withheld && srcHost in g.adj && |g.order[srcHost]| > 0
    requires Delivers(g, installed, moved, dst, p) && |p| > 0 && p[0] == g.order[srcHost][0]
    requires IsWalkerAnswer(g, installed, withheld, srcHost, dst, r)
    ensures r.Some? <==> Avoids(installed, withheld, dst, p)
    ensures r.Some? ==> r.value == [srcHost] + p
  {
    hide Delivers, Avoids;
    DeliversAvoiding(g, installed, moved, withheld, dst, p);
    if r.Some? {
      DeliversAvoiding(g, installed, moved, withheld, dst, r.value[1..]);
      DeliveryUnique(g, installed, moved, dst, p, r.value[1..]);
      assert r.value == [srcHost] + r.value[1..];
    }
  }

  /** What the walker promises of its answer. */
  ghost predicate IsWalkerAnswer(g: Graph, installed: Installed, down: set<Endpoint>, srcHost: Node, dst: Addr, r: Option<seq<Node>>)
    requires g.Valid() && srcHost in g.adj
  {
    && (r.Some? ==>
          && |r.value| >= 2 && r.value[0] == srcHost && |g.order[srcHost]| > 0
          && r.value[1] == g.order[srcHost][0]
          && Delivers(g, installed, down, dst, r.value[1..]) && NoDup(r.value))
    && (r.None? ==> |g.order[srcHost]| == 0 || forall p :: |p| > 0 && p[0] == g.order[srcHost][0] ==>
                                                              !Delivers(g, installed, down, dst, p))
  }
}
