/**
 The graph both controllers route over, with walks, hop counts and distances.
 A graph is a networkx DiGraph: per node a dict from neighbour to egress port, in insertion order.
 */
module Net {
  import opened Common

  type Port = nat

  /** An IPv4 address as a number. */
  type Addr = n: nat | n < 0x1_0000_0000

  datatype Node = Switch(dpid: nat) | Host(ip: Addr)

  datatype Graph = Graph(adj: map<Node, map<Node, Port>>, order: map<Node, seq<Node>>) {
    ghost predicate Valid() {
      && order.Keys == adj.Keys
      && (forall u, v :: u in adj && v in adj[u] ==> v in adj)
      && (forall u :: u in adj ==> Enumerates(order[u], adj[u].Keys))
    }

    predicate HasEdge(u: Node, v: Node) {
      u in adj && v in adj[u]
    }
  }

  /** No port of a node carries two neighbours: a port is one physical link. */
  ghost predicate OneNeighbourPerPort(g: Graph) {
    forall u, v, w :: g.HasEdge(u, v) && g.HasEdge(u, w) && g.adj[u][v] == g.adj[u][w] ==> v == w
  }

  /** A successor relation: the links a search is allowed to use. */
  type Links = map<Node, set<Node>>

  predicate Linked(r: Links, u: Node, v: Node) {
    u in r && v in r[u]
  }

  /** Some walk of exactly `n` hops leads from `u` to `d`. */
  ghost predicate HopsTo(r: Links, u: Node, d: Node, n: nat)
    decreases n
  {
    if n == 0 then u == d else exists v :: Linked(r, u, v) && HopsTo(r, v, d, n - 1)
  }

  /** `n` is the least number of hops from `u` to `d`. */
  ghost predicate IsDistance(r: Links, u: Node, d: Node, n: nat) {
    && HopsTo(r, u, d, n)
    && forall m: nat :: m < n ==> !HopsTo(r, u, d, m)
  }

  ghost predicate IsWalk(r: Links, p: seq<Node>, u: Node, d: Node) {
    && |p| > 0 && p[0] == u && p[|p| - 1] == d
    && forall i :: 0 <= i < |p| - 1 ==> Linked(r, p[i], p[i + 1])
  }

  ghost predicate IsShortestPath(r: Links, p: seq<Node>, u: Node, d: Node) {
    && IsWalk(r, p, u, d)
    && forall q :: IsWalk(r, q, u, d) ==> |p| <= |q|
  }

  lemma {:induction false} WalkHops(r: Links, p: seq<Node>, u: Node, d: Node)
    requires IsWalk(r, p, u, d)
    ensures HopsTo(r, u, d, |p| - 1)
    decreases |p|
  {
    if |p| > 1 {
      WalkHops(r, p[1..], p[1], d);
      assert Linked(r, p[0], p[0 + 1]);
    }
  }

  lemma {:induction false} HopsWalk(r: Links, u: Node, d: Node, n: nat) returns (p: seq<Node>)
    requires HopsTo(r, u, d, n)
    ensures IsWalk(r, p, u, d) && |p| == n + 1
    decreases n
  {
    if n == 0 {
      p := [u];
    } else {
      var v :| Linked(r, u, v) && HopsTo(r, v, d, n - 1);
      var tail := HopsWalk(r, v, d, n - 1);
      p := [u] + tail;
    }
  }

  /** A shortest path measures the distance. */
  lemma ShortestIsDistance(r: Links, p: seq<Node>, u: Node, d: Node)
    requires IsShortestPath(r, p, u, d)
    ensures IsDistance(r, u, d, |p| - 1)
  {
    WalkHops(r, p, u, d);
    forall m: nat | m < |p| - 1
      ensures !HopsTo(r, u, d, m)
    {
      if HopsTo(r, u, d, m) {
        var q := HopsWalk(r, u, d, m);
      }
    }
  }

  /** The first hop of any shortest walk is one hop closer, whichever walk was chosen. */
  lemma FirstHopIsCloser(r: Links, p: seq<Node>, u: Node, d: Node)
    requires IsShortestPath(r, p, u, d) && u != d
    ensures |p| >= 2 && Linked(r, u, p[1]) && IsDistance(r, p[1], d, |p| - 2)
  {
    assert Linked(r, p[0], p[0 + 1]);
    assert IsWalk(r, p[1..], p[1], d);
    WalkHops(r, p[1..], p[1], d);
    ShortestIsDistance(r, p, u, d);
    forall m: nat | m < |p| - 2
      ensures !HopsTo(r, p[1], d, m)
    {
      if HopsTo(r, p[1], d, m) {
        assert HopsTo(r, u, d, m + 1);
      }
    }
  }

  lemma DistanceUnique(r: Links, u: Node, d: Node, m: nat, n: nat)
    requires IsDistance(r, u, d, m) && IsDistance(r, u, d, n)
    ensures m == n
  {
  }

  /** Every reachable node has a distance. */
  lemma {:induction false} DistanceExists(r: Links, u: Node, d: Node, n: nat) returns (k: nat)
    requires HopsTo(r, u, d, n)
    ensures k <= n && IsDistance(r, u, d, k)
    decreases n
  {
    if m: nat :| m < n && HopsTo(r, u, d, m) {
      k := DistanceExists(r, u, d, m);
    } else {
      k := n;
    }
  }
}
