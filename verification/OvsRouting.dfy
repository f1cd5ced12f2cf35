/**
 All-pair route installation for the OpenFlow fabric: per destination a queue BFS outward from the
 destination's attachment switch, one rule per switch reached, and a path report rebuilt from the
 parent table. Links may be present in one direction only.
 */
module OvsRouting {
  import opened Common
  import opened Net

  /** The links the BFS may walk: both directions present, both ends connected switches. */
  function BiLinks(g: Graph, connected: set<Node>): (r: Links)
  {
    map u | u in g.adj && u in connected :: set v | v in g.adj[u] && v in connected && g.HasEdge(v, u)
  }

  type Item = (Node, Option<Node>)

  /** The neighbours the inner loop appends, in the order it visits them. */
  function Eligible(s: seq<Node>, g: Graph, connected: set<Node>, visited: set<Node>, cur: Node): (r: seq<Node>)
    ensures forall w :: w in r <==> w in s && w !in visited && w in connected && g.HasEdge(w, cur)
  {
    if s == [] then [] else
      var last := s[|s| - 1];
      assert s == s[..|s| - 1] + [last];
      var rest := Eligible(s[..|s| - 1], g, connected, visited, cur);
      if last !in visited && last in connected && g.HasEdge(last, cur) then rest + [last] else rest
  }

  function Items(ws: seq<Node>, cur: Node): (r: seq<Item>)
    ensures |r| == |ws| && forall i :: 0 <= i < |r| ==> r[i] == (ws[i], Some(cur))
  {
    seq(|ws|, i requires 0 <= i < |ws| => (ws[i], Some(cur)))
  }

  // ---- the BFS invariant -------------------------------------------------------------------

  /** `level[i]` is the hop count the i-th queued switch would get if it were taken now. */
  ghost predicate QueueOk(r: Links, a: Node, queue: seq<Item>, level: seq<nat>, depth: map<Node, nat>) {
    && |level| == |queue|
    && (forall i :: 0 <= i < |queue| ==>
          match queue[i].1
          case None => queue[i].0 == a && level[i] == 0
          case Some(p) => p in depth && Linked(r, queue[i].0, p) && level[i] == depth[p] + 1)
    && (forall i, j :: 0 <= i < j < |level| ==> level[i] <= level[j] <= level[i] + 1)
  }

  ghost predicate Queued(queue: seq<Item>, level: seq<nat>, w: Node, bound: nat)
    requires |queue| == |level|
  {
    exists i :: 0 <= i < |queue| && queue[i].0 == w && level[i] <= bound
  }

  /** Every switch already taken has its exact distance, and its neighbours are taken or queued. */
  ghost predicate DepthOk(r: Links, a: Node, queue: seq<Item>, level: seq<nat>, depth: map<Node, nat>)
    requires |queue| == |level|
  {
    && (forall v :: v in depth ==> IsDistance(r, v, a, depth[v]))
    && (forall v, w :: v in depth && Linked(r, w, v) && w !in depth ==> Queued(queue, level, w, depth[v] + 1))
    && (a in depth || Queued(queue, level, a, 0))
  }

  /** Everything nearer than the front of the queue has been taken. */
  ghost predicate FrontOk(r: Links, a: Node, queue: seq<Item>, level: seq<nat>, depth: map<Node, nat>)
    requires |queue| == |level|
  {
    forall u, m: nat :: (queue == [] || m < level[0]) && HopsTo(r, u, a, m) ==> u in depth
  }

  ghost predicate BfsInv(r: Links, a: Node, queue: seq<Item>, level: seq<nat>, depth: map<Node, nat>) {
    && QueueOk(r, a, queue, level, depth)
    && DepthOk(r, a, queue, level, depth)
    && FrontOk(r, a, queue, level, depth)
  }

  /**
   The frontier advances: when everything queued is at level `l + 1` or beyond and every node
   within fewer than `l` hops is taken, every node at `l` hops is taken too.
   */
  lemma LevelComplete(r: Links, a: Node, queue: seq<Item>, level: seq<nat>, depth: map<Node, nat>, l: nat, u: Node)
    requires |queue| == |level| && DepthOk(r, a, queue, level, depth)
    requires forall i :: 0 <= i < |level| ==> level[i] > l
    requires forall v, m: nat :: m < l && HopsTo(r, v, a, m) ==> v in depth
    requires HopsTo(r, u, a, l)
    ensures u in depth
  {
    if l > 0 {
      var w :| Linked(r, u, w) && HopsTo(r, w, a, l - 1);
      assert w in depth && depth[w] <= l - 1;
    }
  }

  lemma {:induction false} AllReachableTaken(r: Links, a: Node, depth: map<Node, nat>, u: Node, n: nat)
    requires DepthOk(r, a, [], [], depth) && HopsTo(r, u, a, n)
    ensures u in depth
    decreases n
  {
    if n > 0 {
      var w :| Linked(r, u, w) && HopsTo(r, w, a, n - 1);
      AllReachableTaken(r, a, depth, w, n - 1);
    }
  }

  lemma FrontAfter(r: Links, a: Node, queue: seq<Item>, level: seq<nat>, depth: map<Node, nat>, l: nat)
    requires QueueOk(r, a, queue, level, depth) && DepthOk(r, a, queue, level, depth)
    requires forall i :: 0 <= i < |level| ==> l <= level[i] <= l + 1
    requires forall v, m: nat :: m < l && HopsTo(r, v, a, m) ==> v in depth
    ensures FrontOk(r, a, queue, level, depth)
  {
    forall u, m: nat | (queue == [] || m < level[0]) && HopsTo(r, u, a, m)
      ensures u in depth
    {
      if queue == [] {
        AllReachableTaken(r, a, depth, u, m);
      } else if m >= l {
        assert m == l && level[0] == l + 1;
        LevelComplete(r, a, queue, level, depth, l, u);
      }
    }
  }

  /** Popping a switch that was already taken keeps the invariant. */
  lemma SkipKeeps(r: Links, a: Node, queue: seq<Item>, level: seq<nat>, depth: map<Node, nat>)
    requires BfsInv(r, a, queue, level, depth) && queue != [] && queue[0].0 in depth
    ensures BfsInv(r, a, queue[1..], level[1..], depth)
  {
    var q, lv := queue[1..], level[1..];
    assert QueueOk(r, a, q, lv, depth);
    forall w, b: nat | w !in depth && Queued(queue, level, w, b)
      ensures Queued(q, lv, w, b)
    {
      var i :| 0 <= i < |queue| && queue[i].0 == w && level[i] <= b;
      assert q[i - 1].0 == w && lv[i - 1] <= b;
    }
    assert DepthOk(r, a, q, lv, depth);
    FrontAfter(r, a, q, lv, depth, level[0]);
  }

  /** A switch popped for the first time is popped at its exact distance. */
  lemma PoppedAtDistance(r: Links, a: Node, queue: seq<Item>, level: seq<nat>, depth: map<Node, nat>)
    requires BfsInv(r, a, queue, level, depth) && queue != [] && queue[0].0 !in depth
    ensures IsDistance(r, queue[0].0, a, level[0])
  {
    var (cur, prev) := queue[0];
    if prev.Some? {
      assert Linked(r, cur, prev.value) && HopsTo(r, prev.value, a, depth[prev.value]);
    }
    assert HopsTo(r, cur, a, level[0]);
  }

  /** Taking a switch and queueing its untaken neighbours keeps the invariant. */
  lemma TakeKeeps(r: Links, a: Node, queue: seq<Item>, level: seq<nat>, depth: map<Node, nat>, news: seq<Node>)
    requires BfsInv(r, a, queue, level, depth) && queue != [] && queue[0].0 !in depth
    requires forall w :: w in news <==> Linked(r, w, queue[0].0) && w !in depth && w != queue[0].0
    ensures BfsInv(r, a, queue[1..] + Items(news, queue[0].0),
                   level[1..] + seq(|news|, _ => level[0] + 1), depth[queue[0].0 := level[0]])
  {
    PoppedAtDistance(r, a, queue, level, depth);
    TakeQueueOk(r, a, queue, level, depth, news);
    TakeDepthOk(r, a, queue, level, depth, news);
    var d' := depth[queue[0].0 := level[0]];
    assert forall v, m: nat :: m < level[0] && HopsTo(r, v, a, m) ==> v in d';
    TakeLevels(level, |news|);
    FrontAfter(r, a, queue[1..] + Items(news, queue[0].0), level[1..] + seq(|news|, _ => level[0] + 1), d', level[0]);
  }

  lemma TakeLevels(level: seq<nat>, n: nat)
    requires |level| > 0 && forall i, j :: 0 <= i < j < |level| ==> level[i] <= level[j] <= level[i] + 1
    ensures var lv := level[1..] + seq(n, _ => level[0] + 1);
            forall i :: 0 <= i < |lv| ==> level[0] <= lv[i] <= level[0] + 1
  {
  }

  lemma TakeQueueOk(r: Links, a: Node, queue: seq<Item>, level: seq<nat>, depth: map<Node, nat>, news: seq<Node>)
    requires QueueOk(r, a, queue, level, depth) && queue != [] && queue[0].0 !in depth
    requires forall w :: w in news ==> Linked(r, w, queue[0].0)
    ensures QueueOk(r, a, queue[1..] + Items(news, queue[0].0),
                    level[1..] + seq(|news|, _ => level[0] + 1), depth[queue[0].0 := level[0]])
  {
    var cur, l := queue[0].0, level[0];
    var q := queue[1..] + Items(news, cur);
    forall i | 0 <= i < |q|
      ensures i < |queue| - 1 ==> q[i] == queue[i + 1]
      ensures i >= |queue| - 1 ==> q[i] == (news[i - (|queue| - 1)], Some(cur)) && Linked(r, q[i].0, cur)
    {
      if i >= |queue| - 1 {
        assert news[i - (|queue| - 1)] in news;
      }
    }
  }

  lemma TakeDepthOk(r: Links, a: Node, queue: seq<Item>, level: seq<nat>, depth: map<Node, nat>, news: seq<Node>)
    requires |queue| == |level| > 0 && DepthOk(r, a, queue, level, depth) && queue[0].0 !in depth
    requires IsDistance(r, queue[0].0, a, level[0])
    requires forall w :: w in news <==> Linked(r, w, queue[0].0) && w !in depth && w != queue[0].0
    ensures DepthOk(r, a, queue[1..] + Items(news, queue[0].0),
                    level[1..] + seq(|news|, _ => level[0] + 1), depth[queue[0].0 := level[0]])
  {
    var cur, l := queue[0].0, level[0];
    var d' := depth[cur := l];
    var q := queue[1..] + Items(news, cur);
    var lv := level[1..] + seq(|news|, _ => l + 1);
    forall w, b: nat | w !in d' && Queued(queue, level, w, b)
      ensures Queued(q, lv, w, b)
    {
      var i :| 0 <= i < |queue| && queue[i].0 == w && level[i] <= b;
      assert q[i - 1].0 == w && lv[i - 1] <= b;
    }
    forall v, w | v in d' && Linked(r, w, v) && w !in d'
      ensures Queued(q, lv, w, d'[v] + 1)
    {
      if v == cur {
        var k :| 0 <= k < |news| && news[k] == w;
        assert q[|queue| - 1 + k].0 == w && lv[|queue| - 1 + k] == l + 1;
      }
    }
    if a !in d' {
      assert Queued(queue, level, a, 0);
    }
  }

  // ---- what the walk leaves behind ---------------------------------------------------------

  /**
   The rules and parents installed for destination `dst` attached to `a`: a rule on exactly the
   switches that can reach `a`, each pointing at a neighbour one hop closer.
   */
  ghost predicate ShortestTree(g: Graph, r: Links, a: Node, dst: Node,
                               rules: map<Node, Port>, parent: map<Node, Option<Node>>) {
    && parent.Keys == rules.Keys + {dst} && dst !in rules && parent[dst] == None
    && (forall s :: s in rules <==> exists n: nat :: HopsTo(r, s, a, n))
    && (forall s :: s in rules ==> Placed(g, r, a, dst, s, rules[s], parent[s]))
  }

  ghost predicate Placed(g: Graph, r: Links, a: Node, dst: Node, s: Node, port: Port, up: Option<Node>) {
    if s == a then
      up == Some(dst) && g.HasEdge(a, dst) && port == g.adj[a][dst]
    else
      && up.Some? && g.HasEdge(s, up.value) && port == g.adj[s][up.value]
      && Linked(r, s, up.value)
      && exists n: nat :: IsDistance(r, s, a, n + 1) && IsDistance(r, up.value, a, n)
  }

  /** The state of rules and parents while the BFS runs. */
  ghost predicate Partial(g: Graph, r: Links, a: Node, dst: Node, depth: map<Node, nat>,
                          rules: map<Node, Port>, parent: map<Node, Option<Node>>) {
    && rules.Keys == depth.Keys && dst !in rules
    && parent.Keys == rules.Keys + {dst} && parent[dst] == None
    && (forall s :: s in rules ==> Placed(g, r, a, dst, s, rules[s], parent[s]))
  }

  /** Everything the BFS maintains while the attachment switch is connected. */
  ghost predicate Running(g: Graph, connected: set<Node>, a: Node, dst: Node, queue: seq<Item>, level: seq<nat>,
                          depth: map<Node, nat>, rules: map<Node, Port>, parent: map<Node, Option<Node>>) {
    && |level| == |queue|
    && BfsInv(BiLinks(g, connected), a, queue, level, depth)
    && Partial(g, BiLinks(g, connected), a, dst, depth, rules, parent)
    && forall i :: 0 <= i < |queue| ==> queue[i].0 in connected && queue[i].0 in g.adj
  }

  /** Where a popped switch sends packets for `dst`: to the switch that queued it, or to the host. */
  function Toward(dst: Node, prev: Option<Node>): Node {
    if prev.Some? then prev.value else dst
  }

  lemma RunningStarts(g: Graph, connected: set<Node>, a: Node, dst: Node)
    requires g.Valid() && a in connected && a in g.adj
    ensures Running(g, connected, a, dst, [(a, None)], [0], map[], map[], map[dst := None])
  {
    var queue: seq<Item>, level: seq<nat> := [(a, None)], [0];
    assert queue[0].0 == a && level[0] <= 0;
    assert Queued(queue, level, a, 0);
  }

  lemma RunningSkips(g: Graph, connected: set<Node>, a: Node, dst: Node, queue: seq<Item>, level: seq<nat>,
                     depth: map<Node, nat>, rules: map<Node, Port>, parent: map<Node, Option<Node>>)
    requires Running(g, connected, a, dst, queue, level, depth, rules, parent)
    requires queue != [] && queue[0].0 in depth
    ensures Running(g, connected, a, dst, queue[1..], level[1..], depth, rules, parent)
  {
    SkipKeeps(BiLinks(g, connected), a, queue, level, depth);
  }

  lemma RunningTakes(g: Graph, connected: set<Node>, a: Node, dst: Node, queue: seq<Item>, level: seq<nat>,
                     depth: map<Node, nat>, rules: map<Node, Port>, parent: map<Node, Option<Node>>, news: seq<Node>)
    requires g.HasEdge(a, dst) && dst !in connected
    requires Running(g, connected, a, dst, queue, level, depth, rules, parent)
    requires queue != [] && queue[0].0 !in depth
    requires var cur := queue[0].0;
             forall w :: w in news <==> g.HasEdge(cur, w) && g.HasEdge(w, cur) && w in connected
                                        && w !in depth && w != cur
    ensures var (cur, prev) := queue[0]; var next := Toward(dst, prev);
            && g.HasEdge(cur, next)
            && Running(g, connected, a, dst, queue[1..] + Items(news, cur),
                       level[1..] + seq(|news|, _ => level[0] + 1), depth[cur := level[0]],
                       rules[cur := g.adj[cur][next]], parent[cur := Some(next)])
  {
    hide BfsInv, Placed, Partial;
    var cur := queue[0].0;
    var r := BiLinks(g, connected);
    PlacedWhenPopped(g, connected, a, dst, queue, level, depth);
    PartialTakes(g, r, a, dst, depth, rules, parent, cur, Toward(dst, queue[0].1), level[0]);
    assert queue[0].0 in connected;
    forall w ensures w in news <==> Linked(r, w, cur) && w !in depth && w != cur {
    }
    TakeKeeps(r, a, queue, level, depth, news);
    TakeStaysInside(g, connected, queue, news);
  }

  lemma PartialTakes(g: Graph, r: Links, a: Node, dst: Node, depth: map<Node, nat>, rules: map<Node, Port>,
                     parent: map<Node, Option<Node>>, cur: Node, next: Node, l: nat)
    requires Partial(g, r, a, dst, depth, rules, parent) && cur != dst && g.HasEdge(cur, next)
    requires Placed(g, r, a, dst, cur, g.adj[cur][next], Some(next))
    ensures Partial(g, r, a, dst, depth[cur := l], rules[cur := g.adj[cur][next]], parent[cur := Some(next)])
  {
  }

  lemma TakeStaysInside(g: Graph, connected: set<Node>, queue: seq<Item>, news: seq<Node>)
    requires queue != [] && forall i :: 0 <= i < |queue| ==> queue[i].0 in connected && queue[i].0 in g.adj
    requires forall w :: w in news ==> w in connected && w in g.adj
    ensures var q := queue[1..] + Items(news, queue[0].0);
            forall i :: 0 <= i < |q| ==> q[i].0 in connected && q[i].0 in g.adj
  {
    var q := queue[1..] + Items(news, queue[0].0);
    forall i | 0 <= i < |q|
      ensures q[i].0 in connected && q[i].0 in g.adj
    {
      if i >= |queue| - 1 {
        assert news[i - (|queue| - 1)] in news;
      } else {
        assert q[i] == queue[i + 1];
      }
    }
  }

  lemma RunningEnds(g: Graph, connected: set<Node>, a: Node, dst: Node, depth: map<Node, nat>,
                    rules: map<Node, Port>, parent: map<Node, Option<Node>>)
    requires Running(g, connected, a, dst, [], [], depth, rules, parent)
    ensures ShortestTree(g, BiLinks(g, connected), a, dst, rules, parent)
  {
    var r := BiLinks(g, connected);
    forall s ensures s in rules <==> exists n: nat :: HopsTo(r, s, a, n) {
      if s in rules {
        assert HopsTo(r, s, a, depth[s]);
      }
    }
  }

  method EnqueueNeighbours(g: Graph, connected: set<Node>, visited: set<Node>, cur: Node,
                           neighbours: seq<Node>, queue: seq<Item>)
    returns (longer: seq<Item>)
    ensures longer == queue + Items(Eligible(neighbours, g, connected, visited, cur), cur)
  {
    longer := queue;
    for i := 0 to |neighbours|
      invariant longer == queue + Items(Eligible(neighbours[..i], g, connected, visited, cur), cur)
    {
      var w := neighbours[i];
      assert neighbours[..i + 1][..i] == neighbours[..i];
      if w !in visited && w in connected && g.HasEdge(w, cur) {
        longer := longer + [(w, Some(cur))];
      }
    }
    assert neighbours[..|neighbours|] == neighbours;
  }

  /** The loop's bookkeeping that only the proof needs: queue levels and exact distances. */
  datatype Trail = Trail(level: seq<nat>, depth: map<Node, nat>)

  /** The loop invariant, covering an attachment switch that is not connected as well. */
  ghost predicate Looping(g: Graph, connected: set<Node>, a: Node, dst: Node, t: Trail, queue: seq<Item>,
                          visited: set<Node>, rules: map<Node, Port>, parent: map<Node, Option<Node>>) {
    && visited == t.depth.Keys && visited <= g.adj.Keys
    && if a in connected then
         Running(g, connected, a, dst, queue, t.level, t.depth, rules, parent)
       else
         && rules == map[] && |t.level| == |queue|
         && if queue == [] then parent == map[dst := None, a := Some(dst)]
            else parent == map[dst := None] && queue == [(a, None)] && visited == {}
  }

  lemma LoopStarts(g: Graph, connected: set<Node>, a: Node, dst: Node)
    requires g.Valid() && a in g.adj
    ensures Looping(g, connected, a, dst, Trail([0], map[]), [(a, None)], {}, map[], map[dst := None])
  {
    if a in connected {
      RunningStarts(g, connected, a, dst);
    }
  }

  lemma LoopSkips(g: Graph, connected: set<Node>, a: Node, dst: Node, t: Trail, queue: seq<Item>,
                  visited: set<Node>, rules: map<Node, Port>, parent: map<Node, Option<Node>>) returns (t': Trail)
    requires Looping(g, connected, a, dst, t, queue, visited, rules, parent)
    requires queue != [] && queue[0].0 in visited
    ensures Looping(g, connected, a, dst, t', queue[1..], visited, rules, parent)
  {
    RunningSkips(g, connected, a, dst, queue, t.level, t.depth, rules, parent);
    t' := Trail(t.level[1..], t.depth);
  }

  lemma LoopFront(g: Graph, connected: set<Node>, a: Node, dst: Node, t: Trail, queue: seq<Item>, visited: set<Node>,
                  rules: map<Node, Port>, parent: map<Node, Option<Node>>)
    requires g.HasEdge(a, dst) && queue != [] && queue[0].0 !in visited
    requires Looping(g, connected, a, dst, t, queue, visited, rules, parent)
    ensures g.HasEdge(queue[0].0, Toward(dst, queue[0].1))
  {
    if a in connected {
      PlacedWhenPopped(g, connected, a, dst, queue, t.level, t.depth);
    }
  }

  /** An attachment switch that is not connected ends the walk with its parent recorded and no rule. */
  lemma LoopDrops(g: Graph, connected: set<Node>, a: Node, dst: Node, t: Trail, queue: seq<Item>, visited: set<Node>,
                  rules: map<Node, Port>, parent: map<Node, Option<Node>>) returns (t': Trail)
    requires g.HasEdge(a, dst) && queue != [] && queue[0].0 !in visited && queue[0].0 !in connected
    requires Looping(g, connected, a, dst, t, queue, visited, rules, parent)
    ensures var (cur, prev) := queue[0];
            Looping(g, connected, a, dst, t', queue[1..], visited + {cur}, rules,
                    parent[cur := Some(Toward(dst, prev))])
  {
    hide BfsInv, Partial;
    assert a !in connected;
    t' := Trail([], t.depth[queue[0].0 := 0]);
  }

  lemma LoopTakes(g: Graph, connected: set<Node>, a: Node, dst: Node, t: Trail, queue: seq<Item>, visited: set<Node>,
                  rules: map<Node, Port>, parent: map<Node, Option<Node>>, order: seq<Node>) returns (t': Trail)
    requires g.HasEdge(a, dst) && dst !in connected
    requires queue != [] && queue[0].0 !in visited && queue[0].0 in connected && queue[0].0 in g.adj
    requires Looping(g, connected, a, dst, t, queue, visited, rules, parent)
    requires forall w :: w in order <==> w in g.adj[queue[0].0]
    ensures var (cur, prev) := queue[0]; var next := Toward(dst, prev);
            && g.HasEdge(cur, next)
            && Looping(g, connected, a, dst, t',
                       queue[1..] + Items(Eligible(order, g, connected, visited + {cur}, cur), cur),
                       visited + {cur}, rules[cur := g.adj[cur][next]], parent[cur := Some(next)])
  {
    hide BfsInv, Partial;
    var cur := queue[0].0;
    var news := Eligible(order, g, connected, visited + {cur}, cur);
    RunningTakes(g, connected, a, dst, queue, t.level, t.depth, rules, parent, news);
    t' := Trail(t.level[1..] + seq(|news|, _ => t.level[0] + 1), t.depth[cur := t.level[0]]);
  }

  lemma LoopEnds(g: Graph, connected: set<Node>, a: Node, dst: Node, t: Trail,
                 visited: set<Node>, rules: map<Node, Port>, parent: map<Node, Option<Node>>)
    requires Looping(g, connected, a, dst, t, [], visited, rules, parent)
    ensures a in connected ==> ShortestTree(g, BiLinks(g, connected), a, dst, rules, parent)
    ensures a !in connected ==> rules == map[] && parent == map[dst := None, a := Some(dst)]
  {
    if a in connected {
      RunningEnds(g, connected, a, dst, t.depth, rules, parent);
    }
  }

  /** The walk for one destination, with neighbours taken in any order. */
  method InstallToward(g: Graph, connected: set<Node>, hashOrder: map<Node, seq<Node>>, dst: Node, a: Node)
    returns (rules: map<Node, Port>, parent: map<Node, Option<Node>>)
    requires g.Valid() && dst.Host? && g.HasEdge(a, dst) && a.Switch?
    requires forall c :: c in connected ==> c.Switch?
    requires hashOrder.Keys == g.adj.Keys && forall u :: u in g.adj ==> Enumerates(hashOrder[u], g.adj[u].Keys)
    ensures a in connected ==> ShortestTree(g, BiLinks(g, connected), a, dst, rules, parent)
    ensures a !in connected ==> rules == map[] && parent == map[dst := None, a := Some(dst)]
  {
    hide Looping, ShortestTree, BiLinks;
    rules, parent := map[], map[dst := None];
    var visited: set<Node> := {};
    var queue: seq<Item> := [(a, None)];
    LoopStarts(g, connected, a, dst);
    ghost var t := Trail([0], map[]);
    while queue != []
      invariant Looping(g, connected, a, dst, t, queue, visited, rules, parent)
      decreases |g.adj.Keys - visited|, |queue|
    {
      var (cur, prev) := queue[0];
      if cur in visited {
        t := LoopSkips(g, connected, a, dst, t, queue, visited, rules, parent);
        queue := queue[1..];
        continue;
      }
      LoopFront(g, connected, a, dst, t, queue, visited, rules, parent);
      SmallerRemainder(g.adj.Keys, visited, cur);
      var outPort := g.adj[cur][Toward(dst, prev)];
      if cur !in connected {
        t := LoopDrops(g, connected, a, dst, t, queue, visited, rules, parent);
      } else {
        t := LoopTakes(g, connected, a, dst, t, queue, visited, rules, parent, hashOrder[cur]);
      }
      queue := queue[1..];
      visited := visited + {cur};
      parent := parent[cur := Some(Toward(dst, prev))];
      if cur !in connected {
        continue;
      }
      rules := rules[cur := outPort];
      queue := EnqueueNeighbours(g, connected, visited, cur, hashOrder[cur], queue);
    }
    LoopEnds(g, connected, a, dst, t, visited, rules, parent);
  }

  lemma SmallerRemainder(all: set<Node>, visited: set<Node>, cur: Node)
    requires cur in all && cur !in visited
    ensures |all - (visited + {cur})| < |all - visited|
  {
    assert all - visited == (all - (visited + {cur})) + {cur};
  }

  lemma PlacedWhenPopped(g: Graph, connected: set<Node>, a: Node, dst: Node,
                         queue: seq<Item>, level: seq<nat>, depth: map<Node, nat>)
    requires g.HasEdge(a, dst)
    requires BfsInv(BiLinks(g, connected), a, queue, level, depth) && queue != [] && queue[0].0 !in depth
    ensures var (cur, prev) := queue[0];
            if prev.None? then Placed(g, BiLinks(g, connected), a, dst, cur, g.adj[a][dst], Some(dst))
            else g.HasEdge(cur, prev.value)
                 && Placed(g, BiLinks(g, connected), a, dst, cur, g.adj[cur][prev.value], prev)
  {
    var r := BiLinks(g, connected);
    var (cur, prev) := queue[0];
    PoppedAtDistance(r, a, queue, level, depth);
    if prev.Some? {
      assert IsDistance(r, prev.value, a, depth[prev.value]);
      assert IsDistance(r, cur, a, depth[prev.value] + 1);
      if cur == a {
        assert HopsTo(r, a, a, 0);
        assert false;
      }
    }
  }

  // ---- following the rules, and the reported paths -----------------------------------------

  type Hop = (Node, Port)

  /** A packet at `u` leaves on its rule's port and arrives at the node behind that port. */
  ghost predicate Forwards(g: Graph, rules: map<Node, Port>, u: Node, v: Node) {
    u in rules && g.HasEdge(u, v) && g.adj[u][v] == rules[u]
  }

  /** What happens to a packet for `dst` at `s`: the nodes it visits and the port it leaves each by. */
  ghost predicate IsTrace(g: Graph, rules: map<Node, Port>, dst: Node, s: Node, t: seq<Hop>) {
    && |t| > 0 && t[0].0 == s && t[|t| - 1] == (dst, 0)
    && forall i :: 0 <= i < |t| - 1 ==>
         t[i].0 != dst && Forwards(g, rules, t[i].0, t[i + 1].0) && t[i].1 == rules[t[i].0]
  }

  /** The path rebuilt from the parent table: each node with its port toward its parent. */
  ghost predicate IsReported(g: Graph, parent: map<Node, Option<Node>>, s: Node, t: seq<Hop>) {
    && |t| > 0 && t[0].0 == s
    && t[|t| - 1].0 in parent && parent[t[|t| - 1].0] == None && t[|t| - 1].1 == 0
    && forall i :: 0 <= i < |t| - 1 ==> IsUpHop(g, parent, t[i], t[i + 1].0)
  }

  ghost predicate IsUpHop(g: Graph, parent: map<Node, Option<Node>>, hop: Hop, up: Node) {
    && hop.0 in parent && parent[hop.0] == Some(up)
    && g.HasEdge(hop.0, up) && hop.1 == g.adj[hop.0][up]
  }

  /** Parents lead strictly downward in `rank`, along edges of the graph. */
  ghost predicate Descends(g: Graph, parent: map<Node, Option<Node>>, rank: map<Node, nat>) {
    && rank.Keys == parent.Keys
    && forall x :: x in parent && parent[x].Some? ==>
         parent[x].value in parent && rank[parent[x].value] < rank[x] && g.HasEdge(x, parent[x].value)
  }

  lemma TreeDescends(g: Graph, r: Links, a: Node, dst: Node, rules: map<Node, Port>, parent: map<Node, Option<Node>>)
    returns (rank: map<Node, nat>)
    requires ShortestTree(g, r, a, dst, rules, parent)
    ensures Descends(g, parent, rank)
  {
    forall s | s in rules
      ensures exists n: nat :: IsDistance(r, s, a, n)
    {
      var n: nat :| HopsTo(r, s, a, n);
      var k := DistanceExists(r, s, a, n);
    }
    rank := map s | s in parent :: if s == dst then 0 else 1 + DistanceOf(r, s, a);
    forall x | x in parent && parent[x].Some?
      ensures parent[x].value in parent && rank[parent[x].value] < rank[x] && g.HasEdge(x, parent[x].value)
    {
      if x != a {
        var n: nat :| IsDistance(r, x, a, n + 1) && IsDistance(r, parent[x].value, a, n);
        assert HopsTo(r, parent[x].value, a, n);
        assert parent[x].value in rules;
        DistanceUnique(r, x, a, n + 1, DistanceOf(r, x, a));
        DistanceUnique(r, parent[x].value, a, n, DistanceOf(r, parent[x].value, a));
      }
    }
  }

  ghost function DistanceOf(r: Links, u: Node, d: Node): (n: nat)
    requires exists n: nat :: IsDistance(r, u, d, n)
    ensures IsDistance(r, u, d, n)
  {
    var n: nat :| IsDistance(r, u, d, n); n
  }

  /** The reconstruction loop: follow parents from `s` until the entry that has none. */
  method PathFrom(g: Graph, parent: map<Node, Option<Node>>, ghost rank: map<Node, nat>, s: Node) returns (path: seq<Hop>)
    requires Descends(g, parent, rank) && s in parent
    ensures IsReported(g, parent, s, path)
  {
    path := [];
    var node := Some(s);
    while node.Some?
      invariant node.Some? ==> node.value in parent && (|path| == 0 ==> node.value == s)
      invariant |path| > 0 ==> path[0].0 == s
      invariant forall i :: 0 <= i < |path| - 1 ==> IsUpHop(g, parent, path[i], path[i + 1].0)
      invariant |path| > 0 && node.Some? ==> IsUpHop(g, parent, path[|path| - 1], node.value)
      invariant node.None? ==> IsReported(g, parent, s, path)
      decreases if node.Some? then 1 + rank[node.value] else 0
    {
      var up := parent[node.value];
      if up.Some? {
        path := path + [(node.value, g.adj[node.value][up.value])];
      } else {
        path := path + [(node.value, 0)];
      }
      node := up;
    }
  }

  /** Along a reported path every switch is one hop closer than the one before. */
  lemma {:induction false} ReportedDistances(g: Graph, r: Links, a: Node, dst: Node, rules: map<Node, Port>,
                                             parent: map<Node, Option<Node>>, s: Node, t: seq<Hop>)
    requires ShortestTree(g, r, a, dst, rules, parent) && s in rules && IsReported(g, parent, s, t)
    ensures |t| >= 2 && t[|t| - 2].0 == a && t[|t| - 1] == (dst, 0)
    ensures forall i :: 0 <= i < |t| - 1 ==> t[i].0 in rules && IsDistance(r, t[i].0, a, |t| - 2 - i)
    decreases |t|
  {
    assert Placed(g, r, a, dst, s, rules[s], parent[s]);
    assert |t| >= 2;
    assert IsUpHop(g, parent, t[0], t[0 + 1].0);
    if s == a {
      assert t[1].0 == dst;
      assert |t| > 2 ==> !IsUpHop(g, parent, t[1], t[1 + 1].0);
      assert HopsTo(r, a, a, 0);
    } else {
      var n: nat :| IsDistance(r, s, a, n + 1) && IsDistance(r, parent[s].value, a, n);
      assert HopsTo(r, t[1].0, a, n);
      forall i | 0 <= i < |t[1..]| - 1
        ensures IsUpHop(g, parent, t[1..][i], t[1..][i + 1].0)
      {
        assert IsUpHop(g, parent, t[i + 1], t[i + 1 + 1].0);
      }
      ReportedDistances(g, r, a, dst, rules, parent, t[1].0, t[1..]);
      assert IsDistance(r, t[1..][0].0, a, |t[1..]| - 2);
      DistanceUnique(r, t[1].0, a, n, |t| - 3);
      forall i | 0 <= i < |t| - 1
        ensures t[i].0 in rules && IsDistance(r, t[i].0, a, |t| - 2 - i)
      {
        if i > 0 {
          assert t[i] == t[1..][i - 1];
        }
      }
    }
  }

  /**
   The reported path of a switch is exactly the trace of a packet through the installed rules,
   delivers in the minimum number of hops, and never visits a node twice.
   */
  lemma ReportedIsTrace(g: Graph, r: Links, a: Node, dst: Node, rules: map<Node, Port>,
                        parent: map<Node, Option<Node>>, s: Node, t: seq<Hop>)
    requires ShortestTree(g, r, a, dst, rules, parent) && s in rules && IsReported(g, parent, s, t)
    ensures IsTrace(g, rules, dst, s, t)
    ensures |t| >= 2 && IsDistance(r, s, a, |t| - 2)
    ensures forall i, j :: 0 <= i < j < |t| ==> t[i].0 != t[j].0
  {
    ReportedDistances(g, r, a, dst, rules, parent, s, t);
    forall i | 0 <= i < |t| - 1
      ensures t[i].0 != dst && Forwards(g, rules, t[i].0, t[i + 1].0) && t[i].1 == rules[t[i].0]
    {
      assert IsUpHop(g, parent, t[i], t[i + 1].0);
      assert Placed(g, r, a, dst, t[i].0, rules[t[i].0], parent[t[i].0]);
    }
    forall i, j | 0 <= i < j < |t|
      ensures t[i].0 != t[j].0
    {
      assert IsDistance(r, t[i].0, a, |t| - 2 - i);
      assert j < |t| - 1 ==> HopsTo(r, t[j].0, a, |t| - 2 - j);
    }
  }

  /** With one neighbour per port the fabric leaves a packet no choice. */
  lemma {:induction false} TraceUnique(g: Graph, rules: map<Node, Port>, dst: Node, s: Node, t: seq<Hop>, t': seq<Hop>)
    requires OneNeighbourPerPort(g)
    requires IsTrace(g, rules, dst, s, t) && IsTrace(g, rules, dst, s, t')
    ensures t == t'
    decreases |t|
  {
    assert |t| > 1 ==> t[0].0 != dst;
    assert |t'| > 1 ==> t'[0].0 != dst;
    if |t| > 1 && |t'| > 1 {
      assert Forwards(g, rules, t[0].0, t[0 + 1].0) && Forwards(g, rules, t'[0].0, t'[0 + 1].0);
      TraceUnique(g, rules, dst, t[1].0, t[1..], t'[1..]);
      assert t == [t[0]] + t[1..] && t' == [t'[0]] + t'[1..];
    }
  }

  /**
   What the walk reports for the attachment switch is what the installed rules do exactly when
   that switch is connected: its parent is recorded before the "not connected" skip.
   */
  lemma ReportHonestIff(g: Graph, connected: set<Node>, a: Node, dst: Node, rules: map<Node, Port>,
                        parent: map<Node, Option<Node>>, t: seq<Hop>)
    requires a != dst && IsReported(g, parent, a, t)
    requires a in connected ==> ShortestTree(g, BiLinks(g, connected), a, dst, rules, parent)
    requires a !in connected ==> rules == map[] && parent == map[dst := None, a := Some(dst)]
    ensures IsTrace(g, rules, dst, a, t) <==> a in connected
  {
    if a in connected {
      assert HopsTo(BiLinks(g, connected), a, a, 0);
      ReportedIsTrace(g, BiLinks(g, connected), a, dst, rules, parent, a, t);
    } else {
      assert |t| > 1 ==> !Forwards(g, rules, t[0].0, t[0 + 1].0);
    }
  }

  // ---- the report over all source hosts ----------------------------------------------------

  /** The host's attachment switch: its first neighbour. */
  function Attachment(g: Graph, h: Node): Node
    requires h in g.order && |g.order[h]| > 0
  {
    g.order[h][0]
  }

  ghost predicate HostsAttached(g: Graph, hosts: seq<Node>) {
    forall h :: h in hosts ==> h in g.order && |g.order[h]| > 0 && g.HasEdge(Attachment(g, h), h)
  }

  /** One line of the report: a source host, its ingress port, and the path from its switch. */
  datatype Entry = Entry(source: Node, ingress: Port, path: seq<Hop>)

  ghost predicate IsEntry(g: Graph, parent: map<Node, Option<Node>>, dst: Node, e: Entry) {
    && e.source != dst && e.source in g.order && |g.order[e.source]| > 0
    && g.HasEdge(Attachment(g, e.source), e.source)
    && e.ingress == g.adj[Attachment(g, e.source)][e.source]
    && IsReported(g, parent, Attachment(g, e.source), e.path)
  }

  ghost predicate OnePerSource(entries: seq<Entry>) {
    forall i, j :: 0 <= i < j < |entries| ==> entries[i].source != entries[j].source
  }

  ghost predicate Lists(entries: seq<Entry>, h: Node) {
    exists i :: 0 <= i < |entries| && entries[i].source == h
  }

  /** The entries for the hosts hanging off one switch. */
  method ReportFrom(g: Graph, parent: map<Node, Option<Node>>, hosts: seq<Node>, dst: Node, sw: Node, path: seq<Hop>)
    returns (entries: seq<Entry>)
    requires HostsAttached(g, hosts) && NoDup(hosts) && IsReported(g, parent, sw, path)
    ensures forall i :: 0 <= i < |entries| ==>
              && IsEntry(g, parent, dst, entries[i])
              && entries[i].source in hosts && Attachment(g, entries[i].source) == sw
    ensures forall h :: h in hosts && h != dst && Attachment(g, h) == sw ==> Lists(entries, h)
    ensures OnePerSource(entries)
  {
    entries := [];
    for k := 0 to |hosts|
      invariant forall i :: 0 <= i < |entries| ==>
                  && IsEntry(g, parent, dst, entries[i])
                  && entries[i].source in hosts[..k] && Attachment(g, entries[i].source) == sw
      invariant forall i :: 0 <= i < k && hosts[i] != dst && Attachment(g, hosts[i]) == sw ==> Lists(entries, hosts[i])
      invariant OnePerSource(entries)
    {
      var h := hosts[k];
      if h != dst && Attachment(g, h) == sw {
        ghost var before := entries;
        entries := entries + [Entry(h, g.adj[sw][h], path)];
        assert entries[|entries| - 1].source == h;
        ListsConcat(before, [Entry(h, g.adj[sw][h], path)]);
      }
    }
  }

  /**
   The whole report for one destination: exactly one entry for every other host whose switch the
   walk recorded, carrying that switch's reported path.
   */
  method Report(g: Graph, parent: map<Node, Option<Node>>, ghost rank: map<Node, nat>, order: seq<Node>,
                hosts: seq<Node>, dst: Node)
    returns (report: seq<Entry>)
    requires Descends(g, parent, rank) && Enumerates(order, parent.Keys)
    requires HostsAttached(g, hosts) && NoDup(hosts)
    ensures forall i :: 0 <= i < |report| ==>
              IsEntry(g, parent, dst, report[i]) && report[i].source in hosts && Attachment(g, report[i].source) in parent
    ensures forall h :: h in hosts && h != dst ==> (Lists(report, h) <==> Attachment(g, h) in parent)
    ensures OnePerSource(report)
  {
    hide IsReported, IsUpHop;
    report := [];
    for k := 0 to |order|
      invariant forall i :: 0 <= i < |report| ==>
                  && IsEntry(g, parent, dst, report[i])
                  && report[i].source in hosts && Attachment(g, report[i].source) in order[..k]
      invariant forall h :: h in hosts && h != dst && Attachment(g, h) in order[..k] ==> Lists(report, h)
      invariant OnePerSource(report)
    {
      var sw := order[k];
      var path := PathFrom(g, parent, rank, sw);
      var entries := ReportFrom(g, parent, hosts, dst, sw, path);
      ghost var before := report;
      report := report + entries;
      assert sw !in order[..k];
      ListsConcat(before, entries);
    }
  }

  lemma ListsConcat(xs: seq<Entry>, ys: seq<Entry>)
    ensures forall h :: Lists(xs + ys, h) <==> Lists(xs, h) || Lists(ys, h)
  {
    forall h | Lists(xs, h)
      ensures Lists(xs + ys, h)
    {
      var i :| 0 <= i < |xs| && xs[i].source == h;
      assert (xs + ys)[i].source == h;
    }
    forall h | Lists(ys, h)
      ensures Lists(xs + ys, h)
    {
      var i :| 0 <= i < |ys| && ys[i].source == h;
      assert (xs + ys)[|xs| + i].source == h;
    }
  }

  // ---- one destination, from the graph to the report ----------------------------------------

  /** The keys of a dict, in whatever order it iterates. */
  method KeysOf(keys: set<Node>) returns (order: seq<Node>)
    ensures Enumerates(order, keys)
  {
    order := [];
    var left := keys;
    while left != {}
      invariant left <= keys && Enumerates(order, keys - left)
      decreases |left|
    {
      var x :| x in left;
      order := order + [x];
      left := left - {x};
    }
  }

  lemma UnconnectedDescends(g: Graph, a: Node, dst: Node, parent: map<Node, Option<Node>>) returns (rank: map<Node, nat>)
    requires a != dst && g.HasEdge(a, dst) && parent == map[dst := None, a := Some(dst)]
    ensures Descends(g, parent, rank)
  {
    rank := map[dst := 0, a := 1];
  }

  /** An entry that tells the truth: what the rules do from the source's switch, in the fewest hops. */
  ghost predicate IsTrue(g: Graph, r: Links, a: Node, dst: Node, rules: map<Node, Port>, e: Entry)
    requires e.source in g.order && |g.order[e.source]| > 0
  {
    && IsTrace(g, rules, dst, Attachment(g, e.source), e.path)
    && |e.path| >= 2 && IsDistance(r, Attachment(g, e.source), a, |e.path| - 2)
  }

  /**
   Installing toward one destination and reporting on it. With the attachment switch connected the
   report lists every other host that can reach the destination, each with what its packets really
   do, in the fewest hops. Without, it lists the other hosts on that switch, and every line is untrue.
   */
  method InstallAndReport(g: Graph, connected: set<Node>, hashOrder: map<Node, seq<Node>>, dst: Node, a: Node, hosts: seq<Node>)
    returns (rules: map<Node, Port>, report: seq<Entry>)
    requires g.Valid() && dst.Host? && g.HasEdge(a, dst) && a.Switch?
    requires forall c :: c in connected ==> c.Switch?
    requires hashOrder.Keys == g.adj.Keys && forall u :: u in g.adj ==> Enumerates(hashOrder[u], g.adj[u].Keys)
    requires HostsAttached(g, hosts) && NoDup(hosts) && forall h :: h in hosts ==> Attachment(g, h).Switch?
    ensures OnePerSource(report)
    ensures forall i :: 0 <= i < |report| ==> report[i].source in hosts && report[i].source in g.order && |g.order[report[i].source]| > 0
    // every line is true, or, with the attachment switch gone, every line is untrue
    ensures forall i :: 0 <= i < |report| ==>
              if a in connected then IsTrue(g, BiLinks(g, connected), a, dst, rules, report[i])
              else !IsTrace(g, rules, dst, Attachment(g, report[i].source), report[i].path)
    // who is listed
    ensures forall h :: h in hosts && h != dst ==>
              (Lists(report, h) <==> if a in connected then CanReach(g, connected, Attachment(g, h), a) else Attachment(g, h) == a)
  {
    hide ShortestTree, IsTrace, IsDistance, HopsTo, BiLinks, Descends, IsTrue, CanReach, OnePerSource, Lists;
    var parent;
    rules, parent := InstallToward(g, connected, hashOrder, dst, a);
    var order := KeysOf(parent.Keys);
    ghost var rank: map<Node, nat>;
    if a in connected {
      rank := TreeDescends(g, BiLinks(g, connected), a, dst, rules, parent);
    } else {
      rank := UnconnectedDescends(g, a, dst, parent);
    }
    report := Report(g, parent, rank, order, hosts, dst);
    forall i | 0 <= i < |report|
      ensures if a in connected then IsTrue(g, BiLinks(g, connected), a, dst, rules, report[i])
              else !IsTrace(g, rules, dst, Attachment(g, report[i].source), report[i].path)
    {
      JudgeEntry(g, connected, a, dst, rules, parent, report[i]);
    }
    forall h | h in hosts && h != dst
      ensures Attachment(g, h) in parent <==> if a in connected then CanReach(g, connected, Attachment(g, h), a) else Attachment(g, h) == a
    {
      ParentsAreReachable(g, connected, a, dst, rules, parent, Attachment(g, h));
    }
  }

  ghost predicate CanReach(g: Graph, connected: set<Node>, s: Node, a: Node) {
    exists n: nat :: HopsTo(BiLinks(g, connected), s, a, n)
  }

  lemma ParentsAreReachable(g: Graph, connected: set<Node>, a: Node, dst: Node, rules: map<Node, Port>, parent: map<Node, Option<Node>>, s: Node)
    requires a in connected ==> ShortestTree(g, BiLinks(g, connected), a, dst, rules, parent)
    requires a !in connected ==> rules == map[] && parent == map[dst := None, a := Some(dst)]
    requires s != dst
    ensures s in parent <==> if a in connected then CanReach(g, connected, s, a) else s == a
  {
  }

  lemma JudgeEntry(g: Graph, connected: set<Node>, a: Node, dst: Node, rules: map<Node, Port>, parent: map<Node, Option<Node>>, e: Entry)
    requires a != dst && IsEntry(g, parent, dst, e) && Attachment(g, e.source) != dst && Attachment(g, e.source) in parent
    requires a in connected ==> ShortestTree(g, BiLinks(g, connected), a, dst, rules, parent)
    requires a !in connected ==> rules == map[] && parent == map[dst := None, a := Some(dst)]
    ensures if a in connected then IsTrue(g, BiLinks(g, connected), a, dst, rules, e)
            else !IsTrace(g, rules, dst, Attachment(g, e.source), e.path)
  {
    var sw := Attachment(g, e.source);
    if a in connected {
      var r := BiLinks(g, connected);
      assert sw in rules;
      ReportedIsTrace(g, r, a, dst, rules, parent, sw, e.path);
      ReportedDistances(g, r, a, dst, rules, parent, sw, e.path);
      assert e.path[0].0 == sw;
    } else {
      ReportHonestIff(g, connected, a, dst, rules, parent, e.path);
    }
  }
}
