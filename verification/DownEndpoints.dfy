/**
 Two readings of the beacon table. One answers what the twin should stop claiming, and errs on the
 side of withholding; the other what switches should be reprogrammed for, and forgives a switch
 that has gone deaf while it still answers its control channel.
 */
module DownEndpoints {
  import opened Common
  import opened Net
  import opened LinkWatchdog
  import P4Routing

  type Endpoint = (nat, nat)

  predicate IsDown(bs: Beacons, l: Link) {
    l in bs && bs[l].down
  }

  /** Every inbound link is quiet, there is one, and the switch still answers probes. */
  predicate Suspect(bs: Beacons, probe: map<nat, bool>, d: nat) {
    && (exists l :: l in bs && l.dst == d)
    && (forall l :: l in bs && l.dst == d ==> bs[l].down)
    && d in probe && probe[d]
  }

  /** Inbound-only silence at a stalled switch: the link itself is fine. */
  predicate Forgiven(bs: Beacons, probe: map<nat, bool>, l: Link) {
    Suspect(bs, probe, l.dst) && !IsDown(bs, l.Reverse())
  }

  /** What is worth moving traffic for. */
  function Reroutable(bs: Beacons, probe: map<nat, bool>): set<Endpoint> {
    set l | l in bs && bs[l].down && !Forgiven(bs, probe, l) :: (l.src, l.srcPort)
  }

  /** What the kernel is no longer told about. */
  function Withheld(bs: Beacons): set<Endpoint> {
    (set l | l in bs && bs[l].down :: (l.src, l.srcPort))
    + (set l | l in bs && bs[l].down && (l.Reverse() !in bs || bs[l.Reverse()].down) :: (l.dst, l.dstPort))
  }

  // ---- the loops ---------------------------------------------------------------------------

  method DownLinkEndpoints(bs: Beacons, order: seq<Link>) returns (down: set<Endpoint>)
    requires Enumerates(order, bs.Keys)
    ensures down == Withheld(bs)
  {
    down := {};
    for i := 0 to |order|
      invariant forall e :: e in down <==> exists l :: l in order[..i] && WithholdsBy(bs, l, e)
    {
      var l := order[i];
      ghost var before := down;
      if bs[l].down {
        down := down + {(l.src, l.srcPort)};
        if l.Reverse() !in bs || bs[l.Reverse()].down {
          down := down + {(l.dst, l.dstPort)};
        }
      }
      forall e ensures e in down <==> exists m :: m in order[..i + 1] && WithholdsBy(bs, m, e) {
        if e in down && e !in before {
          assert l in order[..i + 1] && WithholdsBy(bs, l, e);
        }
      }
    }
    forall e: Endpoint ensures e in down <==> e in Withheld(bs) {
      assert order[..|order|] == order;
      if e in Withheld(bs) {
        var l :| l in bs && WithholdsBy(bs, l, e);
        assert l in order;
      }
    }
  }

  ghost predicate WithholdsBy(bs: Beacons, l: Link, e: Endpoint) {
    && l in bs && bs[l].down
    && (e == (l.src, l.srcPort) || (e == (l.dst, l.dstPort) && (l.Reverse() !in bs || bs[l.Reverse()].down)))
  }

  method InboundLinks(order: seq<Link>) returns (inbound: map<nat, set<Link>>)
    ensures forall d :: d in inbound <==> exists l :: l in order && l.dst == d
    ensures forall d, l :: d in inbound ==> (l in inbound[d] <==> l in order && l.dst == d)
  {
    inbound := map[];
    for i := 0 to |order|
      invariant forall d :: d in inbound <==> exists l :: l in order[..i] && l.dst == d
      invariant forall d, l :: d in inbound ==> (l in inbound[d] <==> l in order[..i] && l.dst == d)
    {
      var l := order[i];
      var sofar := if l.dst in inbound then inbound[l.dst] else {};
      inbound := inbound[l.dst := sofar + {l}];
      assert order[..i + 1] == order[..i] + [l];
      assert l in order[..i + 1];
    }
    assert order[..|order|] == order;
  }

  method SuspectSwitches(bs: Beacons, order: seq<Link>, probe: map<nat, bool>) returns (suspect: set<nat>)
    requires Enumerates(order, bs.Keys)
    ensures forall d :: d in suspect <==> Suspect(bs, probe, d)
  {
    var inbound := InboundLinks(order);
    suspect := set d | d in inbound && d in probe && probe[d] && forall l :: l in inbound[d] ==> bs[l].down;
    forall d ensures d in suspect <==> Suspect(bs, probe, d) {
      SuspectByInbound(bs, probe, order, inbound, d);
    }
  }

  method ReroutableDownEndpoints(bs: Beacons, order: seq<Link>, probe: map<nat, bool>) returns (moved: set<Endpoint>)
    requires Enumerates(order, bs.Keys)
    ensures moved == Reroutable(bs, probe)
  {
    var suspect := SuspectSwitches(bs, order, probe);
    hide Suspect;
    moved := {};
    for i := 0 to |order|
      invariant forall e :: e in moved <==> exists l :: l in order[..i] && MovesBy(bs, probe, l, e)
    {
      var l := order[i];
      ghost var before := moved;
      if bs[l].down && !(l.dst in suspect && !(l.Reverse() in bs && bs[l.Reverse()].down)) {
        moved := moved + {(l.src, l.srcPort)};
      }
      forall e ensures e in moved <==> exists m :: m in order[..i + 1] && MovesBy(bs, probe, m, e) {
        if e in moved && e !in before {
          assert l in order[..i + 1] && MovesBy(bs, probe, l, e);
        }
      }
    }
    assert order[..|order|] == order;
    forall e: Endpoint ensures e in moved <==> e in Reroutable(bs, probe) {
      if e in Reroutable(bs, probe) {
        var l :| l in bs && MovesBy(bs, probe, l, e);
        assert l in order;
      }
    }
  }

  ghost predicate MovesBy(bs: Beacons, probe: map<nat, bool>, l: Link, e: Endpoint) {
    l in bs && bs[l].down && !Forgiven(bs, probe, l) && e == (l.src, l.srcPort)
  }

  lemma SuspectByInbound(bs: Beacons, probe: map<nat, bool>, order: seq<Link>, inbound: map<nat, set<Link>>, d: nat)
    requires Enumerates(order, bs.Keys)
    requires d in inbound <==> exists l :: l in order && l.dst == d
    requires forall l :: d in inbound ==> (l in inbound[d] <==> l in order && l.dst == d)
    ensures Suspect(bs, probe, d) <==>
            d in inbound && d in probe && probe[d] && forall l :: l in inbound[d] ==> l in bs && bs[l].down
  {
  }

  // ---- how the two readings relate ---------------------------------------------------------

  /** Endpoints that trigger rerouting are among those withheld from the kernel. */
  lemma ReroutedAreWithheld(bs: Beacons, probe: map<nat, bool>)
    ensures Reroutable(bs, probe) <= Withheld(bs)
  {
  }

  /** A link dead in both directions is rerouted from both ends, suspect switch or not. */
  lemma DeadBothWaysIsRerouted(bs: Beacons, probe: map<nat, bool>, l: Link)
    requires IsDown(bs, l) && IsDown(bs, l.Reverse())
    ensures (l.src, l.srcPort) in Reroutable(bs, probe) && (l.dst, l.dstPort) in Reroutable(bs, probe)
  {
    assert l.Reverse().Reverse() == l;
    assert (l.Reverse().src, l.Reverse().srcPort) == (l.dst, l.dstPort);
  }

  /** A physical port carries one link: no endpoint sends or receives on two. */
  ghost predicate OneLinkPerEndpoint(bs: Beacons) {
    && (forall l, m :: l in bs && m in bs && l.src == m.src && l.srcPort == m.srcPort ==> l == m)
    && (forall l, m :: l in bs && m in bs && l.dst == m.dst && l.dstPort == m.dstPort ==> l == m)
    && (forall l, m :: l in bs && m in bs && l.src == m.dst && l.srcPort == m.dstPort ==> m == l.Reverse())
  }

  /** An endpoint is rerouted exactly when its own link is down and not forgiven. */
  lemma ReroutedIff(bs: Beacons, probe: map<nat, bool>, l: Link)
    requires OneLinkPerEndpoint(bs) && l in bs
    ensures (l.src, l.srcPort) in Reroutable(bs, probe) <==> bs[l].down && !Forgiven(bs, probe, l)
  {
  }

  /**
   An endpoint whose direction was observed is withheld on its own evidence alone; one that was only
   inferred is withheld exactly when the direction toward it is down.
   */
  lemma WithheldIff(bs: Beacons, l: Link)
    requires OneLinkPerEndpoint(bs) && l in bs
    ensures (l.src, l.srcPort) in Withheld(bs) <==> bs[l].down
    ensures l.Reverse() !in bs ==> ((l.dst, l.dstPort) in Withheld(bs) <==> bs[l].down)
  {
    assert l.Reverse().Reverse() == l;
    if (l.src, l.srcPort) in Withheld(bs) {
      var m :| m in bs && WithholdsBy(bs, m, (l.src, l.srcPort));
    }
    if (l.dst, l.dstPort) in Withheld(bs) {
      var m :| m in bs && WithholdsBy(bs, m, (l.dst, l.dstPort));
      assert (l.dst, l.dstPort) == (m.src, m.srcPort) ==> l == m.Reverse() && m == l.Reverse();
    }
  }

  /** The endpoints excluded from the route search. */
  function Excluded(bs: Beacons, probe: map<nat, bool>): set<P4Routing.Endpoint> {
    set e | e in Reroutable(bs, probe) :: (Switch(e.0), e.1)
  }

  /** `bs'` is `bs` after switch `x` went deaf: links into it fell quiet, each with its outbound half alive. */
  ghost predicate WentDeaf(bs: Beacons, bs': Beacons, probe: map<nat, bool>, x: nat) {
    && bs'.Keys == bs.Keys && Suspect(bs', probe, x)
    && (forall l :: IsDown(bs, l) ==> IsDown(bs', l))
    && (forall l :: IsDown(bs', l) && !IsDown(bs, l) ==> l.dst == x && !IsDown(bs', l.Reverse()))
  }

  /** A switch going deaf never adds a reroute. */
  lemma StallAddsNothing(bs: Beacons, bs': Beacons, probe: map<nat, bool>, x: nat)
    requires WentDeaf(bs, bs', probe, x)
    ensures Reroutable(bs', probe) <= Reroutable(bs, probe)
  {
    forall l | l in bs' && bs'[l].down && !Forgiven(bs', probe, l)
      ensures (l.src, l.srcPort) in Reroutable(bs, probe)
    {
      StallKeepsVerdict(bs, bs', probe, x, l);
    }
  }

  /** A link that was already down and is not half-quiet into `x` is judged as before. */
  lemma StallKeepsVerdict(bs: Beacons, bs': Beacons, probe: map<nat, bool>, x: nat, l: Link)
    requires WentDeaf(bs, bs', probe, x)
    ensures IsDown(bs', l) && !Forgiven(bs', probe, l) ==> IsDown(bs, l) && !Forgiven(bs, probe, l)
    ensures IsDown(bs, l) && !Forgiven(bs, probe, l) && (l.dst == x ==> IsDown(bs, l.Reverse())) ==>
              IsDown(bs', l) && !Forgiven(bs', probe, l)
  {
    assert l.Reverse().Reverse() == l;
    assert IsDown(bs', l.Reverse()) && !IsDown(bs, l.Reverse()) ==> !IsDown(bs', l.Reverse().Reverse());
    if l.dst != x {
      OthersUnmoved(bs, bs', probe, x, l.dst);
    }
  }

  lemma OthersUnmoved(bs: Beacons, bs': Beacons, probe: map<nat, bool>, x: nat, y: nat)
    requires WentDeaf(bs, bs', probe, x) && y != x
    ensures Suspect(bs', probe, y) <==> Suspect(bs, probe, y)
  {
    forall l | l in bs && l.dst == y
      ensures bs[l].down == bs'[l].down
    {
      assert IsDown(bs, l) == IsDown(bs', l);
    }
  }

  /**
   A switch going deaf leaves the rerouted endpoints as they were exactly when it was suspect before, or
   every link into it that was already quiet is dead in both directions.
   */
  lemma StallMovesNothingIff(bs: Beacons, bs': Beacons, probe: map<nat, bool>, x: nat)
    requires WentDeaf(bs, bs', probe, x) && OneLinkPerEndpoint(bs)
    ensures Reroutable(bs', probe) == Reroutable(bs, probe) <==>
              Suspect(bs, probe, x) || forall l :: IsDown(bs, l) && l.dst == x ==> IsDown(bs, l.Reverse())
  {
    StallAddsNothing(bs, bs', probe, x);
    if Suspect(bs, probe, x) || forall l :: IsDown(bs, l) && l.dst == x ==> IsDown(bs, l.Reverse()) {
      forall l | l in bs && bs[l].down && !Forgiven(bs, probe, l) ensures (l.src, l.srcPort) in Reroutable(bs', probe) {
        StallKeepsVerdict(bs, bs', probe, x, l);
      }
    } else {
      var l :| IsDown(bs, l) && l.dst == x && !IsDown(bs, l.Reverse());
      HalfQuietIsForgiven(bs, bs', probe, x, l);
      assert OneLinkPerEndpoint(bs');
      ReroutedIff(bs, probe, l);
      ReroutedIff(bs', probe, l);
      assert (l.src, l.srcPort) in Reroutable(bs, probe) && (l.src, l.srcPort) !in Reroutable(bs', probe);
    }
  }

  lemma HalfQuietIsForgiven(bs: Beacons, bs': Beacons, probe: map<nat, bool>, x: nat, l: Link)
    requires WentDeaf(bs, bs', probe, x) && IsDown(bs, l) && l.dst == x && !IsDown(bs, l.Reverse())
    ensures IsDown(bs', l) && Forgiven(bs', probe, l)
  {
    hide Suspect;
    assert l.Reverse().Reverse() == l;
    assert IsDown(bs', l.Reverse()) ==> !IsDown(bs', l.Reverse().Reverse());
  }

  /** Where the endpoints stay, so does every path searched over the same graph. */
  lemma StallMovesNothing(bs: Beacons, bs': Beacons, probe: map<nat, bool>, x: nat,
                          g: Graph, find: P4Routing.PathFinder, s: Node, d: Node)
    requires WentDeaf(bs, bs', probe, x) && OneLinkPerEndpoint(bs)
    requires Suspect(bs, probe, x) || forall l :: IsDown(bs, l) && l.dst == x ==> IsDown(bs, l.Reverse())
    ensures find(P4Routing.SearchLinks(g, Excluded(bs', probe)), s, d) == find(P4Routing.SearchLinks(g, Excluded(bs, probe)), s, d)
  {
    StallMovesNothingIff(bs, bs', probe, x);
  }

  // ---- what is reported while a fault lasts --------------------------------------------------

  /** The endpoints the path report refuses. */
  function Hidden(bs: Beacons): set<P4Routing.Endpoint> {
    set e | e in Withheld(bs) :: (Switch(e.0), e.1)
  }

  lemma ExcludedAreHidden(bs: Beacons, probe: map<nat, bool>)
    ensures Excluded(bs, probe) <= Hidden(bs)
  {
    ReroutedAreWithheld(bs, probe);
  }

  /**
   Withheld and yet not rerouted are exactly the sending ends of forgiven links and the far ends of
   down links whose other direction was never heard.
   */
  lemma HiddenNotMovedIff(bs: Beacons, probe: map<nat, bool>, e: Endpoint)
    requires OneLinkPerEndpoint(bs)
    ensures e in Withheld(bs) && e !in Reroutable(bs, probe) <==> exists l :: IsDown(bs, l) && HidesOnly(bs, probe, l, e)
  {
    if e in Withheld(bs) && e !in Reroutable(bs, probe) {
      var l := HiddenHasReason(bs, probe, e);
    }
    if l :| IsDown(bs, l) && HidesOnly(bs, probe, l, e) {
      ReasonHides(bs, probe, l, e);
    }
  }

  lemma HiddenHasReason(bs: Beacons, probe: map<nat, bool>, e: Endpoint) returns (l: Link)
    requires e in Withheld(bs) && e !in Reroutable(bs, probe)
    ensures IsDown(bs, l) && HidesOnly(bs, probe, l, e)
  {
    var m :| m in bs && WithholdsBy(bs, m, e);
    l := m;
    assert WithholdsBy(bs, m, e);
    assert bs[m].down;
    FarEndMoved(bs, probe, m);
  }

  lemma FarEndMoved(bs: Beacons, probe: map<nat, bool>, l: Link)
    ensures IsDown(bs, l) && IsDown(bs, l.Reverse()) ==> (l.dst, l.dstPort) in Reroutable(bs, probe)
  {
    if IsDown(bs, l) && IsDown(bs, l.Reverse()) {
      DeadBothWaysIsRerouted(bs, probe, l);
    }
  }

  lemma ReasonHides(bs: Beacons, probe: map<nat, bool>, l: Link, e: Endpoint)
    requires OneLinkPerEndpoint(bs) && IsDown(bs, l) && HidesOnly(bs, probe, l, e)
    ensures e in Withheld(bs) && e !in Reroutable(bs, probe)
  {
    hide Suspect;
    assert WithholdsBy(bs, l, e);
    assert l.Reverse().Reverse() == l;
    if e == (l.src, l.srcPort) && Forgiven(bs, probe, l) {
      ReroutedIff(bs, probe, l);
    } else {
      forall m | m in bs ensures (m.src, m.srcPort) != e {
        assert m.src == l.dst && m.srcPort == l.dstPort ==> l == m.Reverse();
        assert m.Reverse().Reverse() == m;
      }
    }
  }

  ghost predicate HidesOnly(bs: Beacons, probe: map<nat, bool>, l: Link, e: Endpoint) {
    || (e == (l.src, l.srcPort) && Forgiven(bs, probe, l))
    || (e == (l.dst, l.dstPort) && l.Reverse() !in bs)
  }

  /**
   An install pass and a report from the same beacon table: a host pair that can be connected has a
   working shortest journey, and is reported, with that journey, exactly when no hop of it leaves by
   a withheld endpoint.
   */
  lemma PassThenReportDuringFaults(bs: Beacons, probe: map<nat, bool>, g: Graph, paths: P4Routing.Paths,
                                   installed: P4Routing.Installed, srcHost: Node, dst: Addr, n: nat, r: Option<seq<Node>>)
    returns (p: seq<Node>)
    requires g.Valid() && OneNeighbourPerPort(g) && P4Routing.SingleHomed(g)
    requires P4Routing.AllShortest(P4Routing.SearchLinks(g, Excluded(bs, probe)), g.adj.Keys, paths)
    requires P4Routing.AllWritten(g, Excluded(bs, probe), paths, installed)
    requires srcHost in g.adj && Host(dst) in g.adj && |g.order[srcHost]| > 0
    requires var sw := g.order[srcHost][0];
             sw.Switch? && sw in g.adj && IsDistance(P4Routing.SearchLinks(g, Excluded(bs, probe)), sw, Host(dst), n)
    requires P4Routing.IsWalkerAnswer(g, installed, Hidden(bs), srcHost, dst, r)
    ensures |p| == n + 1 && p[0] == g.order[srcHost][0] && P4Routing.Delivers(g, installed, Excluded(bs, probe), dst, p)
    ensures r.Some? <==> P4Routing.Avoids(installed, Hidden(bs), dst, p)
    ensures r.Some? ==> r.value == [srcHost] + p
  {
    ExcludedAreHidden(bs, probe);
    hide *;
    p := P4Routing.PassThenReport(g, Excluded(bs, probe), Hidden(bs), paths, installed, srcHost, dst, n, r);
  }

  /** Switch 2 is deaf but answers its probe; its own beacons still reach switch 1. */
  const DEAF_TABLE: Beacons := map[Link(1, 1, 2, 1) := Beacon(0.0, true, true, true), Link(2, 1, 1, 1) := Beacon(0.0, false, true, true)]

  /** Host 10 on switch 1, host 20 on switch 2, one link between the switches. */
  const LINE := Graph(
    map[Switch(1) := map[Switch(2) := 1, Host(10) := 2], Switch(2) := map[Switch(1) := 1, Host(20) := 2],
        Host(10) := map[Switch(1) := 0], Host(20) := map[Switch(2) := 0]],
    map[Switch(1) := [Switch(2), Host(10)], Switch(2) := [Switch(1), Host(20)],
        Host(10) := [Switch(1)], Host(20) := [Switch(2)]])

  const LINE_RULES: P4Routing.Installed := map[(1, 20) := 1, (2, 20) := 2]

  lemma ListsPair(a: Node, b: Node)
    requires a != b
    ensures Enumerates([a, b], {a, b}) && Enumerates([a], {a})
  {
  }

  lemma LineIsValid()
    ensures LINE.Valid() && |LINE.order[Host(10)]| > 0 && LINE.order[Host(10)][0] == Switch(1)
  {
    hide Enumerates;
    ListsPair(Switch(2), Host(10));
    ListsPair(Switch(1), Host(20));
    ListsPair(Switch(1), Switch(2));
    ListsPair(Switch(2), Switch(1));
    assert LINE.adj[Switch(1)].Keys == {Switch(2), Host(10)} && LINE.adj[Switch(2)].Keys == {Switch(1), Host(20)};
    assert LINE.adj[Host(10)].Keys == {Switch(1)} && LINE.adj[Host(20)].Keys == {Switch(2)};
  }

  lemma DeafTableHides()
    ensures (1, 1) in Withheld(DEAF_TABLE) && Reroutable(DEAF_TABLE, map[2 := true]) == {}
  {
    var l := Link(1, 1, 2, 1);
    assert l in DEAF_TABLE && DEAF_TABLE[l].down;
    assert Forgiven(DEAF_TABLE, map[2 := true], l);
  }

  lemma LineDelivers()
    requires LINE.Valid()
    ensures P4Routing.Delivers(LINE, LINE_RULES, {}, 20, [Switch(1), Switch(2), Host(20)])
  {
    var p := [Switch(1), Switch(2), Host(20)];
    FirstHopOfLine();
    SecondHopOfLine();
    hide P4Routing.NextHop;
    assert p[0] == Switch(1) && p[1] == Switch(2) && p[2] == Host(20);
  }

  lemma FirstHopOfLine()
    requires LINE.Valid()
    ensures P4Routing.NextHop(LINE, LINE_RULES, {}, 20, Switch(1)) == Some(Switch(2))
  {
  }

  lemma SecondHopOfLine()
    requires LINE.Valid()
    ensures P4Routing.NextHop(LINE, LINE_RULES, {}, 20, Switch(2)) == Some(Host(20))
  {
    assert LINE.order[Switch(2)][1..] == [Host(20)];
  }

  lemma LineUsesTheHiddenEnd()
    requires (1, 1) in Withheld(DEAF_TABLE)
    ensures !P4Routing.Avoids(LINE_RULES, Hidden(DEAF_TABLE), 20, [Switch(1), Switch(2), Host(20)])
  {
    var p := [Switch(1), Switch(2), Host(20)];
    assert (Switch(1), 1) in Hidden(DEAF_TABLE);
    assert P4Routing.LeavesBy(LINE_RULES, Hidden(DEAF_TABLE), 20, p[0]);
  }

  /** The rules deliver, nothing is rerouted, and still the pair cannot be reported. */
  lemma DeafSwitchHidesAWorkingPair()
    ensures LINE.Valid()
    ensures (1, 1) in Withheld(DEAF_TABLE) && Reroutable(DEAF_TABLE, map[2 := true]) == {}
    ensures P4Routing.Delivers(LINE, LINE_RULES, Excluded(DEAF_TABLE, map[2 := true]), 20, [Switch(1), Switch(2), Host(20)])
    ensures forall r :: P4Routing.IsWalkerAnswer(LINE, LINE_RULES, Hidden(DEAF_TABLE), Host(10), 20, r) ==> r.None?
  {
    var probe := map[2 := true];
    var p := [Switch(1), Switch(2), Host(20)];
    DeafTableHides();
    LineIsValid();
    LineDelivers();
    assert Excluded(DEAF_TABLE, probe) == {};
    ExcludedAreHidden(DEAF_TABLE, probe);
    LineUsesTheHiddenEnd();
    hide *;
    forall r | P4Routing.IsWalkerAnswer(LINE, LINE_RULES, Hidden(DEAF_TABLE), Host(10), 20, r) ensures r.None? {
      P4Routing.WorkingPairReportedIff(LINE, Excluded(DEAF_TABLE, probe), Hidden(DEAF_TABLE), LINE_RULES, Host(10), 20, p, r);
    }
  }
}
