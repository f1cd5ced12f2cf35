/**
 Re-adopting a restarted switch against P4Runtime arbitration (section 5 of the P4Runtime
 specification, Client Arbitration and Controller Replication). Every client bids the same election
 id: a second stream is killed, but a unary request is honoured whenever any stream with that id
 is primary, whoever sent it.
 */
module Readopt {
  import opened Common
  import opened Net

  type Dpid = nat
  /** Clients are numbered in the order they are built. */
  type Client = nat
  type Table = map<Addr, Port>

  /** A bmv2 process: the client whose stream is primary, and its destination table. */
  datatype Bmv2 = Bmv2(primary: Option<Client>, table: Table)

  /** One switch as the proxy and the fabric see it. */
  datatype Side = Side(registered: Client, sw: Bmv2)

  /** Opening a stream: granted only when no stream holds the id. */
  function Opened(sw: Bmv2, c: Client): Bmv2 {
    if sw.primary.None? then sw.(primary := Some(c)) else sw
  }

  function Closed(sw: Bmv2, c: Client): Bmv2 {
    if sw.primary == Some(c) then sw.(primary := None) else sw
  }

  /** The primary's stream may break on its own. */
  function Broken(sw: Bmv2, dies: bool): Bmv2 {
    if dies then sw.(primary := None) else sw
  }

  datatype Step = Build | Mastership | Pipeline | Routes

  datatype Result =
    | UnknownSwitch
    | Failed(step: Step)
    | Success(accepted: nat, attempted: nat, cloneOk: bool, routesPending: bool)

  /**
   What the surroundings do during one call: whether the client builds, starts and is answered
   inside the settle window, where streams break, whether the push and the clone session succeed,
   and which route writes are refused.
   */
  datatype Env = Env(
    builds: bool, starts: bool, answered: bool, diesBeforeCheck: bool, diesBeforePush: bool, pushFails: bool,
    cloneOk: bool, diesBeforeRoutes: bool, routes: seq<(Addr, Port)>, refused: set<nat>)

  /** What one call amounts to: the new side, its answer, and whose stream was primary at the push. */
  datatype Outcome = Outcome(side: Side, result: Result, pusher: Option<Client>)

  /** The call on an adopted switch; `c` is the client it builds. */
  function Attempt(s: Side, c: Client, env: Env): Outcome {
    if !env.builds then Outcome(s, Failed(Build), None)
    else if !env.starts then Outcome(s.(sw := Closed(s.sw, c)), Failed(Pipeline), None)
    else
      var checked := Broken(Opened(s.sw, c), env.diesBeforeCheck);
      if checked.primary != Some(c) || !env.answered then
        Outcome(s.(sw := Closed(checked, c)), Failed(Mastership), None)
      else
        var pushed := Broken(checked, env.diesBeforePush);
        if pushed.primary.None? || env.pushFails then
          Outcome(s.(sw := Closed(pushed, c)), Failed(Pipeline), pushed.primary)
        else
          var refilled := Refilled(Closed(pushed.(table := map[]), s.registered), env);
          Outcome(Side(c, refilled), Verdict(AcceptedCount(refilled, env), env), pushed.primary)
  }

  /** The switch after the route writes of the swap. */
  function Refilled(wiped: Bmv2, env: Env): Bmv2 {
    var sw := Broken(wiped, env.diesBeforeRoutes);
    sw.(table := Accepted(sw, env.routes, env.refused))
  }

  function AcceptedCount(sw: Bmv2, env: Env): nat {
    if sw.primary.None? then 0 else CountAccepted(|env.routes|, env.refused)
  }

  function CountAccepted(n: nat, refused: set<nat>): nat {
    if n == 0 then 0 else CountAccepted(n - 1, refused) + if n - 1 in refused then 0 else 1
  }

  function Verdict(accepted: nat, env: Env): Result {
    if |env.routes| > 0 && accepted == 0 then Failed(Routes)
    else Success(accepted, |env.routes|, env.cloneOk, |env.routes| == 0)
  }

  /** The table a run of writes produces on a switch, given which are refused. */
  function Accepted(sw: Bmv2, routes: seq<(Addr, Port)>, refused: set<nat>): Table {
    if routes == [] || sw.primary.None? then sw.table else
      var before := Accepted(sw, routes[..|routes| - 1], refused);
      var (ip, port) := routes[|routes| - 1];
      if |routes| - 1 in refused then before else before[ip := port]
  }

  /** A running switch. Opening, closing and writing change it in place. */
  class Process {
    var primary: Option<Client>
    var table: Table

    ghost function Now(): Bmv2 reads this { Bmv2(primary, table) }

    method Open(c: Client)
      modifies this
      ensures Now() == Opened(old(Now()), c)
    {
      if primary.None? {
        primary := Some(c);
      }
    }

    method Close(c: Client)
      modifies this
      ensures Now() == Closed(old(Now()), c)
    {
      if primary == Some(c) {
        primary := None;
      }
    }

    method Lose(dies: bool)
      modifies this
      ensures Now() == Broken(old(Now()), dies)
    {
      if dies {
        primary := None;
      }
    }

    /** Committing a pipeline empties the tables, whoever asked, as long as somebody is primary. */
    method Push(fails: bool) returns (ok: bool)
      modifies this
      ensures ok == (primary.Some? && !fails) && primary == old(primary)
      ensures table == if ok then map[] else old(table)
    {
      ok := primary.Some? && !fails;
      if ok {
        table := map[];
      }
    }

    /** Writes the routes in order, counting the accepted ones. */
    method InstallRoutes(routes: seq<(Addr, Port)>, refused: set<nat>) returns (accepted: nat)
      modifies this
      ensures primary == old(primary) && table == Accepted(old(Now()), routes, refused)
      ensures accepted == if primary.None? then 0 else CountAccepted(|routes|, refused)
    {
      accepted := 0;
      for i := 0 to |routes|
        invariant primary == old(primary) && table == Accepted(old(Now()), routes[..i], refused)
        invariant accepted == if primary.None? then 0 else CountAccepted(i, refused)
      {
        assert routes[..i + 1][..i] == routes[..i];
        if primary.Some? && i !in refused {
          table := table[routes[i].0 := routes[i].1];
          accepted := accepted + 1;
        }
      }
      assert routes[..|routes|] == routes;
    }
  }

  /** The proxy's client map. */
  class Proxy {
    var switches: map<Dpid, Client>
    var nextClient: Client

    constructor (adopted: map<Dpid, Client>, next: Client)
      ensures switches == adopted && nextClient == next
    {
      switches, nextClient := adopted, next;
    }

    /** `sw` is the process behind dpid `d`; no other switch is in the frame. */
    method ReadoptSwitch(d: Dpid, sw: Process, env: Env) returns (r: Result)
      modifies this, sw
      ensures r.UnknownSwitch? <==> d !in old(switches)
      ensures r.UnknownSwitch? ==> switches == old(switches) && nextClient == old(nextClient) && sw.Now() == old(sw.Now())
      ensures !r.UnknownSwitch? ==>
                && d in switches && switches == old(switches)[d := switches[d]]
                && nextClient == old(nextClient) + (if env.builds then 1 else 0)
                && var o := Attempt(Side(old(switches)[d], old(sw.Now())), old(nextClient), env);
                   Side(switches[d], sw.Now()) == o.side && r == o.result
    {
      if d !in switches {
        return UnknownSwitch;
      }
      var incumbent := switches[d];
      assert switches == switches[d := incumbent];
      if !env.builds {
        return Failed(Build);
      }
      var c := nextClient;
      nextClient := nextClient + 1;
      if !env.starts {
        sw.Close(c);
        return Failed(Pipeline);
      }
      sw.Open(c);
      sw.Lose(env.diesBeforeCheck);
      // the flag is set by an answer that arrived on a stream that is still up
      var mastershipConfirmed := sw.primary == Some(c) && env.answered;
      if !mastershipConfirmed {
        sw.Close(c);
        return Failed(Mastership);
      }
      sw.Lose(env.diesBeforePush);
      var pushed := sw.Push(env.pushFails);
      if !pushed {
        sw.Close(c);
        return Failed(Pipeline);
      }
      switches := switches[d := c];
      sw.Close(incumbent);
      sw.Lose(env.diesBeforeRoutes);
      var accepted := sw.InstallRoutes(env.routes, env.refused);
      var attempted := |env.routes|;
      if attempted > 0 && accepted == 0 {
        return Failed(Routes);
      }
      r := Success(accepted, attempted, env.cloneOk, attempted == 0);
    }
  }

  // ---- one call ----------------------------------------------------------------------------

  /** While the incumbent's stream is up at the gate, the tables and the client map are untouchable. */
  lemma LiveIncumbentIsSafe(s: Side, c: Client, env: Env)
    requires s.sw.primary.Some? && s.sw.primary != Some(c)
    ensures var o := Attempt(s, c, env);
            && o.result.Failed? && o.result.step != Routes
            && o.side.registered == s.registered && o.side.sw.table == s.sw.table
            && (!env.diesBeforeCheck ==> o.side == s)
  {
  }

  /** The client map and the tables change together, and exactly when the new client pushed as primary. */
  lemma {:induction false} SwapMeansPushedAsPrimary(s: Side, c: Client, env: Env)
    requires s.registered != c && s.sw.primary != Some(c)
    ensures var o := Attempt(s, c, env);
            && (o.side.registered != s.registered <==> o.result.Success? || o.result == Failed(Routes))
            && (o.side.registered == s.registered ==> o.side.sw.table == s.sw.table)
            && (o.side.registered != s.registered ==> o.side.registered == c && o.pusher == Some(c) && s.sw.primary.None?)
  {
  }

  /** What a success claims about the table, and what a refusal of every route leaves. */
  lemma SuccessIsHonest(s: Side, c: Client, env: Env)
    requires s.registered != c && s.sw.primary != Some(c)
    ensures var o := Attempt(s, c, env);
            && (o.result.Success? ==>
                  && (o.result.routesPending <==> o.result.attempted == 0)
                  && (o.result.accepted > 0 || o.result.routesPending)
                  && (o.result.routesPending ==> o.side.sw.table == map[])
                  && (o.result.accepted > 0 ==> o.side.sw.primary == Some(c) && o.side.sw.table != map[]))
            && (o.result == Failed(Routes) ==> o.side.sw.table == map[])
  {
    var o := Attempt(s, c, env);
    if o.result.Success? || o.result == Failed(Routes) {
      AcceptedNothingIff(o.side.sw.(table := map[]), env.routes, env.refused);
    }
  }

  lemma {:induction false} AcceptedNothingIff(sw: Bmv2, routes: seq<(Addr, Port)>, refused: set<nat>)
    requires sw.table == map[]
    ensures Accepted(sw, routes, refused) == map[] <==> sw.primary.None? || CountAccepted(|routes|, refused) == 0
  {
    if routes != [] && sw.primary.Some? {
      AcceptedNothingIff(sw, routes[..|routes| - 1], refused);
      var before := Accepted(sw, routes[..|routes| - 1], refused);
      if |routes| - 1 !in refused {
        assert routes[|routes| - 1].0 in Accepted(sw, routes, refused);
      }
    }
  }

  // ---- when a call takes over, and what it leaves ------------------------------------------

  /** The surroundings in which a call replaces the client of a switch whose incumbent is dead. */
  predicate Works(env: Env) {
    && env.builds && env.starts && env.answered && !env.diesBeforeCheck
    && !env.diesBeforePush && !env.pushFails
  }

  /**
   The swap happens exactly when no stream held the switch and everything up to the push worked. Otherwise the
   step that failed is named, the registration and the table stay, and no stream of the new client is left.
   */
  lemma SwapIff(s: Side, c: Client, env: Env)
    requires s.registered != c && s.sw.primary != Some(c)
    ensures var o := Attempt(s, c, env);
            && (o.side.registered == c <==> s.sw.primary.None? && Works(env))
            && (o.result == Failed(Build) <==> !env.builds)
            && (o.result == Failed(Mastership) <==>
                  env.builds && env.starts && (s.sw.primary.Some? || !env.answered || env.diesBeforeCheck))
            && (o.result == Failed(Pipeline) <==>
                  && env.builds
                  && (!env.starts || (&& s.sw.primary.None? && env.answered && !env.diesBeforeCheck
                                      && (env.diesBeforePush || env.pushFails))))
            && (o.side.registered != c ==>
                  && o.side.registered == s.registered && o.side.sw.table == s.sw.table
                  && o.side.sw.primary ==
                     if env.builds && env.starts && env.diesBeforeCheck then None else s.sw.primary)
  {
  }

  /** The positions of the routes the switch takes. */
  function Unrefused(n: nat, refused: set<nat>): set<nat> {
    set i | 0 <= i < n && i !in refused
  }

  /** Nothing behind position `i` that the switch takes writes the same address. */
  predicate IsLast(routes: seq<(Addr, Port)>, refused: set<nat>, i: nat)
    requires i < |routes|
  {
    i !in refused && forall j :: i < j < |routes| ==> j !in refused ==> routes[j].0 != routes[i].0
  }

  ghost predicate Writes(routes: seq<(Addr, Port)>, refused: set<nat>, ip: Addr) {
    exists i :: 0 <= i < |routes| && i !in refused && routes[i].0 == ip
  }

  /** Exactly the addresses of the unrefused routes, each with the port of the last such route. */
  ghost predicate Holds(table: Table, routes: seq<(Addr, Port)>, refused: set<nat>) {
    && (forall ip :: ip in table <==> Writes(routes, refused, ip))
    && forall i :: 0 <= i < |routes| && IsLast(routes, refused, i) ==>
         routes[i].0 in table && table[routes[i].0] == routes[i].1
  }

  lemma {:induction false} WritesHold(sw: Bmv2, routes: seq<(Addr, Port)>, refused: set<nat>)
    requires sw.table == map[] && sw.primary.Some?
    ensures Holds(Accepted(sw, routes, refused), routes, refused)
    decreases |routes|
  {
    if routes != [] {
      var n := |routes| - 1;
      WritesHold(sw, routes[..n], refused);
      OneMoreWrite(Accepted(sw, routes[..n], refused), routes, refused);
    }
  }

  lemma OneMoreWrite(before: Table, routes: seq<(Addr, Port)>, refused: set<nat>)
    requires routes != [] && Holds(before, routes[..|routes| - 1], refused)
    ensures var n := |routes| - 1;
            Holds(if n in refused then before else before[routes[n].0 := routes[n].1], routes, refused)
  {
    var n := |routes| - 1;
    var table := if n in refused then before else before[routes[n].0 := routes[n].1];
    forall ip
      ensures ip in table <==> Writes(routes, refused, ip)
    {
      WritesStep(routes, refused, ip);
    }
    forall i | 0 <= i < |routes| && IsLast(routes, refused, i)
      ensures routes[i].0 in table && table[routes[i].0] == routes[i].1
    {
      if i < n {
        LastBefore(routes, refused, i);
      }
    }
  }

  lemma WritesStep(routes: seq<(Addr, Port)>, refused: set<nat>, ip: Addr)
    requires routes != []
    ensures var n := |routes| - 1;
            Writes(routes, refused, ip) <==> Writes(routes[..n], refused, ip) || (n !in refused && routes[n].0 == ip)
  {
    var n := |routes| - 1;
    var rest := routes[..n];
    if Writes(rest, refused, ip) {
      var i :| 0 <= i < |rest| && i !in refused && rest[i].0 == ip;
      assert routes[i].0 == ip;
    }
    if i :| 0 <= i < |routes| && i !in refused && routes[i].0 == ip {
      assert i < n ==> rest[i].0 == ip;
    }
  }

  lemma LastBefore(routes: seq<(Addr, Port)>, refused: set<nat>, i: nat)
    requires i < |routes| - 1 && IsLast(routes, refused, i)
    ensures var rest := routes[..|routes| - 1]; rest[i] == routes[i] && IsLast(rest, refused, i)
  {
  }

  lemma {:induction false} CountsUnrefused(n: nat, refused: set<nat>)
    ensures CountAccepted(n, refused) == |Unrefused(n, refused)|
  {
    if n > 0 {
      CountsUnrefused(n - 1, refused);
      assert Unrefused(n, refused) == Unrefused(n - 1, refused) + if n - 1 in refused then {} else {n - 1};
    }
  }

  lemma UnrefusedIsNone(routes: seq<(Addr, Port)>, refused: set<nat>)
    ensures |Unrefused(|routes|, refused)| == 0 <==> forall i :: 0 <= i < |routes| ==> i in refused
  {
    var taken := Unrefused(|routes|, refused);
    if i :| 0 <= i < |routes| && i !in refused {
      assert i in taken;
    }
    if taken != {} {
      var i :| i in taken;
      assert 0 <= i < |routes| && i !in refused;
    }
  }

  /**
   What a call that took over leaves and answers. While the new stream lives, the table holds exactly the
   addresses of the unrefused routes, each with its last port, and `accepted` is their number; if it broke, nothing
   is written. Having had something to write and written none of it is the one failure left.
   */
  lemma SwapLeaves(s: Side, c: Client, env: Env)
    requires s.registered != c && s.sw.primary.None? && Works(env)
    ensures var o := Attempt(s, c, env);
            && o.side.registered == c && o.side.sw.primary == (if env.diesBeforeRoutes then None else Some(c))
            && (if env.diesBeforeRoutes then o.side.sw.table == map[] else Holds(o.side.sw.table, env.routes, env.refused))
            && (o.result == Failed(Routes) <==>
                  env.routes != [] && (env.diesBeforeRoutes || forall i :: 0 <= i < |env.routes| ==> i in env.refused))
            && (o.result != Failed(Routes) ==>
                  o.result == Success(if env.diesBeforeRoutes then 0 else |Unrefused(|env.routes|, env.refused)|,
                                      |env.routes|, env.cloneOk, env.routes == []))
  {
    CountsUnrefused(|env.routes|, env.refused);
    UnrefusedIsNone(env.routes, env.refused);
    WritesHold(Bmv2(Some(c), map[]), env.routes, env.refused);
    hide Holds, CountAccepted, Unrefused;
    if env.diesBeforeRoutes {
      assert Accepted(Bmv2(None, map[]), env.routes, env.refused) == map[];
    }
  }

  // ---- whole runs --------------------------------------------------------------------------

  datatype State = State(sides: map<Dpid, Side>, next: Client)

  datatype Event =
    | Readopt(d: Dpid, env: Env)
    | PowerCycle(d: Dpid)
    | StreamBreaks(d: Dpid)

  function Next(s: State, e: Event): State {
    if e.d !in s.sides then s else
      match e
      case Readopt(d, env) =>
        State(s.sides[d := Attempt(s.sides[d], s.next, env).side], s.next + if env.builds then 1 else 0)
      case PowerCycle(d) => s.(sides := s.sides[d := s.sides[d].(sw := Bmv2(None, map[]))])
      case StreamBreaks(d) => s.(sides := s.sides[d := s.sides[d].(sw := s.sides[d].sw.(primary := None))])
  }

  function Run(s: State, es: seq<Event>): State
    decreases |es|
  {
    if es == [] then s else Run(Next(s, es[0]), es[1..])
  }

  /** No client the proxy has discarded is primary anywhere, and the next client is a new one. */
  ghost predicate Inv(s: State) {
    forall d :: d in s.sides ==>
      && s.sides[d].registered < s.next
      && (s.sides[d].sw.primary.Some? ==> s.sides[d].sw.primary.value == s.sides[d].registered)
  }

  lemma {:induction false} RunKeepsInv(s: State, es: seq<Event>)
    requires Inv(s)
    ensures Inv(Run(s, es)) && Run(s, es).sides.Keys == s.sides.Keys
    decreases |es|
  {
    if es != [] {
      assert Inv(Next(s, es[0]));
      RunKeepsInv(Next(s, es[0]), es[1..]);
    }
  }

  /** The event leaves the streams of switch `d` alone; it may still be a readopt of `d`. */
  predicate Spares(e: Event, d: Dpid) {
    e.d != d || (e.Readopt? && !e.env.diesBeforeCheck)
  }

  /** However often anything is readopted, a switch whose incumbent stays up keeps its client and tables. */
  lemma {:induction false} HealthySwitchIsNeverDisturbed(s: State, es: seq<Event>, d: Dpid)
    requires Inv(s) && d in s.sides && s.sides[d].sw.primary.Some?
    requires forall i :: 0 <= i < |es| ==> Spares(es[i], d)
    ensures d in Run(s, es).sides && Run(s, es).sides[d] == s.sides[d]
    decreases |es|
  {
    if es != [] {
      var s' := Next(s, es[0]);
      assert Spares(es[0], d);
      assert s'.sides[d] == s.sides[d];
      RunKeepsInv(s, es[..1]);
      assert Run(s, es[..1]) == s';
      HealthySwitchIsNeverDisturbed(s', es[1..], d);
    }
  }

  lemma StepChangesRulesOnlyWithTheClient(s: State, e: Event, d: Dpid)
    requires Inv(s) && d in s.sides && e != PowerCycle(d)
    ensures var s' := Next(s, e);
            && Inv(s') && d in s'.sides && s.next <= s'.next
            && (s'.sides[d].registered == s.sides[d].registered ==> s'.sides[d].sw.table == s.sides[d].sw.table)
            && (s'.sides[d].registered == s.sides[d].registered || s'.sides[d].registered == s.next)
            && s.sides[d].registered <= s'.sides[d].registered < s'.next
  {
    if e.Readopt? && e.d in s.sides {
      SwapMeansPushedAsPrimary(s.sides[e.d], s.next, e.env);
    }
  }

  /**
   A table is emptied or refilled only by a power cycle of its switch, or by a client that took the
   registration over from a dead one.
   */
  lemma {:induction false} RulesChangeOnlyWithTheClient(s: State, es: seq<Event>, d: Dpid)
    requires Inv(s) && d in s.sides
    requires forall i :: 0 <= i < |es| ==> es[i] != PowerCycle(d)
    ensures d in Run(s, es).sides
    ensures Run(s, es).sides[d].registered == s.sides[d].registered ==>
              Run(s, es).sides[d].sw.table == s.sides[d].sw.table
    ensures s.sides[d].registered <= Run(s, es).sides[d].registered
    ensures Run(s, es).sides[d].registered != s.sides[d].registered ==> s.next <= Run(s, es).sides[d].registered
    decreases |es|
  {
    if es != [] {
      var s' := Next(s, es[0]);
      assert es[0] != PowerCycle(d);
      StepChangesRulesOnlyWithTheClient(s, es[0], d);
      hide Next, Inv;
      RulesChangeOnlyWithTheClient(s', es[1..], d);
    }
  }

  /**
   After any run, a readopt in working surroundings brings a switch without a live stream back: a client never used
   before is registered and primary, the table holds exactly what it took, and no other switch is affected.
   */
  lemma DeadSwitchComesBack(s: State, es: seq<Event>, d: Dpid, env: Env)
    requires Inv(s) && d in Run(s, es).sides && Run(s, es).sides[d].sw.primary.None?
    requires Works(env) && !env.diesBeforeRoutes
    ensures var before := Run(s, es);
            var after := Next(before, Readopt(d, env));
            && after.sides.Keys == before.sides.Keys
            && after.sides[d].registered == before.next && after.sides[d].sw.primary == Some(before.next)
            && Holds(after.sides[d].sw.table, env.routes, env.refused)
            && forall d' :: d' in before.sides ==> (before.sides[d'].registered < before.next
                                                    && (d' != d ==> after.sides[d'] == before.sides[d']))
  {
    RunKeepsInv(s, es);
    var before := Run(s, es);
    SwapLeaves(before.sides[d], before.next, env);
    hide Run, Attempt, Holds, Works;
  }
}
