/**
 Link-failure detection from LLDP beacons. Receive threads record beacons; one watchdog thread turns
 silence into beliefs and reports each change of belief to the kernel until the kernel accepts it.
 Beacons and seeding may happen between any two of the watchdog's steps.
 */
module LinkWatchdog {
  import opened Common

  /** One direction of a link: the sending endpoint and the receiving one. */
  datatype Link = Link(src: nat, srcPort: nat, dst: nat, dstPort: nat) {
    function Reverse(): Link { Link(dst, dstPort, src, srcPort) }
  }

  /** `down` is the belief, `acked` whether the kernel accepted a report of it, `seen` whether it ever spoke. */
  datatype Beacon = Beacon(at: real, down: bool, acked: bool, seen: bool)

  type Beacons = map<Link, Beacon>

  // ---- the watchdog's rules, for a beacon interval `b` --------------------------------------

  /** Three beacon intervals once a link has spoken, six while it never has. */
  function Allowance(b: real, seen: bool): real {
    if seen then 3.0 * b else 6.0 * b
  }

  predicate Silent(b: real, e: Beacon, now: real) {
    now - e.at > Allowance(b, e.seen)
  }

  function Judged(b: real, e: Beacon, now: real): Beacon {
    if Silent(b, e, now) == e.down then e else e.(down := Silent(b, e, now), acked := false)
  }

  function Swept(b: real, bs: Beacons, now: real): Beacons {
    map l | l in bs :: Judged(b, bs[l], now)
  }

  function Heard(bs: Beacons, l: Link, now: real): Beacons {
    if l in bs then bs[l := bs[l].(at := now, seen := true)] else bs[l := Beacon(now, false, true, true)]
  }

  function Seeded(bs: Beacons, links: set<Link>, now: real): Beacons {
    bs + map l | l in links && l !in bs :: Beacon(now, false, true, false)
  }

  /** Only the belief that was reported is acknowledged. */
  function Acked(bs: Beacons, l: Link, down: bool): Beacons {
    if l in bs && bs[l].down == down then bs[l := bs[l].(acked := true)] else bs
  }

  /** The kernel's answer to a report; a refused report may have taken effect all the same. */
  datatype Reply = Accepted | Refused(landed: bool)

  function Told(kernel: map<Link, bool>, l: Link, down: bool, reply: Reply): map<Link, bool> {
    if reply == Refused(false) then kernel else kernel[l := down]
  }

  /** What the kernel holds for a link: what it was last told, up if it was told nothing. */
  predicate KernelDown(kernel: map<Link, bool>, l: Link) {
    l in kernel && kernel[l]
  }

  // ---- the object --------------------------------------------------------------------------

  class Watchdog {
    const interval: real
    var beacons: Beacons
    var kernel: map<Link, bool>

    constructor (interval: real)
      ensures this.interval == interval && beacons == map[] && kernel == map[]
    {
      this.interval := interval;
      beacons, kernel := map[], map[];
    }

    /** A beacon seen at `device` proves one link; a switch hearing itself proves none. */
    method HandleBeacon(srcDpid: nat, srcPort: nat, device: nat, ingress: nat, now: real)
      modifies this`beacons
      ensures beacons == if srcDpid == device then old(beacons)
                         else Heard(old(beacons), Link(srcDpid, srcPort, device, ingress), now)
    {
      if srcDpid != device {
        var link := Link(srcDpid, srcPort, device, ingress);
        if link !in beacons {
          beacons := beacons[link := Beacon(now, false, true, true)];
        } else {
          beacons := beacons[link := beacons[link].(at := now, seen := true)];
        }
      }
    }

    method SeedExpectedLinks(links: seq<Link>, now: real) returns (n: nat)
      modifies this`beacons
      ensures beacons == Seeded(old(beacons), Elements(links), now)
      ensures n == |links|
    {
      for i := 0 to |links|
        invariant beacons == Seeded(old(beacons), Elements(links[..i]), now)
      {
        assert Elements(links[..i + 1]) == Elements(links[..i]) + {links[i]};
        if links[i] !in beacons {
          beacons := beacons[links[i] := Beacon(now, false, true, false)];
        }
      }
      assert links[..|links|] == links;
      n := |links|;
    }

    /** The locked half of a pass: revise every belief, collect what the kernel has not accepted. */
    method Sweep(now: real) returns (unacked: seq<(Link, bool)>)
      modifies this`beacons
      ensures beacons == Swept(interval, old(beacons), now)
      ensures IsSnapshot(beacons, unacked) && ToReport(interval, old(beacons), now, unacked)
    {
      var todo := beacons.Keys;
      while todo != {}
        invariant todo <= old(beacons).Keys == beacons.Keys
        invariant forall l :: l in beacons ==>
                    beacons[l] == if l in todo then old(beacons)[l] else Judged(interval, old(beacons)[l], now)
        decreases |todo|
      {
        var l :| l in todo;
        todo := todo - {l};
        var down := now - beacons[l].at > LinkTimeout(l);
        if down != beacons[l].down {
          beacons := beacons[l := beacons[l].(down := down, acked := false)];
        }
      }
      unacked := [];
      todo := beacons.Keys;
      while todo != {}
        invariant todo <= beacons.Keys
        invariant forall l, d :: (l, d) in unacked <==> l in beacons && l !in todo && !beacons[l].acked && beacons[l].down == d
        invariant OneEach(unacked)
        decreases |todo|
      {
        var l :| l in todo;
        todo := todo - {l};
        if !beacons[l].acked {
          unacked := unacked + [(l, beacons[l].down)];
        }
      }
      PassReports(interval, old(beacons), now, unacked);
    }

    /** Three beacon intervals once the link has spoken, six while it never has. */
    function LinkTimeout(l: Link): real
      requires l in beacons
      reads this
    {
      if beacons[l].seen then 3.0 * interval else 6.0 * interval
    }

    /**
     A whole pass with nothing arriving in between: sweep, then report each unaccepted belief. The
     lists name the links reported down, reported up, and refused, in the order they were tried.
     */
    method CheckLinkBeacons(now: real, replies: map<Link, Reply>)
      returns (down: seq<Link>, up: seq<Link>, unacked: seq<Link>, ghost snapshot: seq<(Link, bool)>)
      requires forall l :: l in beacons ==> l in replies
      modifies this
      ensures Enabled(interval, old(Now()), StartPass(now, snapshot))
      ensures Answered(snapshot, replies) && ToReport(interval, old(beacons), now, snapshot)
      ensures Now() == Drained(interval, Next(interval, old(Now()), StartPass(now, snapshot)), replies)
      ensures down == Reported(snapshot, replies, true) && up == Reported(snapshot, replies, false)
      ensures unacked == RefusedOf(snapshot, replies)
    {
      var pending := Sweep(now);
      snapshot := pending;
      SnapshotAnswered(beacons, pending, replies);
      hide IsSnapshot, ToReport, Swept, Judged, Next, Drained, Reported, RefusedOf, Acked, Told;
      ghost var start := State(beacons, kernel, pending);
      down, up, unacked := [], [], [];
      NothingReported(replies);
      assert pending[0..] == pending && pending[..0] == [];
      for i := 0 to |pending|
        invariant Drained(interval, State(beacons, kernel, pending[i..]), replies) == Drained(interval, start, replies)
        invariant down == Reported(pending[..i], replies, true) && up == Reported(pending[..i], replies, false)
        invariant unacked == RefusedOf(pending[..i], replies)
      {
        var (l, d) := pending[i];
        DrainStep(interval, beacons, kernel, pending, i, replies);
        ReportedStep(pending, i, replies);
        var ok := NotifyLink(l, d, replies[l]);
        if ok {
          if d { down := down + [l]; } else { up := up + [l]; }
        } else {
          unacked := unacked + [l];
        }
      }
      assert pending[..|pending|] == pending && pending[|pending|..] == [];
      NothingPending(interval, beacons, kernel, replies);
    }

    /** One report, and the acknowledgement if the kernel took it. */
    method NotifyLink(l: Link, d: bool, reply: Reply) returns (ok: bool)
      modifies this
      ensures ok == reply.Accepted?
      ensures beacons == if ok then Acked(old(beacons), l, d) else old(beacons)
      ensures kernel == Told(old(kernel), l, d, reply)
    {
      if reply != Refused(false) {
        kernel := kernel[l := d];
      }
      ok := reply.Accepted?;
      if ok && l in beacons && beacons[l].down == d {
        beacons := beacons[l := beacons[l].(acked := true)];
      }
    }

    ghost function Now(): State reads this { State(beacons, kernel, []) }
  }

  ghost predicate Answered(pending: seq<(Link, bool)>, replies: map<Link, Reply>) {
    forall i :: 0 <= i < |pending| ==> pending[i].0 in replies
  }

  lemma SnapshotAnswered(bs: Beacons, pending: seq<(Link, bool)>, replies: map<Link, Reply>)
    requires IsSnapshot(bs, pending) && forall l :: l in bs ==> l in replies
    ensures Answered(pending, replies)
  {
    forall i | 0 <= i < |pending|
      ensures pending[i].0 in replies
    {
      var (l, d) := pending[i];
      assert pending[i] == (l, d) && (l, d) in pending;
    }
  }

  /** The rest of a pass in which nothing else happens: one report after another. */
  function Drained(b: real, s: State, replies: map<Link, Reply>): State
    decreases |s.pending|
  {
    if s.pending == [] || s.pending[0].0 !in replies then s
    else Drained(b, Next(b, s, ReportNext(replies[s.pending[0].0])), replies)
  }

  lemma NothingPending(b: real, bs: Beacons, kernel: map<Link, bool>, replies: map<Link, Reply>)
    ensures Drained(b, State(bs, kernel, []), replies) == State(bs, kernel, [])
  {
  }

  lemma DrainStep(b: real, bs: Beacons, kernel: map<Link, bool>, pending: seq<(Link, bool)>, i: nat, replies: map<Link, Reply>)
    requires i < |pending| && pending[i].0 in replies
    ensures var (l, d) := pending[i]; var reply := replies[l];
            Drained(b, State(bs, kernel, pending[i..]), replies) ==
            Drained(b, State(if reply.Accepted? then Acked(bs, l, d) else bs, Told(kernel, l, d, reply), pending[i + 1..]), replies)
  {
    assert pending[i..][0] == pending[i] && pending[i..][1..] == pending[i + 1..];
  }

  /** The links whose report of that kind was accepted, in the order they were tried. */
  function Reported(pending: seq<(Link, bool)>, replies: map<Link, Reply>, down: bool): (r: seq<Link>)
    ensures forall l :: l in r <==> (l, down) in pending && l in replies && replies[l].Accepted?
  {
    if pending == [] then [] else
      var (l, d) := pending[|pending| - 1];
      var before := Reported(pending[..|pending| - 1], replies, down);
      if d == down && l in replies && replies[l].Accepted? then before + [l] else before
  }

  function RefusedOf(pending: seq<(Link, bool)>, replies: map<Link, Reply>): (r: seq<Link>)
    ensures forall l :: l in r <==> ((l, true) in pending || (l, false) in pending) && l in replies && replies[l].Refused?
  {
    if pending == [] then [] else
      var (l, d) := pending[|pending| - 1];
      var before := RefusedOf(pending[..|pending| - 1], replies);
      if l in replies && replies[l].Refused? then before + [l] else before
  }

  lemma NothingReported(replies: map<Link, Reply>)
    ensures Reported([], replies, true) == [] && Reported([], replies, false) == [] && RefusedOf([], replies) == []
  {
  }

  lemma ReportedStep(pending: seq<(Link, bool)>, i: nat, replies: map<Link, Reply>)
    requires i < |pending| && pending[i].0 in replies
    ensures var (l, d) := pending[i]; var ok := replies[l].Accepted?;
            && Reported(pending[..i + 1], replies, d) == Reported(pending[..i], replies, d) + (if ok then [l] else [])
            && Reported(pending[..i + 1], replies, !d) == Reported(pending[..i], replies, !d)
            && RefusedOf(pending[..i + 1], replies) == RefusedOf(pending[..i], replies) + (if ok then [] else [l])
  {
    assert pending[..i + 1][..i] == pending[..i];
  }

  ghost predicate OneEach(pending: seq<(Link, bool)>) {
    forall i, j :: 0 <= i < j < |pending| ==> pending[i].0 != pending[j].0
  }

  /** The pending list holds every unaccepted belief, once. */
  ghost predicate IsSnapshot(bs: Beacons, pending: seq<(Link, bool)>) {
    && OneEach(pending)
    && forall l, d :: (l, d) in pending <==> l in bs && !bs[l].acked && bs[l].down == d
  }

  /**
   What a pass at `now` has to report: each link's verdict at that moment, if the kernel has not accepted a
   report of the standing belief or if the verdict changes it. A belief that is accepted and stands is left alone.
   */
  ghost predicate ToReport(b: real, bs: Beacons, now: real, snapshot: seq<(Link, bool)>) {
    forall l, d :: (l, d) in snapshot <==>
      && l in bs && d == (now - bs[l].at > (if bs[l].seen then 3.0 * b else 6.0 * b))
      && (!bs[l].acked || bs[l].down != d)
  }

  lemma PassReports(b: real, bs: Beacons, now: real, snapshot: seq<(Link, bool)>)
    requires IsSnapshot(Swept(b, bs, now), snapshot)
    ensures ToReport(b, bs, now, snapshot)
  {
    var swept := Swept(b, bs, now);
    forall l, d
      ensures (l, d) in snapshot <==>
        && l in bs && d == (now - bs[l].at > (if bs[l].seen then 3.0 * b else 6.0 * b))
        && (!bs[l].acked || bs[l].down != d)
    {
      assert (l, d) in snapshot <==> l in swept && !swept[l].acked && swept[l].down == d;
    }
  }

  // ---- every interleaving ------------------------------------------------------------------

  /** `pending` is what the watchdog still has to report in the pass it is in. */
  datatype State = State(beacons: Beacons, kernel: map<Link, bool>, pending: seq<(Link, bool)>)

  datatype Event =
    | Hear(link: Link, now: real)
    | Seed(links: set<Link>, now: real)
    | StartPass(now: real, snapshot: seq<(Link, bool)>)
    | ReportNext(reply: Reply)

  /** A pass starts only when the previous one is finished: there is one watchdog thread. */
  ghost predicate Enabled(b: real, s: State, e: Event) {
    match e
    case StartPass(now, snapshot) => s.pending == [] && IsSnapshot(Swept(b, s.beacons, now), snapshot)
    case ReportNext(_) => s.pending != []
    case _ => true
  }

  function Next(b: real, s: State, e: Event): State {
    match e
    case Hear(l, now) => s.(beacons := Heard(s.beacons, l, now))
    case Seed(ls, now) => s.(beacons := Seeded(s.beacons, ls, now))
    case StartPass(now, snapshot) => s.(beacons := Swept(b, s.beacons, now), pending := snapshot)
    case ReportNext(reply) =>
      if s.pending == [] then s else
        var (l, d) := s.pending[0];
        State(if reply.Accepted? then Acked(s.beacons, l, d) else s.beacons,
              Told(s.kernel, l, d, reply), s.pending[1..])
  }

  function Run(b: real, s: State, es: seq<Event>): State {
    if es == [] then s else Next(b, Run(b, s, es[..|es| - 1]), es[|es| - 1])
  }

  ghost predicate IsRun(b: real, s: State, es: seq<Event>) {
    forall i :: 0 <= i < |es| ==> Enabled(b, Run(b, s, es[..i]), es[i])
  }

  /** An accepted belief is what the kernel holds; what is pending is unaccepted and current. */
  ghost predicate Inv(s: State) {
    && (forall l :: l in s.beacons && s.beacons[l].acked ==> KernelDown(s.kernel, l) == s.beacons[l].down)
    && (forall i :: 0 <= i < |s.pending| ==>
          var (l, d) := s.pending[i]; l in s.beacons && !s.beacons[l].acked && s.beacons[l].down == d)
    && OneEach(s.pending)
    && s.kernel.Keys <= s.beacons.Keys
  }

  lemma StepKeepsInv(b: real, s: State, e: Event)
    requires Inv(s) && Enabled(b, s, e)
    ensures Inv(Next(b, s, e))
  {
    match e
    case StartPass(now, snapshot) =>
      var bs := Swept(b, s.beacons, now);
      forall i | 0 <= i < |snapshot|
        ensures var (l, d) := snapshot[i]; l in bs && !bs[l].acked && bs[l].down == d
      {
        var (l, d) := snapshot[i];
        assert snapshot[i] == (l, d) && (l, d) in snapshot;
      }
    case ReportNext(reply) =>
      var (l, d) := s.pending[0];
      assert l in s.beacons && !s.beacons[l].acked && s.beacons[l].down == d;
    case _ =>
  }

  /** In every interleaving, with any refusals, an acknowledged belief is what the kernel was last told. */
  lemma {:induction false} AckedIsTold(b: real, s: State, es: seq<Event>)
    requires Inv(s) && IsRun(b, s, es)
    ensures Inv(Run(b, s, es))
    decreases |es|
  {
    if es != [] {
      var rest := es[..|es| - 1];
      forall i | 0 <= i < |rest|
        ensures Enabled(b, Run(b, s, rest[..i]), rest[i])
      {
        assert rest[..i] == es[..i];
      }
      AckedIsTold(b, s, rest);
      assert es[..|es| - 1] == rest;
      StepKeepsInv(b, Run(b, s, rest), es[|es| - 1]);
    }
  }

  /** An undisturbed pass is such a run: it ends with every accepted belief told, nothing left pending. */
  lemma {:induction false} DrainKeepsInv(b: real, s: State, replies: map<Link, Reply>)
    requires Inv(s) && Answered(s.pending, replies)
    ensures Inv(Drained(b, s, replies)) && Drained(b, s, replies).pending == []
    decreases |s.pending|
  {
    if s.pending != [] {
      var reply := replies[s.pending[0].0];
      StepKeepsInv(b, s, ReportNext(reply));
      DrainKeepsInv(b, Next(b, s, ReportNext(reply)), replies);
    }
  }

  /** Right after a pass starts, a link is believed down exactly when it has been silent too long. */
  lemma BeliefIsSilence(b: real, s: State, now: real, snapshot: seq<(Link, bool)>, l: Link)
    requires l in s.beacons
    ensures var s' := Next(b, s, StartPass(now, snapshot));
            l in s'.beacons && s'.beacons[l].at == s.beacons[l].at && s'.beacons[l].seen == s.beacons[l].seen
            && (s'.beacons[l].down <==> now - s.beacons[l].at > Allowance(b, s.beacons[l].seen))
  {
  }

  const START := State(map[], map[], [])

  /** When the link last spoke, and when it was first expected, read off the events alone. */
  function LastHeard(es: seq<Event>, l: Link): Option<real> {
    if es == [] then None else
      var e := es[|es| - 1];
      if e.Hear? && e.link == l then Some(e.now) else LastHeard(es[..|es| - 1], l)
  }

  function FirstSeeded(es: seq<Event>, l: Link): Option<real> {
    if es == [] then None else
      var before := FirstSeeded(es[..|es| - 1], l);
      var e := es[|es| - 1];
      if before.None? && e.Seed? && l in e.links then Some(e.now) else before
  }

  /** The table holds exactly the links ever heard or expected, each with its latest evidence. */
  lemma {:induction false} EvidenceOfRun(b: real, es: seq<Event>, l: Link)
    ensures var bs := Run(b, START, es).beacons;
            && (l in bs <==> LastHeard(es, l).Some? || FirstSeeded(es, l).Some?)
            && (l in bs ==> (bs[l].seen <==> LastHeard(es, l).Some?)
                            && bs[l].at == (if LastHeard(es, l).Some? then LastHeard(es, l) else FirstSeeded(es, l)).value)
  {
    if es != [] {
      EvidenceOfRun(b, es[..|es| - 1], l);
    }
  }

  /**
   Whatever happened before, after a pass at `now` a link is believed down exactly when it has been silent
   for more than three intervals since it last spoke, or, never having spoken, for more than six
   since it was first expected.
   */
  lemma BeliefOfRun(b: real, es: seq<Event>, now: real, snapshot: seq<(Link, bool)>, l: Link)
    requires LastHeard(es, l).Some? || FirstSeeded(es, l).Some?
    ensures var bs := Run(b, START, es + [StartPass(now, snapshot)]).beacons;
            && l in bs
            && (bs[l].down <==> if LastHeard(es, l).Some? then now - LastHeard(es, l).value > 3.0 * b
                                else now - FirstSeeded(es, l).value > 6.0 * b)
  {
    EvidenceOfRun(b, es, l);
    BeliefIsSilence(b, Run(b, START, es), now, snapshot, l);
    assert (es + [StartPass(now, snapshot)])[..|es|] == es;
  }

  /** The link was heard or expected at some time. */
  predicate Known(es: seq<Event>, l: Link) {
    LastHeard(es, l).Some? || FirstSeeded(es, l).Some?
  }

  /** Silent at `now` for more than three intervals since it last spoke, or six since it was first expected. */
  predicate Overdue(b: real, es: seq<Event>, l: Link, now: real)
    requires Known(es, l)
  {
    if LastHeard(es, l).Some? then now - LastHeard(es, l).value > 3.0 * b else now - FirstSeeded(es, l).value > 6.0 * b
  }

  /** The verdict of the last pass that knew the link; up if there was none. */
  predicate LastVerdict(b: real, es: seq<Event>, l: Link) {
    es != [] &&
    var before, e := es[..|es| - 1], es[|es| - 1];
    if e.StartPass? && Known(before, l) then Overdue(b, before, l, e.now) else LastVerdict(b, before, l)
  }

  /** The i-th event was a pass whose verdict differed from the one before. */
  predicate Changed(b: real, es: seq<Event>, l: Link, i: nat)
    requires i < |es|
  {
    es[i].StartPass? && Known(es[..i], l) && Overdue(b, es[..i], l, es[i].now) != LastVerdict(b, es[..i], l)
  }

  /** The j-th event was an accepted report about the link. */
  predicate AcceptedOn(b: real, es: seq<Event>, l: Link, j: nat)
    requires j < |es|
  {
    && es[j].ReportNext? && es[j].reply.Accepted?
    && var pending := Run(b, START, es[..j]).pending; pending != [] && pending[0].0 == l
  }

  /** A verdict changed and no report about the link has been accepted since. */
  ghost predicate Owed(b: real, es: seq<Event>, l: Link) {
    exists i :: 0 <= i < |es| && OwedSince(b, es, l, i)
  }

  ghost predicate OwedSince(b: real, es: seq<Event>, l: Link, i: nat)
    requires i < |es|
  {
    Changed(b, es, l, i) && forall j :: i < j < |es| ==> !AcceptedOn(b, es, l, j)
  }

  lemma StartsSound()
    ensures Inv(START)
  {
  }

  /** Adding an event takes nothing away, and adds only what it itself brings. */
  lemma OwedStep(b: real, es: seq<Event>, l: Link)
    requires es != []
    ensures var n := |es| - 1;
            Owed(b, es, l) <==> Changed(b, es, l, n) || (Owed(b, es[..n], l) && !AcceptedOn(b, es, l, n))
  {
    hide Changed, AcceptedOn;
    var n := |es| - 1;
    forall i | 0 <= i < n
      ensures OwedSince(b, es, l, i) <==> OwedSince(b, es[..n], l, i) && !AcceptedOn(b, es, l, n)
    {
      OwedLater(b, es, l, i);
    }
    assert OwedSince(b, es, l, n) <==> Changed(b, es, l, n);
  }

  lemma OwedLater(b: real, es: seq<Event>, l: Link, i: nat)
    requires i < |es| - 1
    ensures var n := |es| - 1; OwedSince(b, es, l, i) <==> OwedSince(b, es[..n], l, i) && !AcceptedOn(b, es, l, n)
  {
    var n := |es| - 1;
    var rest := es[..n];
    forall j | 0 <= j < n
      ensures AcceptedOn(b, rest, l, j) <==> AcceptedOn(b, es, l, j)
      ensures Changed(b, rest, l, j) <==> Changed(b, es, l, j)
    {
      assert rest[..j] == es[..j];
    }
    hide Changed, AcceptedOn;
    assert Changed(b, rest, l, i) <==> Changed(b, es, l, i);
  }

  /** What one event does to one link's belief and acknowledgement. */
  lemma BeliefStep(b: real, s: State, e: Event, l: Link)
    requires Inv(s) && Enabled(b, s, e) && l in s.beacons
    ensures var was, bs := s.beacons[l], Next(b, s, e).beacons;
            && l in bs
            && (e.StartPass? ==> bs[l].down == Silent(b, was, e.now)
                                 && bs[l].acked == (was.acked && was.down == Silent(b, was, e.now)))
            && (!e.StartPass? ==> bs[l].down == was.down)
            && (!e.StartPass? ==> bs[l].acked == (was.acked || (e.ReportNext? && e.reply.Accepted? && s.pending[0].0 == l)))
  {
    if e.ReportNext? {
      var (k, d) := s.pending[0];
      assert k in s.beacons && s.beacons[k].down == d;
    }
  }

  /**
   In every run, at every moment: a known link's belief is the verdict of the last pass that knew it, and it is
   unacknowledged exactly when a verdict changed and no report about it has been accepted since.
   */
  lemma {:induction false} BeliefAlways(b: real, es: seq<Event>, l: Link)
    requires IsRun(b, START, es)
    ensures var bs := Run(b, START, es).beacons;
            && (l in bs <==> Known(es, l))
            && (l in bs ==> bs[l].down == LastVerdict(b, es, l) && (bs[l].acked <==> !Owed(b, es, l)))
            && (l !in bs ==> !LastVerdict(b, es, l) && !Owed(b, es, l))
    decreases |es|
  {
    EvidenceOfRun(b, es, l);
    if es != [] {
      var n := |es| - 1;
      var rest, e := es[..n], es[n];
      RunPrefix(b, START, es);
      BeliefAlways(b, rest, l);
      EvidenceOfRun(b, rest, l);
      StartsSound();
      AckedIsTold(b, START, rest);
      OwedStep(b, es, l);
      assert Run(b, START, es) == Next(b, Run(b, START, rest), e);
      hide Inv, Enabled, IsRun, Run, Owed;
      if l in Run(b, START, rest).beacons {
        hide Next;
        BeliefStep(b, Run(b, START, rest), e, l);
      }
    }
  }

  /**
   Which links a pass reports, said on the events alone: `(l, d)` is reported if and only if the link is known,
   `d` is its silence verdict now, and either the last pass said otherwise or some change of verdict has
   not been accepted yet. No other link is reported again.
   */
  lemma PassReportsOfRun(b: real, es: seq<Event>, now: real, snapshot: seq<(Link, bool)>, l: Link, d: bool)
    requires IsRun(b, START, es) && Enabled(b, Run(b, START, es), StartPass(now, snapshot))
    ensures (l, d) in snapshot <==>
              && Known(es, l)
              && d == (if LastHeard(es, l).Some? then now - LastHeard(es, l).value > 3.0 * b
                       else now - FirstSeeded(es, l).value > 6.0 * b)
              && (LastVerdict(b, es, l) != d || Owed(b, es, l))
  {
    var s := Run(b, START, es);
    PassReports(b, s.beacons, now, snapshot);
    BeliefAlways(b, es, l);
    EvidenceOfRun(b, es, l);
    hide Run, Owed, LastVerdict, IsRun;
  }

  // ---- the detection window ----------------------------------------------------------------

  ghost predicate NeverHeard(l: Link, es: seq<Event>) {
    forall i :: 0 <= i < |es| ==> es[i].Hear? ==> es[i].link != l
  }

  /** Each pass starts at most `gap` after the one before it, the first at most `gap` after `last`. */
  ghost predicate Paced(es: seq<Event>, last: real, gap: real)
    decreases |es|
  {
    es == [] ||
    if es[0].StartPass? then es[0].now <= last + gap && Paced(es[1..], es[0].now, gap) else Paced(es[1..], last, gap)
  }

  /** The i-th event turned the belief in `l` from up to down. */
  ghost predicate Detects(b: real, s: State, es: seq<Event>, i: nat, l: Link) {
    && i < |es| && es[i].StartPass?
    && l in Run(b, s, es[..i]).beacons && !Run(b, s, es[..i]).beacons[l].down
    && l in Run(b, s, es[..i + 1]).beacons && Run(b, s, es[..i + 1]).beacons[l].down
  }

  lemma {:induction false} RunFrom(b: real, s: State, e: Event, es: seq<Event>)
    ensures Run(b, s, [e] + es) == Run(b, Next(b, s, e), es)
    decreases |es|
  {
    if es == [] {
      assert ([e] + es)[..0] == [] && Run(b, s, []) == s;
    } else {
      RunFrom(b, s, e, es[..|es| - 1]);
      assert ([e] + es)[..|es|] == [e] + es[..|es| - 1];
    }
  }

  /**
   A link that falls silent while believed up is declared down by a pass later than its allowance
   and at most one pass gap later still, provided passes keep coming.
   */
  lemma {:induction false} DetectionWindow(b: real, s: State, es: seq<Event>, l: Link, last: real, gap: real)
    returns (i: nat)
    requires l in s.beacons && !s.beacons[l].down && NeverHeard(l, es) && Paced(es, last, gap)
    requires last <= s.beacons[l].at + Allowance(b, s.beacons[l].seen)
    requires exists k :: 0 <= k < |es| && es[k].StartPass? && Silent(b, s.beacons[l], es[k].now)
    ensures Detects(b, s, es, i, l)
    ensures var deadline := s.beacons[l].at + Allowance(b, s.beacons[l].seen);
            deadline < es[i].now <= deadline + gap
    decreases |es|
  {
    var e, rest := es[0], es[1..];
    assert es == [e] + rest;
    if e.StartPass? && Silent(b, s.beacons[l], e.now) {
      i := 0;
      assert es[..0] == [] && es[..1] == [e] && [e][..0] == [];
      assert Run(b, s, es[..1]) == Next(b, Run(b, s, []), e);
    } else {
      StaysUp(b, s, e, l);
      var k :| 0 <= k < |es| && es[k].StartPass? && Silent(b, s.beacons[l], es[k].now);
      assert rest[k - 1] == es[k];
      forall j | 0 <= j < |rest| ensures rest[j].Hear? ==> rest[j].link != l {
        assert rest[j] == es[j + 1];
      }
      hide Next, Run;
      var j := DetectionWindow(b, Next(b, s, e), rest, l, if e.StartPass? then e.now else last, gap);
      i := j + 1;
      assert es[..i] == [e] + rest[..j] && es[..i + 1] == [e] + rest[..j + 1];
      RunFrom(b, s, e, rest[..j]);
      RunFrom(b, s, e, rest[..j + 1]);
    }
  }

  lemma StaysUp(b: real, s: State, e: Event, l: Link)
    requires l in s.beacons && !s.beacons[l].down && (e.Hear? ==> e.link != l)
    requires e.StartPass? ==> !Silent(b, s.beacons[l], e.now)
    ensures var s' := Next(b, s, e);
            l in s'.beacons && !s'.beacons[l].down && s'.beacons[l].at == s.beacons[l].at
            && s'.beacons[l].seen == s.beacons[l].seen
  {
  }

  // ---- a pass the kernel accepts in full ---------------------------------------------------

  /** Whatever is unaccepted is still on the pending list. */
  ghost predicate UnackedArePending(s: State) {
    forall l :: l in s.beacons && !s.beacons[l].acked ==> (l, s.beacons[l].down) in s.pending
  }

  ghost predicate AllAccepted(es: seq<Event>) {
    forall i :: 0 <= i < |es| ==> !es[i].StartPass? && (es[i].ReportNext? ==> es[i].reply.Accepted?)
  }

  lemma AcceptedStepDrains(b: real, s: State, e: Event)
    requires Inv(s) && UnackedArePending(s) && Enabled(b, s, e)
    requires !e.StartPass? && (e.ReportNext? ==> e.reply.Accepted?)
    ensures UnackedArePending(Next(b, s, e))
  {
    var s' := Next(b, s, e);
    forall l | l in s'.beacons && !s'.beacons[l].acked
      ensures (l, s'.beacons[l].down) in s'.pending
    {
      assert l in s.beacons && !s.beacons[l].acked;
      assert (l, s.beacons[l].down) in s.pending;
    }
  }

  lemma RunPrefix(b: real, s: State, es: seq<Event>)
    requires IsRun(b, s, es) && es != []
    ensures var rest := es[..|es| - 1]; IsRun(b, s, rest) && Enabled(b, Run(b, s, rest), es[|es| - 1])
  {
    hide Run, Enabled;
    var rest := es[..|es| - 1];
    forall i | 0 <= i < |rest| ensures Enabled(b, Run(b, s, rest[..i]), rest[i]) {
      assert rest[..i] == es[..i];
    }
  }

  lemma {:induction false} AcceptedPassDrains(b: real, s: State, es: seq<Event>)
    requires Inv(s) && UnackedArePending(s) && IsRun(b, s, es) && AllAccepted(es)
    ensures Inv(Run(b, s, es)) && UnackedArePending(Run(b, s, es))
    decreases |es|
  {
    hide Next, Inv, UnackedArePending, Enabled, IsRun;
    if es != [] {
      var rest := es[..|es| - 1];
      RunPrefix(b, s, es);
      assert forall i :: 0 <= i < |rest| ==> rest[i] == es[i];
      AcceptedPassDrains(b, s, rest);
      StepKeepsInv(b, Run(b, s, rest), es[|es| - 1]);
      AcceptedStepDrains(b, Run(b, s, rest), es[|es| - 1]);
    }
  }

  /**
   When a pass has run to its end with every report accepted, the kernel's picture equals the
   proxy's beliefs on every link, however many beacons and seedings arrived meanwhile.
   */
  lemma AcceptedPassAgrees(b: real, s: State, now: real, snapshot: seq<(Link, bool)>, es: seq<Event>)
    requires Inv(s) && Enabled(b, s, StartPass(now, snapshot))
    requires var s1 := Next(b, s, StartPass(now, snapshot));
             IsRun(b, s1, es) && AllAccepted(es) && Run(b, s1, es).pending == []
    ensures var s' := Run(b, Next(b, s, StartPass(now, snapshot)), es);
            forall l :: l in s'.beacons ==> KernelDown(s'.kernel, l) == s'.beacons[l].down
  {
    var s1 := Next(b, s, StartPass(now, snapshot));
    StepKeepsInv(b, s, StartPass(now, snapshot));
    AcceptedPassDrains(b, s1, es);
  }

  /** The last pass so far started at event `m`, and every report since was accepted. */
  ghost predicate AcceptedSince(es: seq<Event>, m: nat) {
    && m < |es| && es[m].StartPass?
    && forall i :: m < i < |es| ==> !es[i].StartPass? && (es[i].ReportNext? ==> es[i].reply.Accepted?)
  }

  lemma {:induction false} OnlyPendingIsUnacked(b: real, es: seq<Event>, m: nat)
    requires IsRun(b, START, es) && AcceptedSince(es, m)
    ensures Inv(Run(b, START, es)) && UnackedArePending(Run(b, START, es))
    decreases |es|
  {
    var n := |es| - 1;
    var rest := es[..n];
    RunPrefix(b, START, es);
    StartsSound();
    AckedIsTold(b, START, es);
    AckedIsTold(b, START, rest);
    assert Run(b, START, es) == Next(b, Run(b, START, rest), es[n]);
    hide Inv, IsRun, Run;
    if m < n {
      OnlyPendingIsUnacked(b, rest, m);
      AcceptedStepDrains(b, Run(b, START, rest), es[n]);
    }
  }

  /**
   After a pass that the kernel accepted in full, whatever beacons and seedings arrived meanwhile, the next pass
   reports exactly the known links whose silence verdict differs from what the kernel holds.
   */
  lemma NextPassReportsDifferences(b: real, es: seq<Event>, m: nat, now: real, snapshot: seq<(Link, bool)>, l: Link, d: bool)
    requires IsRun(b, START, es) && AcceptedSince(es, m) && Run(b, START, es).pending == []
    requires Enabled(b, Run(b, START, es), StartPass(now, snapshot))
    ensures (l, d) in snapshot <==>
              && Known(es, l)
              && d == (if LastHeard(es, l).Some? then now - LastHeard(es, l).value > 3.0 * b
                       else now - FirstSeeded(es, l).value > 6.0 * b)
              && KernelDown(Run(b, START, es).kernel, l) != d
  {
    var s := Run(b, START, es);
    OnlyPendingIsUnacked(b, es, m);
    PassReports(b, s.beacons, now, snapshot);
    EvidenceOfRun(b, es, l);
    hide Run, IsRun;
  }
}
