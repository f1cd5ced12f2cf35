/**
 The coalescing topology worker. Switch-enter events queue a dpid and set a dirty flag; one worker
 clears the flag, rebuilds, drains the queue by swapping it, and notifies the drained switches.
 Events may arrive between any two steps, including in the middle of a rebuild.
 */
module TopologyWorker {
  import opened Common

  datatype Pc =
    | NotStarted
    | Idle                              // parked in wait()
    | Rebuilding                        // flag cleared, queue not yet drained
    | Notifying(batch: seq<nat>)        // drained; these dpids are still to be notified

  /** How the last finished rebuild went. */
  datatype Outcome = NoneYet | EndedBeforeDrain | EndedAfterDrain

  /**
   `clock` counts steps. The maps and the last three fields are history: when each dpid last entered and
   was last notified, and when a rebuild last began and last drained the queue.
   */
  datatype State = State(
    pending: set<nat>, dirty: bool, pc: Pc, outcome: Outcome,
    clock: nat, lastEnter: map<nat, nat>, lastNotice: map<nat, nat>, lastEvent: Option<nat>, lastBegin: Option<nat>,
    lastDrain: Option<nat>)

  const START := State({}, false, NotStarted, NoneYet, 0, map[], map[], None, None, None)

  datatype Event =
    | Enter(dpid: nat)        // get_topology_data
    | Begin                   // wait() returns, clear(), rebuild starts
    | Abort                   // no switch list or no link list: return before the drain
    | Raise                   // an exception escapes the rebuild
    | Drain(batch: seq<nat>)  // the swap
    | Notify                  // one bounded notification
    | Finish

  ghost predicate Enabled(s: State, e: Event) {
    match e
    case Enter(_) => true
    case Begin => s.pc == Idle && s.dirty
    case Abort => s.pc == Rebuilding
    case Raise => s.pc == Rebuilding || s.pc == Notifying([])
    case Drain(batch) => s.pc == Rebuilding && Enumerates(batch, s.pending)
    case Notify => s.pc.Notifying? && s.pc.batch != []
    case Finish => s.pc == Notifying([])
  }

  function Next(s: State, e: Event): State {
    var t := s.(clock := s.clock + 1);
    match e
    case Enter(d) =>
      t.(pending := s.pending + {d}, dirty := true, pc := if s.pc.NotStarted? then Idle else s.pc,
         lastEnter := s.lastEnter[d := s.clock], lastEvent := Some(s.clock))
    case Begin => t.(dirty := false, pc := Rebuilding, lastBegin := Some(s.clock))
    case Abort => t.(pc := Idle, outcome := EndedBeforeDrain)
    case Raise => t.(pc := Idle, outcome := if s.pc.Rebuilding? then EndedBeforeDrain else EndedAfterDrain)
    case Drain(batch) => t.(pending := {}, pc := Notifying(batch), lastDrain := Some(s.clock))
    case Notify =>
      if s.pc.Notifying? && s.pc.batch != []
      then t.(pc := Notifying(s.pc.batch[1..]), lastNotice := s.lastNotice[s.pc.batch[0] := s.clock])
      else t
    case Finish => t.(pc := Idle, outcome := EndedAfterDrain)
  }

  ghost predicate IsRun(s: State, es: seq<Event>)
    decreases |es|
  {
    es == [] || (Enabled(s, es[0]) && IsRun(Next(s, es[0]), es[1..]))
  }

  function Run(s: State, es: seq<Event>): State
    decreases |es|
  {
    if es == [] then s else Run(Next(s, es[0]), es[1..])
  }

  // ---- what every step keeps ---------------------------------------------------------------

  /** The latest event is followed by the start of a rebuild, or the flag still asks for one. */
  ghost predicate EventHeeded(s: State) {
    s.lastEvent.Some? ==> s.dirty || (s.lastBegin.Some? && s.lastBegin.value > s.lastEvent.value)
  }

  /** This switch's latest entry has been notified since, is being notified, or is still queued. */
  ghost predicate Accounted(s: State, d: nat) {
    || d in s.pending
    || (s.pc.Notifying? && d in s.pc.batch)
    || (d in s.lastEnter && d in s.lastNotice && s.lastNotice[d] > s.lastEnter[d])
  }

  /** The switch entered after the last drain, or nothing was ever drained. */
  ghost predicate EnteredSinceDrain(s: State, d: nat) {
    d in s.lastEnter && (s.lastDrain.None? || s.lastEnter[d] > s.lastDrain.value)
  }

  ghost predicate Inv(s: State) {
    && EventHeeded(s)
    && (forall d :: d in s.pending <==> EnteredSinceDrain(s, d))
    && (s.lastDrain.Some? ==> s.lastDrain.value < s.clock)
    && (forall d :: d in s.lastEnter ==> s.lastEnter[d] < s.clock && Accounted(s, d))
    && s.pending <= s.lastEnter.Keys
    && (s.lastEvent.Some? ==> s.lastEvent.value < s.clock) && (s.lastBegin.Some? ==> s.lastBegin.value < s.clock)
    && (s.pc.NotStarted? ==> s.pending == {} && !s.dirty)
    && (s.pc.Notifying? && !s.dirty ==> s.pending == {})
    && (s.pc.Idle? && !s.dirty && s.outcome != EndedBeforeDrain ==> s.pending == {})
    && (s.outcome.NoneYet? && s.pc.Idle? ==> s.dirty)
  }

  lemma EnterKeepsInv(s: State, d: nat)
    requires Inv(s)
    ensures Inv(Next(s, Enter(d)))
  {
    var s' := Next(s, Enter(d));
    forall x | x in s'.lastEnter ensures s'.lastEnter[x] < s'.clock && Accounted(s', x) {
      assert x != d ==> x in s.lastEnter && Accounted(s, x);
    }
    forall x ensures x in s'.pending <==> EnteredSinceDrain(s', x) {
      assert x in s.pending <==> EnteredSinceDrain(s, x);
    }
  }

  lemma DrainKeepsInv(s: State, batch: seq<nat>)
    requires Inv(s) && Enabled(s, Drain(batch))
    ensures Inv(Next(s, Drain(batch)))
  {
    var s' := Next(s, Drain(batch));
    forall x | x in s'.lastEnter ensures s'.lastEnter[x] < s'.clock && Accounted(s', x) {
      assert Accounted(s, x);
      assert x in batch <==> x in s.pending;
    }
    assert forall x :: x in s.lastEnter ==> s.lastEnter[x] < s.clock;
  }

  lemma NotifyKeepsInv(s: State)
    requires Inv(s) && Enabled(s, Notify)
    ensures Inv(Next(s, Notify))
  {
    var s' := Next(s, Notify);
    assert s.pc.batch == [s.pc.batch[0]] + s.pc.batch[1..];
    forall x | x in s'.lastEnter ensures s'.lastEnter[x] < s'.clock && Accounted(s', x) {
      assert Accounted(s, x);
    }
    forall x ensures x in s'.pending <==> EnteredSinceDrain(s', x) {
      assert x in s.pending <==> EnteredSinceDrain(s, x);
    }
  }

  /** The worker's own moves touch neither the queue nor anyone's history. */
  lemma MoveKeepsInv(s: State, e: Event)
    requires Inv(s) && Enabled(s, e) && (e.Begin? || e.Abort? || e.Raise? || e.Finish?)
    ensures Inv(Next(s, e))
  {
    var s' := Next(s, e);
    forall x | x in s'.lastEnter ensures s'.lastEnter[x] < s'.clock && Accounted(s', x) {
      assert Accounted(s, x);
    }
    forall x ensures x in s'.pending <==> EnteredSinceDrain(s', x) {
      assert x in s.pending <==> EnteredSinceDrain(s, x);
    }
  }

  lemma StepKeepsInv(s: State, e: Event)
    requires Inv(s) && Enabled(s, e)
    ensures Inv(Next(s, e))
  {
    hide Inv, Next;
    match e
    case Enter(d) => EnterKeepsInv(s, d);
    case Drain(batch) => DrainKeepsInv(s, batch);
    case Notify => NotifyKeepsInv(s);
    case _ => MoveKeepsInv(s, e);
  }

  /**
   In every interleaving no switch-enter is lost: it earned a later rebuild or the flag is set, and
   its dpid has been notified since, is about to be, or is still queued.
   */
  lemma {:induction false} NothingIsLost(s: State, es: seq<Event>)
    requires Inv(s) && IsRun(s, es)
    ensures Inv(Run(s, es))
    ensures EventHeeded(Run(s, es)) && forall d :: d in Run(s, es).lastEnter ==> Accounted(Run(s, es), d)
    decreases |es|
  {
    if es != [] {
      StepKeepsInv(s, es[0]);
      NothingIsLost(Next(s, es[0]), es[1..]);
    }
  }

  lemma StartIsInv()
    ensures Inv(START)
  {
  }

  /** Over every run, at every moment, queued are exactly the switches that entered since the last drain. */
  lemma QueuedIsSinceDrain(es: seq<Event>)
    requires IsRun(START, es)
    ensures var s := Run(START, es); forall d :: d in s.pending <==> EnteredSinceDrain(s, d)
  {
    NothingIsLost(START, es);
  }

  /**
   A parked worker with a clear flag leaves switches queued exactly when its last rebuild ended before
   its drain and some switch entered after the drain before that.
   */
  lemma StrandedIff(es: seq<Event>)
    requires IsRun(START, es)
    ensures var s := Run(START, es);
            s.pc.Idle? && !s.dirty ==>
              (s.pending != {} <==> s.outcome == EndedBeforeDrain && exists d :: EnteredSinceDrain(s, d))
  {
    NothingIsLost(START, es);
    var s := Run(START, es);
    if s.pending != {} {
      var d :| d in s.pending;
      assert EnteredSinceDrain(s, d);
    }
  }

  /** In particular a rebuild that fails after its drain strands nobody, whatever arrived when. */
  lemma FailingAfterDrainStrandsNothing(es: seq<Event>)
    requires IsRun(START, es)
    ensures var s := Run(START, es);
            s.pc.Idle? && !s.dirty && s.outcome == EndedAfterDrain ==> s.pending == {}
  {
    NothingIsLost(START, es);
  }

  /** Unless the last rebuild ended before its drain, a parked worker with a clear flag has told the kernel about every entry. */
  lemma SettledMeansNotified(es: seq<Event>, d: nat)
    requires IsRun(START, es)
    ensures var s := Run(START, es);
            s.pc.Idle? && !s.dirty && s.outcome != EndedBeforeDrain && d in s.lastEnter ==>
              d in s.lastNotice && s.lastNotice[d] > s.lastEnter[d]
  {
    NothingIsLost(START, es);
    var s := Run(START, es);
    assert d in s.lastEnter ==> Accounted(s, d);
  }

  /** The stranding is real: one switch enters, its rebuild aborts, and nothing asks for another. */
  lemma AbortStrands()
    ensures var es := [Enter(5), Begin, Abort];
            IsRun(START, es) && var s := Run(START, es);
            s.pc == Idle && !s.dirty && s.pending == {5}
  {
    var es := [Enter(5), Begin, Abort];
    var s1 := Next(START, Enter(5));
    var s2 := Next(s1, Begin);
    var s3 := Next(s2, Abort);
    assert es[1..] == [Begin, Abort] && es[1..][1..] == [Abort] && es[1..][1..][1..] == [];
    assert IsRun(s3, []) && Run(s3, []) == s3;
    assert IsRun(s2, [Abort]) && Run(s2, [Abort]) == s3;
    assert IsRun(s1, [Begin, Abort]) && Run(s1, [Begin, Abort]) == s3;
  }

  /**
   An aborted rebuild need not strand anything: an enter that arrived before the previous drain was
   already served by it, and only left the flag set.
   */
  lemma AbortNeedNotStrand()
    ensures var es := [Enter(5), Begin, Enter(5), Drain([5]), Notify, Finish, Begin, Abort];
            IsRun(START, es) && var s := Run(START, es);
            s.pc == Idle && !s.dirty && s.pending == {} && s.outcome == EndedBeforeDrain
  {
    var es := [Enter(5), Begin, Enter(5), Drain([5]), Notify, Finish, Begin, Abort];
    var s1 := Next(START, es[0]);
    var s2 := Next(s1, es[1]);
    var s3 := Next(s2, es[2]);
    assert s3.pending == {5};
    var s4 := Next(s3, es[3]);
    var s5 := Next(s4, es[4]);
    assert s5.pc == Notifying([]);
    var s6 := Next(s5, es[5]);
    var s7 := Next(s6, es[6]);
    hide IsRun, Run;
    NoMore(Next(s7, es[7]));
    assert es[8..] == [];
    OneMore(s7, es[7..]);
    OneMore(s6, es[6..]);
    OneMore(s5, es[5..]);
    OneMore(s4, es[4..]);
    OneMore(s3, es[3..]);
    OneMore(s2, es[2..]);
    OneMore(s1, es[1..]);
    OneMore(START, es);
  }

  lemma NoMore(s: State)
    ensures IsRun(s, []) && Run(s, []) == s
  {
  }

  lemma OneMore(s: State, es: seq<Event>)
    requires es != [] && Enabled(s, es[0]) && IsRun(Next(s, es[0]), es[1..])
    ensures IsRun(s, es) && Run(s, es) == Run(Next(s, es[0]), es[1..])
  {
  }
}
