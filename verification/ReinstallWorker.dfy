/**
 The debounced route-reinstall worker. Greenlets are cooperative, so everything between two yields is
 one step: a link event (graph edit, counter, maybe a spawn), or the worker running from one sleep
 or walk to the next. Steps of the worker and link events interleave in any order.
 */
module ReinstallWorker {
  import opened Common

  /**
   Where a worker is parked. `seen` is the change counter it is waiting on; `begun` is the graph
   version its walk started from, and `at` the step at which it started. `since` is the step at which it
   went to sleep, `slept` the sleep that let it go on.
   */
  datatype Pc =
    | Spawned
    | Quiet(seen: nat, since: nat)
    | AwaitingInitial(seen: nat, waited: nat, slept: Sleep)
    | Walking(seen: nat, begun: nat, at: nat, slept: Sleep)

  /** One quiet period: the steps at which the worker went to sleep and woke up. */
  datatype Sleep = Sleep(start: nat, end: nat)

  datatype Exit = NeverRan | Returned(begun: nat) | Raised

  /** A walk that ran to its end. */
  datatype Walk = Walk(seen: nat, begun: nat, at: nat)

  /**
   `graph` counts the changes applied to the routing graph, `counter` is topology_change_seq. The last
   three fields are history: the steps taken, when the graph last changed, the last finished walk.
   */
  datatype State = State(
    graph: nat, counter: nat, running: bool, workers: seq<Pc>, initialDone: bool, exit: Exit,
    clock: nat, lastEdit: Option<nat>, lastWalk: Option<Walk>)

  const START := State(0, 0, false, [], false, NeverRan, 0, None, None)

  /** The graph version the installed routes were computed from, as far as finished walks go. */
  function Covered(s: State): nat {
    if s.lastWalk.Some? then s.lastWalk.value.begun else 0
  }

  datatype Event =
    | LinkEvent          // on_link_add / on_link_delete: edit the graph, then schedule
    | InitialDone        // the initial install finished
    | Resume(i: nat)     // the i-th worker runs to its next yield
    | Fail(i: nat)       // the i-th worker's step raised

  predicate Enabled(s: State, e: Event) {
    match e
    case Resume(i) => i < |s.workers|
    case Fail(i) => i < |s.workers|
    case _ => true
  }

  /** The quiet period held: wait for the initial install, or walk. */
  function AfterQuiet(limit: nat, s: State, seen: nat, slept: Sleep): Pc {
    if !s.initialDone && limit > 0 then AwaitingInitial(seen, 0, slept) else Walking(seen, s.graph, s.clock, slept)
  }

  /** The next parking place of a worker that runs now; None when it returns. */
  function Resumed(limit: nat, s: State, pc: Pc): Option<Pc> {
    match pc
    case Spawned => Some(Quiet(s.counter, s.clock))
    case Quiet(seen, since) =>
      Some(if s.counter == seen then AfterQuiet(limit, s, seen, Sleep(since, s.clock)) else Quiet(s.counter, s.clock))
    case AwaitingInitial(seen, waited, slept) =>
      Some(if !s.initialDone && waited + 1 < limit then AwaitingInitial(seen, waited + 1, slept)
           else Walking(seen, s.graph, s.clock, slept))
    case Walking(seen, _, _, _) => if s.counter == seen then None else Some(Quiet(s.counter, s.clock))
  }

  function Without(ws: seq<Pc>, i: nat): seq<Pc>
    requires i < |ws|
  {
    ws[..i] + ws[i + 1..]
  }

  function Next(limit: nat, s: State, e: Event): State
    requires Enabled(s, e)
  {
    var t := s.(clock := s.clock + 1);
    match e
    case LinkEvent =>
      var t' := t.(graph := s.graph + 1, counter := s.counter + 1, lastEdit := Some(s.clock));
      if s.running then t' else t'.(running := true, workers := s.workers + [Spawned])
    case InitialDone => t.(initialDone := true)
    case Resume(i) =>
      var pc := s.workers[i];
      var walked := if pc.Walking? then Some(Walk(pc.seen, pc.begun, pc.at)) else s.lastWalk;
      (match Resumed(limit, s, pc)
       case Some(pc') => t.(workers := s.workers[i := pc'], lastWalk := walked)
       case None => t.(workers := Without(s.workers, i), running := false, lastWalk := walked,
                       exit := Returned(if pc.Walking? then pc.begun else 0)))
    case Fail(i) => t.(workers := Without(s.workers, i), running := false, exit := Raised)
  }

  ghost predicate IsRun(limit: nat, s: State, es: seq<Event>)
    decreases |es|
  {
    es == [] || (Enabled(s, es[0]) && IsRun(limit, Next(limit, s, es[0]), es[1..]))
  }

  function Run(limit: nat, s: State, es: seq<Event>): State
    requires IsRun(limit, s, es)
    decreases |es|
  {
    if es == [] then s else Run(limit, Next(limit, s, es[0]), es[1..])
  }

  // ---- no change is lost -------------------------------------------------------------------

  /** A walk begun at step `at` on version `begun`: the version is current exactly when nothing changed since. */
  predicate WalkOk(s: State, w: Walk) {
    && w.seen <= w.begun <= s.graph && w.at < s.clock && s.lastEdit.Some?
    && (w.begun == s.graph <==> w.at > s.lastEdit.value)
  }

  /** A worker never waits on a counter ahead of the real one, and walks a graph at least as new. */
  predicate PcOk(s: State, pc: Pc) {
    match pc
    case Spawned => true
    case Quiet(seen, _) => seen <= s.counter
    case AwaitingInitial(seen, _, _) => seen <= s.counter
    case Walking(seen, begun, at, _) => WalkOk(s, Walk(seen, begun, at))
  }

  ghost predicate Inv(s: State) {
    && s.graph == s.counter
    && |s.workers| == (if s.running then 1 else 0)
    && (forall i :: 0 <= i < |s.workers| ==> PcOk(s, s.workers[i]))
    && (!s.running ==>
          match s.exit
          case NeverRan => s.graph == 0
          case Returned(begun) => begun == s.graph == Covered(s)
          case Raised => s.graph > 0)
    && (s.lastEdit.Some? <==> s.graph > 0) && (s.lastEdit.Some? ==> s.lastEdit.value < s.clock)
    && (s.running ==> s.graph > 0)
    && (s.lastWalk.Some? ==> WalkOk(s, s.lastWalk.value))
    // a walk that covers everything does not end its worker only if changes arrived before it began
    && (s.lastWalk.Some? && s.lastWalk.value.begun == s.graph && (s.running || s.exit == Raised) ==>
          s.lastWalk.value.seen < s.lastWalk.value.begun)
  }

  lemma StepKeepsInv(limit: nat, s: State, e: Event)
    requires Inv(s) && Enabled(s, e)
    ensures Inv(Next(limit, s, e))
  {
  }

  /**
   In every interleaving at most one worker runs, and whenever none runs the last one either raised
   or returned from a walk that began on the graph as it is now: every change was in the graph
   before that walk started.
   */
  lemma {:induction false} NoChangeIsLost(limit: nat, s: State, es: seq<Event>)
    requires Inv(s) && IsRun(limit, s, es)
    ensures var s' := Run(limit, s, es);
            && |s'.workers| <= 1
            && (s'.running <==> |s'.workers| == 1)
            && (!s'.running && s'.graph > 0 && s'.exit != Raised ==> s'.exit == Returned(s'.graph))
    ensures Inv(Run(limit, s, es))
    decreases |es|
  {
    if es != [] {
      StepKeepsInv(limit, s, es[0]);
      NoChangeIsLost(limit, Next(limit, s, es[0]), es[1..]);
    }
  }

  lemma StartIsInv()
    ensures Inv(START)
  {
  }

  /**
   Whenever no worker runs, the routes are computed from the current graph exactly when the last finished
   walk began after the last change. A normal return means they are; an exception leaves them so only
   if that walk took in a change that had arrived while its worker waited for the initial install.
   */
  lemma StoppedIsCurrentIff(limit: nat, es: seq<Event>)
    requires IsRun(limit, START, es)
    ensures var s := Run(limit, START, es);
            !s.running && s.graph > 0 ==>
              && (Covered(s) == s.graph <==> s.lastWalk.Some? && s.lastEdit.Some? && s.lastWalk.value.at > s.lastEdit.value)
              && (s.exit.Returned? ==> Covered(s) == s.graph)
              && (s.exit == Raised && Covered(s) == s.graph ==> s.lastWalk.value.seen < s.lastWalk.value.begun)
  {
    NoChangeIsLost(limit, START, es);
  }

  /** A worker that finds the initial install done when it starts can never absorb a change like that. */
  ghost predicate NoWaiting(s: State) {
    && s.initialDone
    && (forall i :: 0 <= i < |s.workers| ==> !s.workers[i].AwaitingInitial?)
    && (forall i :: 0 <= i < |s.workers| && s.workers[i].Walking? ==> s.workers[i].seen == s.workers[i].begun)
    && (s.running || s.exit == Raised ==> Covered(s) < s.graph)
  }

  /** So once the initial install is done, an exception always loses a change. */
  lemma {:induction false} RaiseAlwaysLosesOnceInstalled(limit: nat, s: State, es: seq<Event>)
    requires Inv(s) && NoWaiting(s) && IsRun(limit, s, es)
    ensures var s' := Run(limit, s, es);
            NoWaiting(s') && (!s'.running && s'.exit == Raised ==> Covered(s') < s'.graph)
    decreases |es|
  {
    if es != [] {
      StepKeepsInv(limit, s, es[0]);
      StepKeepsNoWaiting(limit, s, es[0]);
      RaiseAlwaysLosesOnceInstalled(limit, Next(limit, s, es[0]), es[1..]);
    }
  }

  lemma StepKeepsNoWaiting(limit: nat, s: State, e: Event)
    requires Inv(s) && NoWaiting(s) && Enabled(s, e)
    ensures NoWaiting(Next(limit, s, e))
  {
  }

  /** The smallest loss: one change, and no finished walk covers it. */
  lemma RaiseLosesTheChange(limit: nat)
    ensures var es := [LinkEvent, Resume(0), Fail(0)];
            IsRun(limit, START, es) && var s := Run(limit, START, es);
            s.graph == 1 && !s.running && s.exit == Raised && Covered(s) == 0
  {
    var es := [LinkEvent, Resume(0), Fail(0)];
    var s1 := Next(limit, START, es[0]);
    assert s1.workers == [Spawned];
    var s2 := Next(limit, s1, es[1]);
    assert s2.workers == [Quiet(1, 1)];
    hide IsRun, Run;
    NoMore(limit, Next(limit, s2, es[2]));
    assert es[3..] == [];
    OneMore(limit, s2, es[2..]);
    OneMore(limit, s1, es[1..]);
    OneMore(limit, START, es);
  }

  /** And an exception that loses nothing: the second change was walked before the worker raised. */
  lemma RaiseNeedNotLose(limit: nat)
    requires limit > 0
    ensures var es := [LinkEvent, Resume(0), Resume(0), LinkEvent, InitialDone, Resume(0), Resume(0), Fail(0)];
            IsRun(limit, START, es) && var s := Run(limit, START, es);
            s.graph == 2 && !s.running && s.exit == Raised && Covered(s) == 2
  {
    var es := [LinkEvent, Resume(0), Resume(0), LinkEvent, InitialDone, Resume(0), Resume(0), Fail(0)];
    var s1 := Next(limit, START, es[0]);
    assert s1.workers == [Spawned];
    var s2 := Next(limit, s1, es[1]);
    assert s2.workers == [Quiet(1, 1)];
    var s3 := Next(limit, s2, es[2]);
    assert s3.workers == [AwaitingInitial(1, 0, Sleep(1, 2))];
    var s4 := Next(limit, s3, es[3]);
    var s5 := Next(limit, s4, es[4]);
    var s6 := Next(limit, s5, es[5]);
    assert s6.workers == [Walking(1, 2, 5, Sleep(1, 2))];
    var s7 := Next(limit, s6, es[6]);
    assert s7.workers == [Quiet(2, 6)] && Covered(s7) == 2;
    hide IsRun, Run;
    NoMore(limit, Next(limit, s7, es[7]));
    assert es[8..] == [];
    OneMore(limit, s7, es[7..]);
    OneMore(limit, s6, es[6..]);
    OneMore(limit, s5, es[5..]);
    OneMore(limit, s4, es[4..]);
    OneMore(limit, s3, es[3..]);
    OneMore(limit, s2, es[2..]);
    OneMore(limit, s1, es[1..]);
    OneMore(limit, START, es);
  }

  lemma NoMore(limit: nat, s: State)
    ensures IsRun(limit, s, []) && Run(limit, s, []) == s
  {
  }

  lemma OneMore(limit: nat, s: State, es: seq<Event>)
    requires es != [] && Enabled(s, es[0]) && IsRun(limit, Next(limit, s, es[0]), es[1..])
    ensures IsRun(limit, s, es) && Run(limit, s, es) == Run(limit, Next(limit, s, es[0]), es[1..])
  {
  }

  // ---- the quiet period ----------------------------------------------------------------------

  /** No link event among the events from `a` up to `b`. */
  ghost predicate Still(es: seq<Event>, a: nat, b: nat) {
    forall k :: a <= k < b && k < |es| ==> !es[k].LinkEvent?
  }

  /** The worker slept from one of its own steps to another, and no change came in between. */
  ghost predicate SleptThrough(es: seq<Event>, slept: Sleep) {
    && slept.start < slept.end < |es| && es[slept.start].Resume? && es[slept.end].Resume?
    && Still(es, slept.start, slept.end)
  }

  /** What the past events say about where a worker is parked. */
  ghost predicate Rested(s: State, es: seq<Event>, pc: Pc) {
    match pc
    case Spawned => true
    case Quiet(seen, since) => since < |es| && es[since].Resume? && (seen == s.counter <==> Still(es, since, |es|))
    case AwaitingInitial(_, _, slept) => SleptThrough(es, slept)
    case Walking(_, _, at, slept) => SleptThrough(es, slept) && slept.end <= at < |es|
  }

  /** The state after the events `past`, as far as the quiet period goes. */
  ghost predicate History(s: State, past: seq<Event>) {
    s.clock == |past| && forall i :: 0 <= i < |s.workers| ==> Rested(s, past, s.workers[i])
  }

  lemma StaysRested(limit: nat, s: State, past: seq<Event>, e: Event, pc: Pc)
    requires Enabled(s, e) && Rested(s, past, pc) && PcOk(s, pc)
    ensures Rested(Next(limit, s, e), past + [e], pc)
  {
    var now := past + [e];
    assert forall k :: 0 <= k < |past| ==> now[k] == past[k];
    if pc.Quiet? {
      assert Still(now, pc.since, |now|) <==> Still(past, pc.since, |past|) && !e.LinkEvent? by {
        assert now[|past|] == e;
      }
    }
  }

  lemma ResumedRests(limit: nat, s: State, past: seq<Event>, i: nat)
    requires s.clock == |past| && i < |s.workers| && Rested(s, past, s.workers[i])
    requires Resumed(limit, s, s.workers[i]).Some?
    ensures Rested(Next(limit, s, Resume(i)), past + [Resume(i)], Resumed(limit, s, s.workers[i]).value)
  {
    var now := past + [Resume(i)];
    assert now[|past|] == Resume(i);
    assert forall k :: 0 <= k < |past| ==> now[k] == past[k];
  }

  lemma StepKeepsHistory(limit: nat, s: State, past: seq<Event>, e: Event)
    requires Inv(s) && History(s, past) && Enabled(s, e)
    ensures History(Next(limit, s, e), past + [e])
  {
    hide Rested;
    var s' := Next(limit, s, e);
    forall i | 0 <= i < |s'.workers|
      ensures Rested(s', past + [e], s'.workers[i])
    {
      if s.running {
        StaysRested(limit, s, past, e, s.workers[0]);
        if e.Resume? {
          ResumedRests(limit, s, past, 0);
        }
      } else {
        StaysRested(limit, s, past, e, Spawned);
      }
    }
  }

  /**
   In every run, a worker that waits for the initial install or walks slept one whole quiet period first, with no link
   event in it; and a sleeping worker finds its counter unmoved exactly when none came since it lay down.
   */
  lemma {:induction false} WalksAfterQuiet(limit: nat, s: State, past: seq<Event>, es: seq<Event>)
    requires Inv(s) && History(s, past) && IsRun(limit, s, es)
    ensures History(Run(limit, s, es), past + es)
    decreases |es|
  {
    hide History;
    if es == [] {
      assert past + es == past;
    } else {
      StepKeepsInv(limit, s, es[0]);
      StepKeepsHistory(limit, s, past, es[0]);
      WalksAfterQuiet(limit, Next(limit, s, es[0]), past + [es[0]], es[1..]);
      assert past + [es[0]] + es[1..] == past + es;
    }
  }

  /** From the start: a change during the sleep, and nothing else, sends the waking worker back to sleep. */
  lemma ChangeRestartsQuiet(limit: nat, es: seq<Event>)
    requires IsRun(limit, START, es)
    requires var s := Run(limit, START, es); s.running && |s.workers| == 1 && s.workers[0].Quiet?
    ensures var s := Run(limit, START, es);
            var since := s.workers[0].since;
            var s' := Next(limit, s, Resume(0));
            && since < |es| && es[since].Resume? && |s'.workers| == 1
            && (s'.workers[0].Quiet? <==> exists k :: since <= k < |es| && es[k].LinkEvent?)
            && (s'.workers[0].Quiet? ==> s'.workers[0].since == |es|)
            && (!s'.workers[0].Quiet? ==> s'.workers[0].slept == Sleep(since, |es|))
  {
    StartIsInv();
    WalksAfterQuiet(limit, START, [], es);
    assert [] + es == es;
    var s := Run(limit, START, es);
    assert Rested(s, es, s.workers[0]);
  }

  // ---- the wait for the initial install --------------------------------------------------------

  /** How often a worker woke among the events from `a` on. */
  function Wakes(es: seq<Event>, a: nat): nat {
    if |es| <= a then 0 else Wakes(es[..|es| - 1], a) + if es[|es| - 1].Resume? then 1 else 0
  }

  predicate Installed(es: seq<Event>) { exists k :: 0 <= k < |es| && es[k].InitialDone? }

  /**
   A waiting worker has woken fewer times than the limit and never found the initial install done; a walk began
   when it was done or after exactly `limit` waits, and no later.
   */
  ghost predicate Waited(limit: nat, es: seq<Event>, pc: Pc) {
    match pc
    case AwaitingInitial(_, waited, slept) =>
      && waited == Wakes(es, slept.end + 1) < limit
      && forall k, j :: 0 <= k < j < |es| && es[k].InitialDone? ==> !es[j].Resume?
    case Walking(_, _, at, slept) =>
      && at < |es|
      && var waits := Wakes(es[..at + 1], slept.end + 1);
         waits <= limit && (waits == limit || Installed(es[..at]))
    case _ => true
  }

  ghost predicate WaitHistory(limit: nat, s: State, past: seq<Event>) {
    && s.clock == |past| && (s.initialDone <==> Installed(past))
    && forall i :: 0 <= i < |s.workers| ==> Waited(limit, past, s.workers[i])
  }

  lemma OneMoreEvent(past: seq<Event>, e: Event)
    ensures Installed(past + [e]) <==> Installed(past) || e.InitialDone?
    ensures forall a: nat :: a <= |past| ==> Wakes(past + [e], a) == Wakes(past, a) + if e.Resume? then 1 else 0
  {
    var now := past + [e];
    assert now[..|past|] == past && now[|past|] == e;
    if Installed(past) {
      var k :| 0 <= k < |past| && past[k].InitialDone?;
      assert now[k].InitialDone?;
    }
  }

  lemma StillWaited(limit: nat, past: seq<Event>, e: Event, pc: Pc)
    requires Waited(limit, past, pc) && !e.Resume? && (pc.AwaitingInitial? ==> pc.slept.end < |past|)
    ensures Waited(limit, past + [e], pc)
  {
    OneMoreEvent(past, e);
    var now := past + [e];
    if pc.Walking? {
      assert now[..pc.at + 1] == past[..pc.at + 1] && now[..pc.at] == past[..pc.at];
    }
  }

  lemma ResumedWaited(limit: nat, s: State, past: seq<Event>, i: nat)
    requires s.clock == |past| && (s.initialDone <==> Installed(past)) && i < |s.workers|
    requires Waited(limit, past, s.workers[i]) && Rested(s, past, s.workers[i])
    requires Resumed(limit, s, s.workers[i]).Some?
    ensures Waited(limit, past + [Resume(i)], Resumed(limit, s, s.workers[i]).value)
  {
    OneMoreEvent(past, Resume(i));
    var now := past + [Resume(i)];
    assert now[..|past| + 1] == now && now[..|past|] == past;
    if !s.initialDone {
      assert forall k :: 0 <= k < |now| ==> !now[k].InitialDone?;
    }
  }

  lemma StepKeepsWait(limit: nat, s: State, past: seq<Event>, e: Event)
    requires Inv(s) && History(s, past) && WaitHistory(limit, s, past) && Enabled(s, e)
    ensures WaitHistory(limit, Next(limit, s, e), past + [e])
  {
    OneMoreEvent(past, e);
    var s' := Next(limit, s, e);
    forall i | 0 <= i < |s'.workers|
      ensures Waited(limit, past + [e], s'.workers[i])
    {
      if s.running {
        assert Rested(s, past, s.workers[0]) && Waited(limit, past, s.workers[0]);
        hide Waited;
        if e.Resume? {
          ResumedWaited(limit, s, past, 0);
        } else {
          StillWaited(limit, past, e, s.workers[0]);
        }
      }
    }
  }

  /** In every run, workers wait for the initial install no longer than it takes, and never beyond the limit. */
  lemma {:induction false} WaitIsBounded(limit: nat, s: State, past: seq<Event>, es: seq<Event>)
    requires Inv(s) && History(s, past) && WaitHistory(limit, s, past) && IsRun(limit, s, es)
    ensures WaitHistory(limit, Run(limit, s, es), past + es)
    decreases |es|
  {
    hide History, WaitHistory;
    if es == [] {
      assert past + es == past;
    } else {
      StepKeepsInv(limit, s, es[0]);
      StepKeepsHistory(limit, s, past, es[0]);
      StepKeepsWait(limit, s, past, es[0]);
      WaitIsBounded(limit, Next(limit, s, es[0]), past + [es[0]], es[1..]);
      assert past + [es[0]] + es[1..] == past + es;
    }
  }

  // ---- once changes stop, the worker finishes ----------------------------------------------

  /** Steps a worker can still take before it returns, if nothing else changes. */
  function Remaining(limit: nat, s: State, pc: Pc): nat {
    match pc
    case Spawned => limit + 4
    case Quiet(seen, _) => if seen == s.counter then limit + 3 else limit + 4
    case AwaitingInitial(seen, waited, _) =>
      (if waited < limit then limit - waited else 1) + (if seen == s.counter then 1 else limit + 4)
    case Walking(seen, _, _, _) => if seen == s.counter then 1 else limit + 4
  }

  ghost predicate OnlyWorker(es: seq<Event>) {
    forall i :: 0 <= i < |es| ==> es[i].Resume?
  }

  /** Each uninterrupted step brings the worker strictly nearer to returning. */
  lemma StepIsProgress(limit: nat, s: State, e: Event)
    requires Inv(s) && Enabled(s, e) && e.Resume?
    ensures var s' := Next(limit, s, e);
            s.running && if s'.running then Remaining(limit, s', s'.workers[0]) < Remaining(limit, s, s.workers[0])
                         else s'.exit == Returned(s.graph)
  {
  }

  /** With no further change and no exception, a running worker returns within a bounded number of steps. */
  lemma {:induction false} QuietRunIsBounded(limit: nat, s: State, es: seq<Event>)
    requires Inv(s) && s.running && IsRun(limit, s, es) && OnlyWorker(es)
    ensures |es| <= Remaining(limit, s, s.workers[0])
    ensures |es| == Remaining(limit, s, s.workers[0]) ==> !Run(limit, s, es).running
    decreases |es|
  {
    if es != [] {
      var s' := Next(limit, s, es[0]);
      assert es[0].Resume?;
      StepKeepsInv(limit, s, es[0]);
      StepIsProgress(limit, s, es[0]);
      forall i | 0 <= i < |es[1..]| ensures es[1..][i].Resume? {
        assert es[1..][i] == es[i + 1];
      }
      if s'.running {
        QuietRunIsBounded(limit, s', es[1..]);
      }
    }
  }
}
