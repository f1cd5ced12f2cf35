/**
 Programming the clone session telemetry is sampled into. A pipeline commit empties the server's
 session bookkeeping but not the replica group behind it, so a plain re-insert stacks replicas;
 a DELETE reaches the group only while the bookkeeping holds the session
 (CloneSessionEntry, section 9.5.2 of the P4Runtime specification).
 */
module CloneSession {

  /** Bookkeeping of the session, and the replicas in the group behind it. */
  datatype Pre = Pre(registered: bool, replicas: nat)

  /** MODIFY replaces the session's configuration; what that leaves in the group is not relied on. */
  datatype Op = Delete | Insert | Modify(leaves: nat)

  /** A write answers truthfully, fails without effect, or fails although it took effect. */
  datatype Fault = Fine | Lost | LandedAnyway

  function Effect(p: Pre, op: Op): (Pre, bool) {
    match op
    case Delete => if p.registered then (Pre(false, 0), true) else (p, false)
    case Insert => if p.registered then (p, false) else (Pre(true, p.replicas + 1), true)
    case Modify(n) => if p.registered then (Pre(true, n), true) else (p, false)
  }

  /** The new state, and whether the client sees success. */
  function Write(p: Pre, op: Op, f: Fault): (Pre, bool) {
    match f
    case Fine => Effect(p, op)
    case Lost => (p, false)
    case LandedAnyway => (Effect(p, op).0, false)
  }

  function Committed(p: Pre): Pre { Pre(false, p.replicas) }

  /** What happens to each of the five writes a call can make. */
  datatype Faults = Faults(delete1: Fault, insert1: Fault, update: Fault, delete2: Fault, insert2: Fault)

  const NO_FAULT := Faults(Fine, Fine, Fine, Fine, Fine)

  class Target {
    var registered: bool
    var replicas: nat

    ghost function Now(): Pre reads this { Pre(registered, replicas) }

    constructor (p: Pre)
      ensures Now() == p
    {
      registered, replicas := p.registered, p.replicas;
    }

    method Serve(op: Op, f: Fault) returns (ok: bool)
      modifies this
      ensures (Now(), ok) == Write(old(Now()), op, f)
    {
      var (p, success) := Write(Pre(registered, replicas), op, f);
      registered, replicas, ok := p.registered, p.replicas, success;
    }

    /** Best-effort DELETE, INSERT with a MODIFY fallback, then the settle pair. */
    method WriteCloneSession(fs: Faults, modifyLeaves: nat) returns (ok: bool)
      modifies this
      ensures ok ==> Now() == Pre(true, 1)
      ensures fs == NO_FAULT ==> ok
      ensures (Now(), ok) == Programmed(old(Now()), fs, modifyLeaves)
    {
      var ignored := Serve(Delete, fs.delete1);
      var inserted := Serve(Insert, fs.insert1);
      if !inserted {
        var modified := Serve(Modify(modifyLeaves), fs.update);
        if !modified {
          return false;
        }
      }
      var removed := Serve(Delete, fs.delete2);
      if !removed {
        return false;
      }
      ok := Serve(Insert, fs.insert2);
    }
  }

  /** The registration half: its end state, and whether it reported success. */
  function Registered(p: Pre, fs: Faults, modifyLeaves: nat): (Pre, bool) {
    var p1 := Write(p, Delete, fs.delete1).0;
    var (p2, inserted) := Write(p1, Insert, fs.insert1);
    if inserted then (p2, true) else Write(p2, Modify(modifyLeaves), fs.update)
  }

  function Programmed(p: Pre, fs: Faults, modifyLeaves: nat): (Pre, bool) {
    var (p1, registered) := Registered(p, fs, modifyLeaves);
    if !registered then (p1, false) else
      var (p2, removed) := Write(p1, Delete, fs.delete2);
      if !removed then (p2, false) else Write(p2, Insert, fs.insert2)
  }

  /**
   From any state and under any faults, True means exactly one replica. It is returned exactly when the settle pair
   was served and the session had been registered before it: by an INSERT that found no session, or by a
   MODIFY that found one, left over by a lost DELETE or made by an INSERT whose answer was lost.
   */
  lemma TrueMeansSingle(p: Pre, fs: Faults, modifyLeaves: nat)
    ensures var (p', ok) := Programmed(p, fs, modifyLeaves);
            && (ok ==> p' == Pre(true, 1))
            && var leftOver := p.registered && fs.delete1.Lost?;
               (ok <==>
                  && ((fs.insert1.Fine? && !leftOver) || (fs.update.Fine? && (leftOver || fs.insert1.LandedAnyway?)))
                  && fs.delete2.Fine? && fs.insert2.Fine?)
    ensures Programmed(p, NO_FAULT, modifyLeaves) == (Pre(true, 1), true)
  {
  }

  // ---- proxy generations against a warm fabric ---------------------------------------------

  /** One proxy restart with only the leading DELETE and INSERT. */
  function PlainRestart(p: Pre): Pre {
    Write(Write(Committed(p), Delete, Fine).0, Insert, Fine).0
  }

  function SettledRestart(p: Pre, modifyLeaves: nat): Pre {
    Programmed(Committed(p), NO_FAULT, modifyLeaves).0
  }

  function PlainGenerations(p: Pre, n: nat): Pre {
    if n == 0 then p else PlainRestart(PlainGenerations(p, n - 1))
  }

  function SettledGenerations(p: Pre, leaves: seq<nat>): Pre {
    if leaves == [] then p else SettledRestart(SettledGenerations(p, leaves[..|leaves| - 1]), leaves[|leaves| - 1])
  }

  /** Without the settle pair every re-commit adds a replica, without bound. */
  lemma {:induction false} PlainRestartsStack(p: Pre, n: nat)
    ensures PlainGenerations(p, n).replicas == p.replicas + n
  {
    if n > 0 {
      PlainRestartsStack(p, n - 1);
    }
  }

  /** With it, any number of restarts, from any accumulated group, ends at a single replica. */
  lemma {:induction false} SettledRestartsStaySingle(p: Pre, leaves: seq<nat>)
    requires leaves != []
    ensures SettledGenerations(p, leaves) == Pre(true, 1)
  {
    TrueMeansSingle(Committed(SettledGenerations(p, leaves[..|leaves| - 1])), NO_FAULT, leaves[|leaves| - 1]);
  }
}
