/**
 Batching of samples per switch. Whatever the clock and the socket do, each switch's accepted
 samples are, in order, its flushed batches followed by its pending buffer.
 */
module Emitter {
  import opened Common
  import opened Bytes
  import opened SFlow

  type Dpid = nat

  /** What became of a batch. */
  datatype Fate = Sent(datagram: seq<Byte>) | SendFailed | BuildFailed | NoAgent

  /** `socketOk` is the socket's answer, had it been asked. */
  datatype Batch = Batch(dpid: Dpid, samples: seq<Sample>, agent: Option<Agent>, uptime: int, socketOk: bool, fate: Fate)

  /** The fate of a batch is decided by its agent, its samples, the uptime and the socket. */
  function FateOf(agent: Option<Agent>, samples: seq<Sample>, uptime: int, maxHeader: nat, socketOk: bool): Fate {
    if agent.None? then NoAgent else
      match Datagram(agent.value, samples, uptime, maxHeader).1
      case None => BuildFailed
      case Some(b) => if socketOk then Sent(b) else SendFailed
  }

  datatype Entry = Registered(dpid: Dpid, ip: Option<Ip4>) | Flushed(batch: Batch)

  /**
   Every sample accepted so far in order, every batch handed on so far in order, and the registrations
   and batches in the order they happened.
   */
  datatype Ledger = Ledger(taken: seq<(Dpid, Sample)>, batches: seq<Batch>, log: seq<Entry>)

  /** A switch's agent as its own registrations and batches leave it. */
  function AgentAfter(log: seq<Entry>, d: Dpid, maxHeader: nat): Option<Agent> {
    if log == [] then None else
      var before := AgentAfter(log[..|log| - 1], d, maxHeader);
      match log[|log| - 1]
      case Registered(e, ip) => if e == d then Some(Agent(ip, 0, 0, 0, 0, 0)) else before
      case Flushed(b) =>
        if b.dpid == d && before.Some? then Some(Datagram(before.value, b.samples, b.uptime, maxHeader).0) else before
  }

  function BatchesIn(log: seq<Entry>): seq<Batch> {
    if log == [] then [] else
      BatchesIn(log[..|log| - 1]) + if log[|log| - 1].Flushed? then [log[|log| - 1].batch] else []
  }

  function AgentOf(agents: map<Dpid, Agent>, d: Dpid): Option<Agent> {
    if d in agents then Some(agents[d]) else None
  }

  /** Every batch went out under the agent its own switch had at that moment, and no other. */
  ghost predicate Chained(l: Ledger, agents: map<Dpid, Agent>, maxHeader: nat) {
    && BatchesIn(l.log) == l.batches
    && (forall d :: AgentAfter(l.log, d, maxHeader) == AgentOf(agents, d))
    && (forall i :: 0 <= i < |l.log| && l.log[i].Flushed? ==>
          l.log[i].batch.agent == AgentAfter(l.log[..i], l.log[i].batch.dpid, maxHeader))
  }

  lemma ChainGrows(l: Ledger, agents: map<Dpid, Agent>, maxHeader: nat, e: Entry, agents': map<Dpid, Agent>, batches: seq<Batch>)
    requires Chained(l, agents, maxHeader)
    requires e.Flushed? ==> e.batch.agent == AgentOf(agents, e.batch.dpid)
    requires batches == l.batches + if e.Flushed? then [e.batch] else []
    requires forall d :: AgentOf(agents', d) == AgentAfter(l.log + [e], d, maxHeader)
    ensures Chained(l.(batches := batches, log := l.log + [e]), agents', maxHeader)
  {
    hide AgentAfter;
    var log' := l.log + [e];
    assert log'[..|l.log|] == l.log;
    forall i | 0 <= i < |log'| && log'[i].Flushed?
      ensures log'[i].batch.agent == AgentAfter(log'[..i], log'[i].batch.dpid, maxHeader)
    {
      assert i < |l.log| ==> log'[i] == l.log[i];
      assert log'[..i] == l.log[..i];
    }
  }

  lemma ChainFlush(l: Ledger, agents: map<Dpid, Agent>, maxHeader: nat, b: Batch, agents': map<Dpid, Agent>)
    requires Chained(l, agents, maxHeader) && b.agent == AgentOf(agents, b.dpid)
    requires agents' == Advanced(agents, b.dpid, b.samples, b.uptime, maxHeader)
    ensures Chained(l.(batches := l.batches + [b], log := l.log + [Flushed(b)]), agents', maxHeader)
  {
    hide Datagram;
    assert (l.log + [Flushed(b)])[..|l.log|] == l.log;
    ChainGrows(l, agents, maxHeader, Flushed(b), agents', l.batches + [b]);
  }

  lemma ChainRegister(l: Ledger, agents: map<Dpid, Agent>, maxHeader: nat, d: Dpid, ip: Option<Ip4>)
    requires Chained(l, agents, maxHeader)
    ensures Chained(l.(log := l.log + [Registered(d, ip)]), agents[d := Agent(ip, 0, 0, 0, 0, 0)], maxHeader)
  {
    assert (l.log + [Registered(d, ip)])[..|l.log|] == l.log;
    ChainGrows(l, agents, maxHeader, Registered(d, ip), agents[d := Agent(ip, 0, 0, 0, 0, 0)], l.batches);
  }

  /** Building a datagram advances its own switch's agent only. */
  function Advanced(agents: map<Dpid, Agent>, d: Dpid, samples: seq<Sample>, uptime: int, maxHeader: nat): map<Dpid, Agent> {
    if d in agents then agents[d := Datagram(agents[d], samples, uptime, maxHeader).0] else agents
  }

  function TakenOf(taken: seq<(Dpid, Sample)>, d: Dpid): seq<Sample> {
    if taken == [] then [] else
      var (e, s) := taken[|taken| - 1];
      TakenOf(taken[..|taken| - 1], d) + if e == d then [s] else []
  }

  function FlushedOf(batches: seq<Batch>, d: Dpid): seq<Sample> {
    if batches == [] then [] else
      var last := batches[|batches| - 1];
      FlushedOf(batches[..|batches| - 1], d) + if last.dpid == d then last.samples else []
  }

  function PendingOf(pending: map<Dpid, seq<Sample>>, d: Dpid): seq<Sample> {
    if d in pending then pending[d] else []
  }

  function SamplesSent(batches: seq<Batch>): nat {
    if batches == [] then 0 else
      var last := batches[|batches| - 1];
      SamplesSent(batches[..|batches| - 1]) + if last.fate.Sent? then |last.samples| else 0
  }

  function CountFate(batches: seq<Batch>, sent: bool): nat {
    if batches == [] then 0 else
      var last := batches[|batches| - 1];
      CountFate(batches[..|batches| - 1], sent)
      + if (if sent then last.fate.Sent? else last.fate.SendFailed?) then 1 else 0
  }

  /** Nothing lost, duplicated, reordered or moved between switches. */
  ghost predicate Conserved(l: Ledger, pending: map<Dpid, seq<Sample>>) {
    forall d {:trigger TakenOf(l.taken, d)} :: TakenOf(l.taken, d) == FlushedOf(l.batches, d) + PendingOf(pending, d)
  }

  /** A batch met the fate it deserves; if it was sent, as the datagram its agent builds for exactly its samples. */
  ghost predicate Honest(b: Batch, maxHeader: nat, batchSize: nat) {
    0 < |b.samples| <= batchSize && b.fate == FateOf(b.agent, b.samples, b.uptime, maxHeader, b.socketOk)
  }

  lemma ConservedKeeps(l: Ledger, log: seq<Entry>, pending: map<Dpid, seq<Sample>>)
    requires Conserved(l, pending)
    ensures Conserved(l.(log := log), pending)
  {
  }

  lemma ChainKeeps(l: Ledger, taken: seq<(Dpid, Sample)>, agents: map<Dpid, Agent>, maxHeader: nat)
    requires Chained(l, agents, maxHeader)
    ensures Chained(l.(taken := taken), agents, maxHeader)
  {
  }

  lemma TakeConserves(l: Ledger, pending: map<Dpid, seq<Sample>>, d: Dpid, s: Sample)
    requires Conserved(l, pending)
    ensures Conserved(l.(taken := l.taken + [(d, s)]), pending[d := PendingOf(pending, d) + [s]])
  {
    var l' := l.(taken := l.taken + [(d, s)]);
    var pending' := pending[d := PendingOf(pending, d) + [s]];
    assert l'.taken[..|l.taken|] == l.taken;
    forall e ensures TakenOf(l'.taken, e) == FlushedOf(l.batches, e) + PendingOf(pending', e) {
      assert TakenOf(l.taken, e) == FlushedOf(l.batches, e) + PendingOf(pending, e);
    }
  }

  lemma FlushConserves(l: Ledger, pending: map<Dpid, seq<Sample>>, b: Batch)
    requires Conserved(l, pending) && b.samples == PendingOf(pending, b.dpid)
    ensures Conserved(l.(batches := l.batches + [b]), pending - {b.dpid})
  {
    var l' := l.(batches := l.batches + [b]);
    assert l'.batches[..|l.batches|] == l.batches;
    forall e ensures TakenOf(l.taken, e) == FlushedOf(l'.batches, e) + PendingOf(pending - {b.dpid}, e) {
      assert TakenOf(l.taken, e) == FlushedOf(l.batches, e) + PendingOf(pending, e);
    }
  }

  /** A sample that goes straight out is a batch of one. */
  lemma DirectConserves(l: Ledger, pending: map<Dpid, seq<Sample>>, s: Sample, b: Batch)
    requires Conserved(l, pending) && b.samples == [s] && b.dpid !in pending
    ensures Conserved(l.(taken := l.taken + [(b.dpid, s)], batches := l.batches + [b]), pending)
  {
    TakeConserves(l, pending, b.dpid, s);
    FlushConserves(l.(taken := l.taken + [(b.dpid, s)]), pending[b.dpid := PendingOf(pending, b.dpid) + [s]], b);
    assert pending[b.dpid := PendingOf(pending, b.dpid) + [s]] - {b.dpid} == pending;
  }

  function DirectLedger(l: Ledger, s: Sample, b: Batch): Ledger {
    Ledger(l.taken + [(b.dpid, s)], l.batches + [b], l.log + [Flushed(b)])
  }

  lemma SentDirectly(l: Ledger, pending: map<Dpid, seq<Sample>>, agents: map<Dpid, Agent>, agents': map<Dpid, Agent>,
                     s: Sample, b: Batch, maxHeader: nat)
    requires Conserved(l, pending) && Chained(l, agents, maxHeader) && b.samples == [s] && b.dpid !in pending
    requires b.agent == AgentOf(agents, b.dpid) && agents' == Advanced(agents, b.dpid, b.samples, b.uptime, maxHeader)
    ensures Conserved(DirectLedger(l, s, b), pending) && Chained(DirectLedger(l, s, b), agents', maxHeader)
  {
    hide Conserved, Chained, Advanced, AgentOf;
    var taken, batches, log := l.taken + [(b.dpid, s)], l.batches + [b], l.log + [Flushed(b)];
    DirectConserves(l, pending, s, b);
    ConservedKeeps(l.(taken := taken, batches := batches), log, pending);
    ChainFlush(l, agents, maxHeader, b, agents');
    ChainKeeps(l.(batches := batches, log := log), taken, agents', maxHeader);
  }

  /** Buffers and their start times share keys, belong to registered switches and are never empty. */
  ghost predicate Shaped(pending: map<Dpid, seq<Sample>>, since: map<Dpid, int>, known: set<Dpid>, batchSize: nat) {
    && pending.Keys == since.Keys && pending.Keys <= known
    && forall d :: d in pending ==> 0 < |pending[d]| <= batchSize
  }

  ghost predicate AllHonest(batches: seq<Batch>, maxHeader: nat, batchSize: nat) {
    forall i :: 0 <= i < |batches| ==> Honest(batches[i], maxHeader, batchSize)
  }

  /** Every batch is honest, and the counters count exactly what the batches' fates say. */
  ghost predicate Booked(batches: seq<Batch>, maxHeader: nat, batchSize: nat, samplesSent: nat, datagramsSent: nat, sendErrors: nat) {
    && AllHonest(batches, maxHeader, batchSize)
    && samplesSent == SamplesSent(batches)
    && datagramsSent == CountFate(batches, true) && sendErrors == CountFate(batches, false)
  }

  lemma BooksGrow(batches: seq<Batch>, b: Batch, maxHeader: nat, batchSize: nat, samplesSent: nat, datagramsSent: nat, sendErrors: nat)
    requires Booked(batches, maxHeader, batchSize, samplesSent, datagramsSent, sendErrors) && Honest(b, maxHeader, batchSize)
    ensures Booked(batches + [b], maxHeader, batchSize, samplesSent + (if b.fate.Sent? then |b.samples| else 0),
                   datagramsSent + (if b.fate.Sent? then 1 else 0), sendErrors + (if b.fate.SendFailed? then 1 else 0))
  {
    hide Honest;
    LedgerGrows(batches, b);
  }

  lemma LedgerGrows(batches: seq<Batch>, b: Batch)
    ensures (batches + [b])[..|batches|] == batches
    ensures SamplesSent(batches + [b]) == SamplesSent(batches) + (if b.fate.Sent? then |b.samples| else 0)
    ensures CountFate(batches + [b], true) == CountFate(batches, true) + (if b.fate.Sent? then 1 else 0)
    ensures CountFate(batches + [b], false) == CountFate(batches, false) + (if b.fate.SendFailed? then 1 else 0)
  {
    assert (batches + [b])[..|batches|] == batches;
  }

  lemma AdvancedKeys(agents: map<Dpid, Agent>, d: Dpid, samples: seq<Sample>, uptime: int, maxHeader: nat)
    ensures Advanced(agents, d, samples, uptime, maxHeader).Keys == agents.Keys
  {
  }

  /** The other switches whose buffers are due. */
  function Aged(since: map<Dpid, int>, d: Dpid, clock: Dpid -> int, delay: int): set<Dpid> {
    set e | e in since && e != d && clock(e) - since[e] >= delay
  }

  lemma SweptMeans(pending: map<Dpid, seq<Sample>>, since: map<Dpid, int>, d: Dpid, clock: Dpid -> int, delay: int)
    requires pending.Keys == since.Keys
    ensures var aged := Aged(since, d, clock, delay); var p, t := pending - aged, since - aged;
            && (d in p <==> d in pending) && (d in p ==> p[d] == pending[d])
            && forall e :: e != d ==> (e in p <==> e in pending && clock(e) - since[e] < delay)
                                      && (e in p ==> e in t && p[e] == pending[e] && t[e] == since[e])
  {
  }

  lemma SameAged(a: map<Dpid, int>, b: map<Dpid, int>, d: Dpid, clock: Dpid -> int, delay: int)
    requires forall e :: e != d ==> (e in a <==> e in b) && (e in a ==> a[e] == b[e])
    ensures Aged(a, d, clock, delay) == Aged(b, d, clock, delay)
  {
  }

  /** Every batch made since was offered to the socket at this uptime, and met the socket's answer for its switch. */
  ghost predicate Offered(was: Ledger, now: Ledger, uptime: int, sendOk: Dpid -> bool) {
    && was.batches <= now.batches
    && forall i :: |was.batches| <= i < |now.batches| ==>
         now.batches[i].uptime == uptime && now.batches[i].socketOk == sendOk(now.batches[i].dpid)
  }

  lemma OfferedMore(was: Ledger, mid: Ledger, now: Ledger, uptime: int, sendOk: Dpid -> bool)
    requires Offered(was, mid, uptime, sendOk) && Offered(mid, now, uptime, sendOk)
    ensures Offered(was, now, uptime, sendOk)
  {
    forall i | |was.batches| <= i < |now.batches|
      ensures now.batches[i].uptime == uptime && now.batches[i].socketOk == sendOk(now.batches[i].dpid)
    {
      if i < |mid.batches| {
        assert now.batches[i] == mid.batches[i];
      }
    }
  }

  lemma OfferedOne(was: Ledger, now: Ledger, b: Batch, uptime: int, sendOk: Dpid -> bool)
    requires now.batches == was.batches + [b] && b.uptime == uptime && b.socketOk == sendOk(b.dpid)
    ensures Offered(was, now, uptime, sendOk)
  {
  }

  lemma OfferedAfter(was: Ledger, now: Ledger, b: Batch, uptime: int, sendOk: Dpid -> bool)
    requires now == was || (now.batches == was.batches + [b] && b.uptime == uptime && b.socketOk == sendOk(b.dpid))
    ensures Offered(was, now, uptime, sendOk)
  {
  }

  lemma OfferedPrefix(was: Ledger, now: Ledger, uptime: int, sendOk: Dpid -> bool)
    requires Offered(was, now, uptime, sendOk)
    ensures was.batches <= now.batches
  {
  }

  lemma OfferedNone(was: Ledger, now: Ledger, uptime: int, sendOk: Dpid -> bool)
    requires now.batches == was.batches
    ensures Offered(was, now, uptime, sendOk)
  {
  }

  /** The first new batch is this switch's whole buffer, and `ok` says whether it was sent. */
  ghost predicate IsCut(was: Ledger, now: Ledger, d: Dpid, samples: seq<Sample>, ok: bool) {
    && |was.batches| < |now.batches|
    && var b := now.batches[|was.batches|];
       b.dpid == d && b.samples == samples && ok == b.fate.Sent?
  }

  lemma CutDirectly(l: Ledger, s: Sample, b: Batch)
    requires b.samples == [s]
    ensures var l' := DirectLedger(l, s, b);
            && IsCut(l, l', b.dpid, [s], b.fate.Sent?)
            && l'.taken == l.taken + [(b.dpid, s)] && l'.batches == l.batches + [b] && l.batches <= l'.batches
  {
  }

  lemma CutStays(was: Ledger, mid: Ledger, now: Ledger, d: Dpid, samples: seq<Sample>, ok: bool)
    requires mid.batches <= now.batches
    ensures IsCut(was, mid, d, samples, ok) ==> IsCut(was, now, d, samples, ok)
  {
  }

  lemma NothingToRemove<V>(m: map<Dpid, V>, d: Dpid)
    requires d !in m.Keys
    ensures m - {d} == m
  {
  }

  lemma RemoveOneMore<V>(m: map<Dpid, V>, aged: set<Dpid>, left: set<Dpid>, e: Dpid)
    requires left <= aged && e in left
    ensures m - (aged - left) - {e} == m - (aged - (left - {e}))
  {
    assert aged - left + {e} == aged - (left - {e});
  }

  class SFlowEmitter {
    const maxHeader: nat
    const batchSize: nat
    const batchMaxDelay: int
    var pending: map<Dpid, seq<Sample>>
    var pendingSince: map<Dpid, int>
    var agents: map<Dpid, Agent>
    var flushedFull: nat
    var flushedAged: nat
    var datagramsSent: nat
    var samplesSent: nat
    var sendErrors: nat
    ghost var ledger: Ledger

    /** Holds between the steps of a call as well. */
    ghost predicate Sound()
      reads this`pending, this`pendingSince, this`agents, this`datagramsSent, this`samplesSent, this`sendErrors, this`ledger
    {
      && batchSize >= 1
      && Shaped(pending, pendingSince, agents.Keys, batchSize)
      && Conserved(ledger, pending)
      && Chained(ledger, agents, maxHeader)
      && Booked(ledger.batches, maxHeader, batchSize, samplesSent, datagramsSent, sendErrors)
    }

    /** Between calls every buffer is below the batch size. */
    ghost predicate Valid() reads this {
      Sound() && forall d :: d in pending ==> |pending[d]| < batchSize
    }

    lemma SameKeys()
      requires Sound()
      ensures pending.Keys == pendingSince.Keys
    {
    }

    lemma NothingPends()
      requires Valid() && batchSize == 1
      ensures pending == map[]
    {
    }

    lemma SoundParts()
      requires Sound()
      ensures Shaped(pending, pendingSince, agents.Keys, batchSize) && Conserved(ledger, pending)
      ensures Chained(ledger, agents, maxHeader) && Booked(ledger.batches, maxHeader, batchSize, samplesSent, datagramsSent, sendErrors)
    {
    }

    lemma SoundAgain()
      requires batchSize >= 1 && Shaped(pending, pendingSince, agents.Keys, batchSize) && Conserved(ledger, pending)
      requires Chained(ledger, agents, maxHeader) && Booked(ledger.batches, maxHeader, batchSize, samplesSent, datagramsSent, sendErrors)
      ensures Sound()
    {
    }

    constructor (maxHeader: nat, batchSize: int, batchMaxDelay: int)
      ensures Valid() && pending == map[] && agents == map[] && ledger == Ledger([], [], [])
      ensures this.maxHeader == maxHeader && this.batchSize == if batchSize < 1 then 1 else batchSize
    {
      this.maxHeader, this.batchMaxDelay := maxHeader, batchMaxDelay;
      this.batchSize := if batchSize < 1 then 1 else batchSize;
      pending, pendingSince, agents := map[], map[], map[];
      flushedFull, flushedAged, datagramsSent, samplesSent, sendErrors := 0, 0, 0, 0, 0;
      ledger := Ledger([], [], []);
    }

    method RegisterSwitch(d: Dpid, ip: Option<Ip4>)
      requires Valid()
      modifies this`agents, this`ledger
      ensures Valid() && agents == old(agents)[d := Agent(ip, 0, 0, 0, 0, 0)]
      ensures ledger == old(ledger).(log := old(ledger).log + [Registered(d, ip)])
    {
      hide Conserved, Booked, Chained;
      ConservedKeeps(ledger, ledger.log + [Registered(d, ip)], pending);
      ChainRegister(ledger, agents, maxHeader, d, ip);
      ledger := ledger.(log := ledger.log + [Registered(d, ip)]);
      agents := agents[d := Agent(ip, 0, 0, 0, 0, 0)];
    }

    /** Builds and sends one batch, counting what happened; `sendOk` is the socket's answer. */
    method Ship(d: Dpid, samples: seq<Sample>, uptime: int, sendOk: bool) returns (ok: bool, ghost batch: Batch)
      requires 0 < |samples| <= batchSize
      modifies this`agents, this`datagramsSent, this`samplesSent, this`sendErrors
      ensures agents == Advanced(old(agents), d, samples, uptime, maxHeader)
      ensures batch.agent == AgentOf(old(agents), d) && batch.uptime == uptime && batch.socketOk == sendOk
      ensures batch.dpid == d && batch.samples == samples && Honest(batch, maxHeader, batchSize)
      ensures ok == batch.fate.Sent?
      ensures samplesSent == old(samplesSent) + (if ok then |samples| else 0)
      ensures datagramsSent == old(datagramsSent) + (if ok then 1 else 0)
      ensures sendErrors == old(sendErrors) + (if batch.fate.SendFailed? then 1 else 0)
    {
      if d !in agents {
        return false, Batch(d, samples, None, uptime, sendOk, NoAgent);
      }
      var agent := agents[d];
      var (agent', datagram) := Datagram(agent, samples, uptime, maxHeader);
      agents := agents[d := agent'];
      if datagram.None? {
        return false, Batch(d, samples, Some(agent), uptime, sendOk, BuildFailed);
      }
      if !sendOk {
        sendErrors := sendErrors + 1;
        return false, Batch(d, samples, Some(agent), uptime, sendOk, SendFailed);
      }
      datagramsSent := datagramsSent + 1;
      samplesSent := samplesSent + |samples|;
      return true, Batch(d, samples, Some(agent), uptime, sendOk, Sent(datagram.value));
    }

    /** Empties one buffer either way; `b` is the batch it became, if there was one. */
    method FlushOne(d: Dpid, uptime: int, sendOk: bool) returns (ok: bool, ghost b: Batch)
      requires Sound()
      modifies this`pending, this`pendingSince, this`agents, this`datagramsSent, this`samplesSent, this`sendErrors, this`ledger
      ensures Sound() && agents.Keys == old(agents).Keys
      ensures pending == old(pending) - {d} && pendingSince == old(pendingSince) - {d}
      ensures d !in old(pending) ==> ok && ledger == old(ledger)
      ensures d in old(pending) ==>
                && ledger == old(ledger).(batches := old(ledger).batches + [b], log := old(ledger).log + [Flushed(b)])
                && b.dpid == d && b.samples == old(pending)[d] && ok == b.fate.Sent?
                && b.uptime == uptime && b.socketOk == sendOk && b.agent == AgentOf(old(agents), d)
                && agents == Advanced(old(agents), d, b.samples, uptime, maxHeader)
    {
      hide Honest, Conserved, Booked, Chained, Advanced;
      if d !in pending {
        NothingToRemove(pending, d);
        NothingToRemove(pendingSince, d);
        return true, Batch(d, [], None, uptime, sendOk, NoAgent);
      }
      var samples := pending[d];
      ok, b := Ship(d, samples, uptime, sendOk);
      AdvancedKeys(old(agents), d, samples, uptime, maxHeader);
      FlushConserves(ledger, pending, b);
      ConservedKeeps(ledger.(batches := ledger.batches + [b]), ledger.log + [Flushed(b)], pending - {d});
      ChainFlush(ledger, old(agents), maxHeader, b, agents);
      BooksGrow(ledger.batches, b, maxHeader, batchSize, old(samplesSent), old(datagramsSent), old(sendErrors));
      pending := pending - {d};
      pendingSince := pendingSince - {d};
      ledger := ledger.(batches := ledger.batches + [b], log := ledger.log + [Flushed(b)]);
    }

    /**
     Accepts one sample. `now` is the clock when it is buffered, `clock` and `sendOk` what the clock and
     the socket say per switch during the sweep.
     */
    method Emit(d: Dpid, sample: Sample, uptime: int, now: int, clock: Dpid -> int, sendOk: Dpid -> bool) returns (ok: bool)
      requires Valid()
      modifies this
      ensures Valid() && agents.Keys == old(agents).Keys && Offered(old(ledger), ledger, uptime, sendOk)
      ensures d !in old(agents) ==> !ok && ledger == old(ledger) && pending == old(pending)
      ensures d in old(agents) ==> ledger.taken == old(ledger).taken + [(d, sample)]
      // the buffer is cut exactly when it reaches the batch size, and the answer is about that batch
      ensures d in old(agents) ==> (d in pending <==> |PendingOf(old(pending), d)| + 1 < batchSize)
      ensures d in old(agents) && d in pending ==> ok && pending[d] == PendingOf(old(pending), d) + [sample]
      ensures d in old(agents) && d !in pending ==> IsCut(old(ledger), ledger, d, PendingOf(old(pending), d) + [sample], ok)
      // no other switch keeps samples past the delay, and younger buffers are left alone
      ensures d in old(agents) && batchSize > 1 ==>
                forall e :: e != d ==>
                  (e in pending <==> e in old(pending) && clock(e) - old(pendingSince)[e] < batchMaxDelay)
                  && (e in pending ==> pending[e] == old(pending)[e] && pendingSince[e] == old(pendingSince)[e])
      // the two flush counters
      ensures flushedFull == old(flushedFull) +
                (if d in old(agents) && batchSize > 1 && |PendingOf(old(pending), d)| + 1 == batchSize then 1 else 0)
      ensures flushedAged == old(flushedAged) +
                (if d in old(agents) && batchSize > 1 then |Aged(old(pendingSince), d, clock, batchMaxDelay)| else 0)
    {
      ghost var was := ledger;
      OfferedNone(was, was, uptime, sendOk);
      if d !in agents {
        return false;
      }
      hide Offered, IsCut;
      if batchSize > 1 {
        ok := Buffer(d, sample, uptime, now, sendOk);
        ghost var mid := ledger;
        SameAged(old(pendingSince), pendingSince, d, clock, batchMaxDelay);
        Sweep(d, uptime, clock, sendOk);
        OfferedMore(was, mid, ledger, uptime, sendOk);
        OfferedPrefix(mid, ledger, uptime, sendOk);
        CutStays(was, mid, ledger, d, PendingOf(old(pending), d) + [sample], ok);
      } else {
        ok := Direct(d, sample, uptime, sendOk);
      }
    }

    /** Appends to the switch's buffer and cuts it when it is full. */
    method Buffer(d: Dpid, sample: Sample, uptime: int, now: int, sendOk: Dpid -> bool) returns (ok: bool)
      requires Valid() && batchSize > 1 && d in agents
      modifies this
      ensures Valid() && agents.Keys == old(agents).Keys
      ensures ledger.taken == old(ledger).taken + [(d, sample)] && Offered(old(ledger), ledger, uptime, sendOk)
      ensures d in pending <==> |PendingOf(old(pending), d)| + 1 < batchSize
      ensures d in pending ==> ok && pending[d] == PendingOf(old(pending), d) + [sample]
      ensures d !in pending ==> IsCut(old(ledger), ledger, d, PendingOf(old(pending), d) + [sample], ok)
      ensures forall e :: e != d ==>
                (e in pending <==> e in old(pending)) && (e in pendingSince <==> e in old(pendingSince))
                && (e in pending ==> pending[e] == old(pending)[e] && pendingSince[e] == old(pendingSince)[e])
      ensures flushedAged == old(flushedAged)
      ensures flushedFull == old(flushedFull) + (if |PendingOf(old(pending), d)| + 1 == batchSize then 1 else 0)
    {
      hide Sound, Offered, AgentOf, Advanced;
      ghost var was := ledger;
      SameKeys();
      Accept(d, sample, now);
      OfferedNone(was, ledger, uptime, sendOk);
      SameKeys();
      ok := true;
      if |pending[d]| >= batchSize {
        flushedFull := flushedFull + 1;
        ghost var b;
        ok, b := FlushOne(d, uptime, sendOk(d));
        OfferedOne(was, ledger, b, uptime, sendOk);
      }
    }

    /** The sample joins its switch's buffer, which starts its clock if it was empty. */
    method Accept(d: Dpid, sample: Sample, now: int)
      requires Valid() && batchSize > 1 && d in agents
      modifies this`pending, this`pendingSince, this`ledger
      ensures Sound() && pending == old(pending)[d := PendingOf(old(pending), d) + [sample]]
      ensures pendingSince == if d in old(pendingSince) then old(pendingSince) else old(pendingSince)[d := now]
      ensures ledger == old(ledger).(taken := old(ledger).taken + [(d, sample)])
    {
      hide Booked, Conserved, Chained;
      TakeConserves(ledger, pending, d, sample);
      ChainKeeps(ledger, ledger.taken + [(d, sample)], agents, maxHeader);
      pending := pending[d := PendingOf(pending, d) + [sample]];
      if d !in pendingSince {
        pendingSince := pendingSince[d := now];
      }
      ledger := ledger.(taken := ledger.taken + [(d, sample)]);
    }

    /** Flushes every other switch whose buffer has aged. */
    method Sweep(d: Dpid, uptime: int, clock: Dpid -> int, sendOk: Dpid -> bool)
      requires Valid()
      modifies this
      ensures Valid() && agents.Keys == old(agents).Keys
      ensures ledger.taken == old(ledger).taken && Offered(old(ledger), ledger, uptime, sendOk)
      ensures d in pending <==> d in old(pending)
      ensures d in pending ==> pending[d] == old(pending)[d]
      ensures forall e :: e != d ==>
                (e in pending <==> e in old(pending) && clock(e) - old(pendingSince)[e] < batchMaxDelay)
                && (e in pending ==> pending[e] == old(pending)[e] && pendingSince[e] == old(pendingSince)[e])
      ensures flushedFull == old(flushedFull)
      ensures flushedAged == old(flushedAged) + |Aged(old(pendingSince), d, clock, batchMaxDelay)|
    {
      SameKeys();
      SweptMeans(pending, pendingSince, d, clock, batchMaxDelay);
      hide Sound, Aged;
      FlushAged(Aged(pendingSince, d, clock, batchMaxDelay), uptime, sendOk);
    }

    /** The sweep's loop, in whatever order the dict lists the switches. */
    method FlushAged(aged: set<Dpid>, uptime: int, sendOk: Dpid -> bool)
      requires Sound()
      modifies this
      ensures Sound() && agents.Keys == old(agents).Keys
      ensures ledger.taken == old(ledger).taken && Offered(old(ledger), ledger, uptime, sendOk)
      ensures pending == old(pending) - aged && pendingSince == old(pendingSince) - aged
      ensures flushedFull == old(flushedFull) && flushedAged == old(flushedAged) + |aged|
    {
      OfferedNone(ledger, ledger, uptime, sendOk);
      hide Sound, AgentOf, Advanced, Offered;
      var left := aged;
      assert aged - left == {};
      while left != {}
        invariant Sound() && agents.Keys == old(agents).Keys && left <= aged
        invariant ledger.taken == old(ledger).taken && Offered(old(ledger), ledger, uptime, sendOk)
        invariant pending == old(pending) - (aged - left) && pendingSince == old(pendingSince) - (aged - left)
        invariant flushedFull == old(flushedFull) && flushedAged + |left| == old(flushedAged) + |aged|
        decreases |left|
      {
        var e :| e in left;
        flushedAged := flushedAged + 1;
        ghost var mid := ledger;
        var ignored;
        ghost var batch;
        ignored, batch := FlushOne(e, uptime, sendOk(e));
        OfferedAfter(mid, ledger, batch, uptime, sendOk);
        OfferedMore(old(ledger), mid, ledger, uptime, sendOk);
        RemoveOneMore(old(pending), aged, left, e);
        RemoveOneMore(old(pendingSince), aged, left, e);
        left := left - {e};
      }
      assert aged - left == aged;
    }

    /** With a batch size of one the sample goes out on its own. */
    method Direct(d: Dpid, sample: Sample, uptime: int, sendOk: Dpid -> bool) returns (ok: bool)
      requires Valid() && batchSize == 1 && d in agents
      modifies this`agents, this`datagramsSent, this`samplesSent, this`sendErrors, this`ledger
      ensures Valid() && agents.Keys == old(agents).Keys && pending == map[]
      ensures ledger.taken == old(ledger).taken + [(d, sample)] && Offered(old(ledger), ledger, uptime, sendOk)
      ensures IsCut(old(ledger), ledger, d, [sample], ok)
    {
      NothingPends();
      hide Honest, Conserved, Booked, Chained, Advanced, AgentOf, Shaped, DirectLedger, IsCut, Offered, Sound;
      SoundParts();
      ghost var was := ledger;
      ghost var b: Batch;
      ok, b := Ship(d, [sample], uptime, sendOk(d));
      CutDirectly(ledger, sample, b);
      SentDirectly(ledger, pending, old(agents), agents, sample, b, maxHeader);
      BooksGrow(ledger.batches, b, maxHeader, batchSize, old(samplesSent), old(datagramsSent), old(sendErrors));
      AdvancedKeys(old(agents), d, [sample], uptime, maxHeader);
      ledger := DirectLedger(ledger, sample, b);
      OfferedOne(was, ledger, b, uptime, sendOk);
      SoundAgain();
    }

    /** Sends everything that is buffered. */
    method Flush(uptime: int, sendOk: Dpid -> bool)
      requires Valid()
      modifies this
      ensures Valid() && pending == map[] && agents.Keys == old(agents).Keys && ledger.taken == old(ledger).taken
      ensures Offered(old(ledger), ledger, uptime, sendOk)
      ensures forall d :: TakenOf(ledger.taken, d) == FlushedOf(ledger.batches, d)
    {
      OfferedNone(ledger, ledger, uptime, sendOk);
      hide Offered;
      var left := pending.Keys;
      while left != {}
        invariant Sound() && agents.Keys == old(agents).Keys && ledger.taken == old(ledger).taken
        invariant pending.Keys == left && Offered(old(ledger), ledger, uptime, sendOk)
        decreases |left|
      {
        hide Sound, AgentOf, Advanced;
        var d :| d in left;
        ghost var mid := ledger;
        var ignored;
        ghost var batch;
        ignored, batch := FlushOne(d, uptime, sendOk(d));
        OfferedAfter(mid, ledger, batch, uptime, sendOk);
        OfferedMore(old(ledger), mid, ledger, uptime, sendOk);
        left := left - {d};
      }
      forall d ensures TakenOf(ledger.taken, d) == FlushedOf(ledger.batches, d) {
        assert PendingOf(pending, d) == [];
      }
    }
  }

  // ---- whose address, and which numbers ------------------------------------------------------

  /** The address the switch was last registered under. */
  function LastAddress(log: seq<Entry>, d: Dpid): Option<Option<Ip4>> {
    if log == [] then None else
      var e := log[|log| - 1];
      if e.Registered? && e.dpid == d then Some(e.ip) else LastAddress(log[..|log| - 1], d)
  }

  /** Identity, as far as counting samples goes. */
  predicate SameSwitch(a: Agent, b: Agent) { a.ip == b.ip && a.subAgent == b.subAgent && a.dropped == b.dropped }

  lemma {:induction false} SamplesKeepIdentity(a: Agent, samples: seq<Sample>, maxHeader: nat)
    ensures SameSwitch(FlowSamples(a, samples, maxHeader).0, a)
    decreases |samples|
  {
    if samples != [] {
      SamplesKeepIdentity(a, samples[..|samples| - 1], maxHeader);
    }
  }

  lemma DatagramKeepsIdentity(a: Agent, samples: seq<Sample>, uptime: int, maxHeader: nat)
    ensures SameSwitch(Datagram(a, samples, uptime, maxHeader).0, a)
  {
    hide FlowSamples;
    SamplesKeepIdentity(a.(datagramSequence := NextSequence(a.datagramSequence)), samples, maxHeader);
  }

  /** Whatever was sent since, a switch's agent carries the address it was last registered under. */
  lemma {:induction false} AgentHasLastAddress(log: seq<Entry>, d: Dpid, maxHeader: nat)
    ensures AgentAfter(log, d, maxHeader).Some? <==> LastAddress(log, d).Some?
    ensures AgentAfter(log, d, maxHeader).Some? ==>
              var a := AgentAfter(log, d, maxHeader).value;
              Some(a.ip) == LastAddress(log, d) && a.subAgent == 0 && a.dropped == 0
    decreases |log|
  {
    hide Datagram;
    if log != [] {
      var before := log[..|log| - 1];
      AgentHasLastAddress(before, d, maxHeader);
      var e, a := log[|log| - 1], AgentAfter(before, d, maxHeader);
      if e.Flushed? && a.Some? {
        DatagramKeepsIdentity(a.value, e.batch.samples, e.batch.uptime, maxHeader);
      }
    }
  }

  predicate About(e: Entry, d: Dpid) {
    match e
    case Registered(x, _) => x == d
    case Flushed(b) => b.dpid == d
  }

  /** Other switches' batches and registrations leave an agent alone. */
  lemma {:induction false} AgentUntouched(log: seq<Entry>, i: nat, j: nat, d: Dpid, maxHeader: nat)
    requires i <= j <= |log| && forall k :: i <= k < j ==> !About(log[k], d)
    ensures AgentAfter(log[..j], d, maxHeader) == AgentAfter(log[..i], d, maxHeader)
    decreases j - i
  {
    if i < j {
      AgentUntouched(log, i, j - 1, d, maxHeader);
      assert log[..j][..j - 1] == log[..j - 1];
      assert !About(log[j - 1], d);
    }
  }

  // ---- what is on the wire -------------------------------------------------------------------

  /**
   A sent batch, read back by a collector, is exactly its own switch's samples in order, under the
   address that switch was registered with at that moment.
   */
  lemma SentBatchReadsBack(l: Ledger, agents: map<Dpid, Agent>, maxHeader: nat, batchSize: nat, i: nat)
    requires Chained(l, agents, maxHeader) && AllHonest(l.batches, maxHeader, batchSize)
    requires i < |l.log| && l.log[i].Flushed? && l.log[i].batch.fate.Sent?
    ensures var b := l.log[i].batch;
            && Decode(b.fate.datagram).Some?
            && var p := Decode(b.fate.datagram).value;
               && LastAddress(l.log[..i], b.dpid) == Some(Some(p.ip))
               && |p.samples| == |b.samples|
               && forall k :: 0 <= k < |b.samples| ==>
                    p.samples[k].frameLength == b.samples[k].frameLength
                    && p.samples[k].frame == b.samples[k].frame[..Smaller(|b.samples[k].frame|, maxHeader)]
  {
    hide Datagram, Decode, Captured, AgentAfter;
    var b := l.log[i].batch;
    AgentHasLastAddress(l.log[..i], b.dpid, maxHeader);
    LoggedIsHonest(l.log, i, maxHeader, batchSize);
    SentReadsBack(b, maxHeader, batchSize);
  }

  lemma {:induction false} LoggedIsHonest(log: seq<Entry>, i: nat, maxHeader: nat, batchSize: nat)
    requires i < |log| && log[i].Flushed? && AllHonest(BatchesIn(log), maxHeader, batchSize)
    ensures Honest(log[i].batch, maxHeader, batchSize)
    decreases |log|
  {
    hide Honest;
    var n := |log| - 1;
    var before := BatchesIn(log[..n]);
    assert forall k :: 0 <= k < |before| ==> BatchesIn(log)[k] == before[k];
    if i < n {
      LoggedIsHonest(log[..n], i, maxHeader, batchSize);
    } else {
      assert BatchesIn(log)[|before|] == log[i].batch;
    }
  }

  lemma SentReadsBack(b: Batch, maxHeader: nat, batchSize: nat)
    requires Honest(b, maxHeader, batchSize) && b.fate.Sent?
    ensures Decode(b.fate.datagram).Some?
    ensures var p := Decode(b.fate.datagram).value;
            && b.agent.Some? && b.agent.value.ip == Some(p.ip)
            && |p.samples| == |b.samples|
            && forall k :: 0 <= k < |b.samples| ==>
                 p.samples[k].frameLength == b.samples[k].frameLength
                 && p.samples[k].frame == b.samples[k].frame[..Smaller(|b.samples[k].frame|, maxHeader)]
  {
    hide Datagram, Decode, Captured;
    DatagramRoundTrip(b.agent.value, b.samples, b.uptime, maxHeader);
    var p := Decode(b.fate.datagram).value;
    var a1 := b.agent.value.(datagramSequence := p.sequence);
    assert forall k :: 0 <= k < |b.samples| ==> Describes(p.samples[k], CountedAll(a1, b.samples, k + 1), b.samples[k], maxHeader);
  }

  /**
   A batch's samples are on the wire if and only if its switch was registered with an address, the uptime and
   the number of samples fit, every one of its samples can be encoded, and the socket took it: one
   sample that cannot be encoded costs the whole batch.
   */
  lemma OnTheWireIff(l: Ledger, agents: map<Dpid, Agent>, maxHeader: nat, batchSize: nat, i: nat)
    requires Chained(l, agents, maxHeader) && AllHonest(l.batches, maxHeader, batchSize)
    requires i < |l.log| && l.log[i].Flushed?
    ensures var b := l.log[i].batch; var address := LastAddress(l.log[..i], b.dpid);
            b.fate.Sent? <==>
              && address.Some? && address.value.Some?
              && 0 <= b.uptime < WORD_LIMIT && |b.samples| < WORD_LIMIT
              && (forall k :: 0 <= k < |b.samples| ==> Encodable(b.samples[k], maxHeader))
              && b.socketOk
  {
    hide Datagram, AgentAfter, Encodable;
    var b := l.log[i].batch;
    AgentHasLastAddress(l.log[..i], b.dpid, maxHeader);
    LoggedIsHonest(l.log, i, maxHeader, batchSize);
    if b.agent.Some? {
      DatagramBuiltIff(b.agent.value, b.samples, b.uptime, maxHeader);
    }
  }

  /** The numbers at both ends of a sent batch, in terms of the agent before and after it. */
  lemma BatchNumbers(b: Batch, maxHeader: nat, batchSize: nat)
    requires Honest(b, maxHeader, batchSize) && b.fate.Sent?
    ensures b.agent.Some? && Decode(b.fate.datagram).Some?
    ensures var a, p := b.agent.value, Decode(b.fate.datagram).value;
            var a' := Datagram(a, b.samples, b.uptime, maxHeader).0;
            var last := |b.samples| - 1;
            && |p.samples| == |b.samples|
            && p.sequence == NextSequence(a.datagramSequence) == a'.datagramSequence
            && p.samples[0].sequence == NextSequence(a.sampleSequence)
            && p.samples[0].pool == (a.pool + b.samples[0].rate) % WORD_LIMIT
            && p.samples[last].sequence == a'.sampleSequence && p.samples[last].pool == a'.pool
  {
    hide Datagram, Decode, Captured;
    DatagramRoundTrip(b.agent.value, b.samples, b.uptime, maxHeader);
    var p := Decode(b.fate.datagram).value;
    var a1 := b.agent.value.(datagramSequence := p.sequence);
    var last := |b.samples| - 1;
    assert Describes(p.samples[0], CountedAll(a1, b.samples, 1), b.samples[0], maxHeader);
    assert Describes(p.samples[last], CountedAll(a1, b.samples, last + 1), b.samples[last], maxHeader);
    assert CountedAll(a1, b.samples, 1) == Counted(CountedAll(a1, b.samples, 0), b.samples[0].rate);
  }

  /** The second datagram takes up the numbers where the first left them. */
  ghost predicate Continues(b: Batch, c: Batch) {
    && b.fate.Sent? && c.fate.Sent? && Decode(b.fate.datagram).Some? && Decode(c.fate.datagram).Some?
    && TakesUp(Decode(b.fate.datagram).value, Decode(c.fate.datagram).value, c.samples)
  }

  /** Datagrams are counted by one, samples by one, the pool by the rate of the next sample. */
  ghost predicate TakesUp(p: Packet, q: Packet, samples: seq<Sample>) {
    && 0 < |p.samples| && |q.samples| == |samples| > 0 && 0 <= p.sequence < WORD_LIMIT
    && var last := p.samples[|p.samples| - 1];
       && 0 <= last.sequence < WORD_LIMIT
       && q.sequence == NextSequence(p.sequence)
       && q.samples[0].sequence == NextSequence(last.sequence)
       && q.samples[0].pool == (last.pool + samples[0].rate) % WORD_LIMIT
  }

  lemma PairContinues(b: Batch, c: Batch, maxHeader: nat, batchSize: nat)
    requires Honest(b, maxHeader, batchSize) && Honest(c, maxHeader, batchSize) && b.fate.Sent? && c.fate.Sent?
    requires b.agent.Some? ==> c.agent == Some(Datagram(b.agent.value, b.samples, b.uptime, maxHeader).0)
    ensures Continues(b, c)
  {
    hide Datagram, Decode, NextSequence;
    BatchNumbers(b, maxHeader, batchSize);
    BatchNumbers(c, maxHeader, batchSize);
  }

  /**
   Two batches of one switch, sent with nothing of that switch in between, continue each other's
   numbers, whatever other switches did.
   */
  lemma NumbersContinue(l: Ledger, agents: map<Dpid, Agent>, maxHeader: nat, batchSize: nat, i: nat, j: nat)
    requires Chained(l, agents, maxHeader) && AllHonest(l.batches, maxHeader, batchSize)
    requires i < j < |l.log| && l.log[i].Flushed? && l.log[j].Flushed?
    requires l.log[i].batch.dpid == l.log[j].batch.dpid && l.log[i].batch.fate.Sent? && l.log[j].batch.fate.Sent?
    requires forall k :: i < k < j ==> !About(l.log[k], l.log[i].batch.dpid)
    ensures Continues(l.log[i].batch, l.log[j].batch)
  {
    hide Honest, AgentAfter, Continues;
    AgentUntouched(l.log, i + 1, j, l.log[i].batch.dpid, maxHeader);
    AgentAfterBatch(l.log, i, maxHeader);
    LoggedIsHonest(l.log, i, maxHeader, batchSize);
    LoggedIsHonest(l.log, j, maxHeader, batchSize);
    PairContinues(l.log[i].batch, l.log[j].batch, maxHeader, batchSize);
  }

  lemma AgentAfterBatch(log: seq<Entry>, i: nat, maxHeader: nat)
    requires i < |log| && log[i].Flushed?
    ensures var b := log[i].batch; var before := AgentAfter(log[..i], b.dpid, maxHeader);
            before.Some? ==>
              AgentAfter(log[..i + 1], b.dpid, maxHeader) == Some(Datagram(before.value, b.samples, b.uptime, maxHeader).0)
  {
    hide Datagram;
    assert log[..i + 1][..i] == log[..i];
  }

  /** How many samples a collector finds in what a batch put on the wire. */
  ghost function Found(b: Batch): nat {
    if b.fate.Sent? && Decode(b.fate.datagram).Some? then |Decode(b.fate.datagram).value.samples| else 0
  }

  ghost function SamplesOnWire(batches: seq<Batch>): nat {
    if batches == [] then 0 else SamplesOnWire(batches[..|batches| - 1]) + Found(batches[|batches| - 1])
  }

  lemma SentIsFound(b: Batch, maxHeader: nat, batchSize: nat)
    requires Honest(b, maxHeader, batchSize)
    ensures Found(b) == if b.fate.Sent? then |b.samples| else 0
  {
    hide Honest, Decode;
    if b.fate.Sent? {
      SentReadsBack(b, maxHeader, batchSize);
    }
  }

  /** The emitter's counter is exactly the number of samples on the wire. */
  lemma {:induction false} SamplesSentIsWhatArrives(batches: seq<Batch>, maxHeader: nat, batchSize: nat)
    requires AllHonest(batches, maxHeader, batchSize)
    ensures SamplesSent(batches) == SamplesOnWire(batches)
  {
    if batches != [] {
      hide Honest, Found;
      var n := |batches| - 1;
      assert forall i :: 0 <= i < n ==> batches[..n][i] == batches[i];
      SamplesSentIsWhatArrives(batches[..n], maxHeader, batchSize);
      SentIsFound(batches[n], maxHeader, batchSize);
    }
  }
}
