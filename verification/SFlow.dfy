/**
 sFlow version 5 flow samples and datagrams, and a reader that follows the format's own length
 fields (section 5 of the sFlow Version 5 specification; padding as in section 4.10 of RFC 4506).
 */
module SFlow {
  import opened Common
  import opened Bytes

  const WORD_LIMIT := 0x1_0000_0000
  const SAMPLE_TYPE_FLOW := 1
  const RECORD_FORMAT_RAW_HEADER := 1
  const RECORD_FORMAT_EXTENDED_SWITCH := 1001

  type Word = w: int | 0 <= w < 0x1_0000_0000

  // ---- big-endian words --------------------------------------------------------------------

  predicate Fits(ws: seq<int>) {
    forall i :: 0 <= i < |ws| ==> 0 <= ws[i] < WORD_LIMIT
  }

  lemma WordRange()
    ensures Pow256(4) == WORD_LIMIT
  {
    assert Pow256(1) == 256 && Pow256(2) == 65536 && Pow256(3) == 16777216;
  }

  function WordBytes(w: Word): (b: seq<Byte>)
    ensures |b| == 4 && Value(b) == w
  {
    WordRange();
    ToBytes(w, 4)
  }

  function Pack(ws: seq<int>): (b: seq<Byte>)
    requires Fits(ws)
    ensures |b| == 4 * |ws|
  {
    if ws == [] then [] else WordBytes(ws[0]) + Pack(ws[1..])
  }

  /** Packing as the library does it: an out-of-range value is an error. */
  function Packed(ws: seq<int>): Option<seq<Byte>> {
    if Fits(ws) then Some(Pack(ws)) else None
  }

  function WordAt(b: seq<Byte>, i: nat): nat
    requires 4 * i + 4 <= |b|
  {
    Value(b[4 * i..4 * i + 4])
  }

  lemma FitsPair(a: int, b: int)
    ensures Fits([a, b]) <==> 0 <= a < WORD_LIMIT && 0 <= b < WORD_LIMIT
  {
    if Fits([a, b]) {
      assert [a, b][0] == a && [a, b][1] == b;
    }
  }

  lemma {:induction false} PackConcat(a: seq<int>, b: seq<int>)
    requires Fits(a) && Fits(b)
    ensures Fits(a + b) && Pack(a + b) == Pack(a) + Pack(b)
  {
    if a == [] {
      assert a + b == b;
    } else {
      PackConcat(a[1..], b);
      assert (a + b)[1..] == a[1..] + b && (a + b)[0] == a[0];
    }
  }

  lemma DropFront(a: seq<Byte>, b: seq<Byte>, tail: seq<Byte>)
    ensures (a + b + tail)[|a|..] == b + tail
  {
  }

  lemma PackDrop(ws: seq<int>, tail: seq<Byte>, k: nat)
    requires Fits(ws) && k <= |ws|
    ensures Fits(ws[k..]) && (Pack(ws) + tail)[4 * k..] == Pack(ws[k..]) + tail
  {
    hide Pack;
    assert Fits(ws[..k]) && Fits(ws[k..]);
    hide Fits;
    PackConcat(ws[..k], ws[k..]);
    assert ws == ws[..k] + ws[k..];
    DropFront(Pack(ws[..k]), Pack(ws[k..]), tail);
  }

  lemma FirstWord(ws: seq<int>, tail: seq<Byte>)
    requires Fits(ws) && ws != []
    ensures (Pack(ws) + tail)[..4] == WordBytes(ws[0])
  {
    hide WordBytes;
  }

  lemma WordAtPack(ws: seq<int>, tail: seq<Byte>, i: nat)
    requires Fits(ws) && i < |ws|
    ensures WordAt(Pack(ws) + tail, i) == ws[i]
  {
    hide Pack, Value, WordBytes;
    PackDrop(ws, tail, i);
    FirstWord(ws[i..], tail);
    var b := Pack(ws) + tail;
    assert b[4 * i..4 * i + 4] == b[4 * i..][..4];
  }

  lemma WordsAtPack(ws: seq<int>, tail: seq<Byte>)
    requires Fits(ws)
    ensures forall i :: 0 <= i < |ws| ==> WordAt(Pack(ws) + tail, i) == ws[i]
  {
    forall i | 0 <= i < |ws| ensures WordAt(Pack(ws) + tail, i) == ws[i] {
      WordAtPack(ws, tail, i);
    }
  }

  // ---- samples and agents ------------------------------------------------------------------

  datatype Sample = Sample(ingress: int, egress: int, frameLength: int, rate: int, frame: seq<Byte>)

  /** An agent's identity and counters; `ip` is absent when the configured text is no address. */
  datatype Agent = Agent(
    ip: Option<Ip4>, subAgent: int, datagramSequence: Word, sampleSequence: Word, pool: Word, dropped: int)

  function Smaller(x: nat, y: nat): (n: nat)
    ensures n <= x && n <= y && (n == x || n == y)
  {
    if x <= y then x else y
  }

  /** The front of the frame, as much of it as the header limit lets through. */
  function Captured(frame: seq<Byte>, maxHeader: nat): (r: seq<Byte>)
    ensures r <= frame && |r| == Smaller(|frame|, maxHeader)
  {
    if |frame| <= maxHeader then frame else frame[..maxHeader]
  }

  function PadLength(n: nat): (p: nat)
    ensures p < 4 && (n + p) % 4 == 0
  {
    if n % 4 == 0 then 0 else 4 - n % 4
  }

  function PadToWord(data: seq<Byte>): (r: seq<Byte>)
    ensures |r| == |data| + PadLength(|data|) && data <= r
    ensures forall k :: |data| <= k < |r| ==> r[k] == 0
  {
    data + seq(PadLength(|data|), _ => 0)
  }

  function NextSequence(n: Word): Word { (n + 1) % WORD_LIMIT }

  /** The agent after one sample of the given rate was counted. */
  function Counted(a: Agent, rate: int): Agent {
    a.(sampleSequence := NextSequence(a.sampleSequence), pool := (a.pool + rate) % WORD_LIMIT)
  }

  /** The eight fixed fields of a flow sample; two records follow. */
  function SampleFields(a': Agent, s: Sample): seq<int> {
    [a'.sampleSequence, 0x200_0000 + s.ingress % 0x100_0000, s.rate, a'.pool, a'.dropped, s.ingress, s.egress, 2]
  }

  /** One flow sample; absent when some field does not fit. The agent advances as far as the build got. */
  function FlowSample(a: Agent, s: Sample, maxHeader: nat): (Agent, Option<seq<Byte>>) {
    var frame := Captured(s.frame, maxHeader);
    var record0 := Pack([RECORD_FORMAT_EXTENDED_SWITCH, 16]) + Pack([0, 0, 0, 0]);
    var rawFields := Packed([1, s.frameLength, 0, |frame|]);
    if rawFields.None? then (a, None) else
      var rawBody := rawFields.value + PadToWord(frame);
      var rawHead := Packed([RECORD_FORMAT_RAW_HEADER, |rawBody|]);
      if rawHead.None? then (a, None) else
        var a' := Counted(a, s.rate);
        var fields := Packed(SampleFields(a', s));
        if fields.None? then (a', None) else
          var body := fields.value + record0 + (rawHead.value + rawBody);
          var head := Packed([SAMPLE_TYPE_FLOW, |body|]);
          if head.None? then (a', None) else (a', Some(head.value + body))
  }

  /** The samples of one datagram in order, stopping at the first that does not fit. */
  function FlowSamples(a: Agent, samples: seq<Sample>, maxHeader: nat): (Agent, Option<seq<Byte>>)
    decreases |samples|
  {
    if samples == [] then (a, Some([])) else
      var (a1, before) := FlowSamples(a, samples[..|samples| - 1], maxHeader);
      if before.None? then (a1, None) else
        var (a2, last) := FlowSample(a1, samples[|samples| - 1], maxHeader);
        if last.None? then (a2, None) else (a2, Some(before.value + last.value))
  }

  function Datagram(a: Agent, samples: seq<Sample>, uptime: int, maxHeader: nat): (Agent, Option<seq<Byte>>) {
    if samples == [] || a.ip.None? then (a, None) else
      var a' := a.(datagramSequence := NextSequence(a.datagramSequence));
      var head := Packed([a'.subAgent, a'.datagramSequence, uptime]);
      var count := Packed([|samples|]);
      if head.None? || count.None? then (a', None) else
        var (a'', payload) := FlowSamples(a', samples, maxHeader);
        if payload.None? then (a'', None) else
          (a'', Some(Pack([5, 1]) + a.ip.value + head.value + count.value + payload.value))
  }

  // ---- the same, updating an agent in place ------------------------------------------------

  class SwitchAgent {
    const ip: Option<Ip4>
    const subAgent: int
    var datagramSequence: Word
    var sampleSequence: Word
    var pool: Word
    var dropped: int

    ghost function Now(): Agent reads this {
      Agent(ip, subAgent, datagramSequence, sampleSequence, pool, dropped)
    }

    constructor (ip: Option<Ip4>)
      ensures Now() == Agent(ip, 0, 0, 0, 0, 0)
    {
      this.ip, subAgent, datagramSequence, sampleSequence, pool, dropped := ip, 0, 0, 0, 0, 0;
    }

    method NextDatagramSequence() returns (n: Word)
      modifies this
      ensures Now() == old(Now()).(datagramSequence := n) && n == NextSequence(old(datagramSequence))
    {
      datagramSequence := (datagramSequence + 1) % WORD_LIMIT;
      n := datagramSequence;
    }

    method NextSampleSequence() returns (n: Word)
      modifies this
      ensures Now() == old(Now()).(sampleSequence := n) && n == NextSequence(old(sampleSequence))
    {
      sampleSequence := (sampleSequence + 1) % WORD_LIMIT;
      n := sampleSequence;
    }

    method AdvancePool(rate: int) returns (n: Word)
      modifies this
      ensures Now() == old(Now()).(pool := n) && n == (old(pool) + rate) % WORD_LIMIT
    {
      pool := (pool + rate) % WORD_LIMIT;
      n := pool;
    }
  }

  method BuildFlowSample(sample: Sample, agent: SwitchAgent, maxHeader: nat) returns (r: Option<seq<Byte>>)
    modifies agent
    ensures (agent.Now(), r) == FlowSample(old(agent.Now()), sample, maxHeader)
  {
    hide Pack;
    var frame := Captured(sample.frame, maxHeader);
    var padded := PadToWord(frame);
    var extendedSwitch := Pack([0, 0, 0, 0]);
    var record0 := Pack([RECORD_FORMAT_EXTENDED_SWITCH, |extendedSwitch|]) + extendedSwitch;
    var rawFields := Packed([1, sample.frameLength, 0, |frame|]);
    if rawFields.None? {
      return None;
    }
    var rawBody := rawFields.value + padded;
    var rawHead := Packed([RECORD_FORMAT_RAW_HEADER, |rawBody|]);
    if rawHead.None? {
      return None;
    }
    var record1 := rawHead.value + rawBody;
    var sequence := agent.NextSampleSequence();
    var pool := agent.AdvancePool(sample.rate);
    var fields := Packed([sequence, 0x200_0000 + sample.ingress % 0x100_0000, sample.rate, pool,
                          agent.dropped, sample.ingress, sample.egress, 2]);
    if fields.None? {
      return None;
    }
    var body := fields.value + record0 + record1;
    var head := Packed([SAMPLE_TYPE_FLOW, |body|]);
    if head.None? {
      return None;
    }
    r := Some(head.value + body);
  }

  method BuildDatagram(samples: seq<Sample>, agent: SwitchAgent, uptime: int, maxHeader: nat)
    returns (r: Option<seq<Byte>>)
    modifies agent
    ensures (agent.Now(), r) == Datagram(old(agent.Now()), samples, uptime, maxHeader)
  {
    hide Pack, FlowSample;
    if samples == [] || agent.ip.None? {
      return None;
    }
    var sequence := agent.NextDatagramSequence();
    var head := Packed([agent.subAgent, sequence, uptime]);
    if head.None? {
      return None;
    }
    var count := Packed([|samples|]);
    if count.None? {
      return None;
    }
    ghost var started := agent.Now();
    var payload: seq<Byte> := [];
    for i := 0 to |samples|
      invariant (agent.Now(), Some(payload)) == FlowSamples(started, samples[..i], maxHeader)
    {
      assert samples[..i + 1][..i] == samples[..i];
      var built := BuildFlowSample(samples[i], agent, maxHeader);
      if built.None? {
        SamplesStop(started, samples, i + 1, maxHeader);
        return None;
      }
      payload := payload + built.value;
    }
    assert samples[..|samples|] == samples;
    r := Some(Pack([5, 1]) + agent.ip.value + head.value + count.value + payload);
  }

  /** Once a sample does not fit, the ones behind it are not attempted. */
  lemma {:induction false} SamplesStop(a: Agent, samples: seq<Sample>, i: nat, maxHeader: nat)
    requires i <= |samples| && FlowSamples(a, samples[..i], maxHeader).1.None?
    ensures FlowSamples(a, samples, maxHeader) == FlowSamples(a, samples[..i], maxHeader)
    decreases |samples|
  {
    hide FlowSample;
    if i == |samples| {
      assert samples[..i] == samples;
    } else {
      var n := |samples| - 1;
      assert samples[..n][..i] == samples[..i];
      SamplesStop(a, samples[..n], i, maxHeader);
    }
  }

  // ---- the shape of a built sample ---------------------------------------------------------

  const EXTENDED_SWITCH_HEAD := [RECORD_FORMAT_EXTENDED_SWITCH, 16]
  const EXTENDED_SWITCH_BODY := [0, 0, 0, 0]

  function RawLength(captured: nat): nat { 16 + captured + PadLength(captured) }

  function RawFields(frameLength: int, captured: nat): seq<int> { [1, frameLength, 0, captured] }

  /** The body of a sample: fixed fields, the extended-switch record, the raw-header record. */
  function Body(fields: seq<int>, frameLength: int, frame: seq<Byte>): (b: seq<Byte>)
    requires Fits(fields) && Fits(RawFields(frameLength, |frame|)) && RawLength(|frame|) < WORD_LIMIT
    ensures |b| == 4 * |fields| + 32 + RawLength(|frame|)
  {
    Pack(fields) + (Pack(EXTENDED_SWITCH_HEAD) + Pack(EXTENDED_SWITCH_BODY))
    + (Pack([RECORD_FORMAT_RAW_HEADER, RawLength(|frame|)]) + (Pack(RawFields(frameLength, |frame|)) + PadToWord(frame)))
  }

  ghost predicate Buildable(a': Agent, s: Sample, frame: seq<Byte>) {
    && Fits(SampleFields(a', s)) && Fits(RawFields(s.frameLength, |frame|))
    && 64 + RawLength(|frame|) < WORD_LIMIT
  }

  /** A sample is built exactly when every field fits, and then it is a length-prefixed body. */
  lemma SampleShape(a: Agent, s: Sample, maxHeader: nat)
    ensures var frame := Captured(s.frame, maxHeader);
            var a' := Counted(a, s.rate);
            && (FlowSample(a, s, maxHeader).1.Some? <==> Buildable(a', s, frame))
            && (Buildable(a', s, frame) ==>
                  FlowSample(a, s, maxHeader) ==
                  (a', Some(Pack([SAMPLE_TYPE_FLOW, 64 + RawLength(|frame|)]) + Body(SampleFields(a', s), s.frameLength, frame))))
  {
    hide Pack, Captured, PadToWord, Fits;
    var frame := Captured(s.frame, maxHeader);
    FitsPair(RECORD_FORMAT_RAW_HEADER, RawLength(|frame|));
    FitsPair(SAMPLE_TYPE_FLOW, 64 + RawLength(|frame|));
  }

  /** What a sample needs to be encodable at all. */
  predicate Encodable(s: Sample, maxHeader: nat) {
    && 0 <= s.rate < WORD_LIMIT && 0 <= s.ingress < WORD_LIMIT && 0 <= s.egress < WORD_LIMIT
    && 0 <= s.frameLength < WORD_LIMIT && 64 + RawLength(|Captured(s.frame, maxHeader)|) < WORD_LIMIT
  }

  lemma BuildableIff(a: Agent, s: Sample, maxHeader: nat)
    requires 0 <= a.dropped < WORD_LIMIT
    ensures FlowSample(a, s, maxHeader).1.Some? <==> Encodable(s, maxHeader)
    ensures FlowSample(a, s, maxHeader).0.dropped == a.dropped
  {
    SampleShape(a, s, maxHeader);
    assert FlowSample(a, s, maxHeader).0.dropped == a.dropped;
    hide FlowSample, PadLength, Captured;
    var frame := Captured(s.frame, maxHeader);
    FieldsFit(Counted(a, s.rate), s);
    RawFieldsFit(s.frameLength, |frame|);
  }

  lemma FieldsFit(a': Agent, s: Sample)
    requires 0 <= a'.dropped < WORD_LIMIT
    ensures Fits(SampleFields(a', s)) <==>
              0 <= s.rate < WORD_LIMIT && 0 <= s.ingress < WORD_LIMIT && 0 <= s.egress < WORD_LIMIT
  {
    var fields := SampleFields(a', s);
    if Fits(fields) {
      assert fields[2] == s.rate && fields[5] == s.ingress && fields[6] == s.egress;
    }
  }

  lemma RawFieldsFit(frameLength: int, captured: nat)
    ensures Fits(RawFields(frameLength, captured)) <==> 0 <= frameLength < WORD_LIMIT && captured < WORD_LIMIT
  {
    var fields := RawFields(frameLength, captured);
    if Fits(fields) {
      assert fields[1] == frameLength && fields[3] == captured;
    }
  }

  lemma {:induction false} SamplesBuiltIff(a: Agent, samples: seq<Sample>, maxHeader: nat)
    requires 0 <= a.dropped < WORD_LIMIT
    ensures FlowSamples(a, samples, maxHeader).1.Some? <==> forall k :: 0 <= k < |samples| ==> Encodable(samples[k], maxHeader)
    ensures FlowSamples(a, samples, maxHeader).0.dropped == a.dropped
    decreases |samples|
  {
    hide FlowSample, Encodable;
    if samples != [] {
      var n := |samples| - 1;
      SamplesBuiltIff(a, samples[..n], maxHeader);
      BuildableIff(FlowSamples(a, samples[..n], maxHeader).0, samples[n], maxHeader);
      assert forall k :: 0 <= k < n ==> samples[..n][k] == samples[k];
    }
  }

  /** Exactly when a datagram comes out. */
  lemma DatagramBuiltIff(a: Agent, samples: seq<Sample>, uptime: int, maxHeader: nat)
    requires 0 <= a.dropped < WORD_LIMIT && 0 <= a.subAgent < WORD_LIMIT
    ensures Datagram(a, samples, uptime, maxHeader).1.Some? <==>
              && a.ip.Some? && 0 <= uptime < WORD_LIMIT && 0 < |samples| < WORD_LIMIT
              && forall k :: 0 <= k < |samples| ==> Encodable(samples[k], maxHeader)
  {
    hide FlowSamples, Pack, Encodable;
    var a' := a.(datagramSequence := NextSequence(a.datagramSequence));
    SamplesBuiltIff(a', samples, maxHeader);
    var head := [a'.subAgent, a'.datagramSequence, uptime];
    assert Fits(head) <==> 0 <= uptime < WORD_LIMIT by {
      if Fits(head) {
        assert head[2] == uptime;
      }
    }
    assert Fits([|samples|]) <==> |samples| < WORD_LIMIT by {
      if Fits([|samples|]) {
        assert [|samples|][0] == |samples|;
      }
    }
  }

  // ---- reading by length fields ------------------------------------------------------------

  datatype Record = Record(format: nat, content: seq<Byte>)

  datatype Decoded = Decoded(
    sequence: nat, sourceId: nat, rate: nat, pool: nat, dropped: nat, input: nat, output: nat,
    frameLength: nat, stripped: nat, frame: seq<Byte>)

  datatype Packet = Packet(ip: seq<Byte>, subAgent: nat, sequence: nat, uptime: nat, samples: seq<Decoded>)

  /** The content of a tagged, length-prefixed item at the front, and what follows; lengths are whole words. */
  function Item(b: seq<Byte>): (r: Option<(Record, seq<Byte>)>)
    ensures r.Some? ==> |r.value.1| < |b| && |r.value.0.content| % 4 == 0
  {
    if |b| < 8 then None else
      var n := WordAt(b, 1);
      if n % 4 != 0 || |b| < 8 + n then None else Some((Record(WordAt(b, 0), b[8..8 + n]), b[8 + n..]))
  }

  /** Exactly `n` records and nothing else. */
  function Records(b: seq<Byte>, n: nat): Option<seq<Record>>
    decreases n
  {
    if n == 0 then (if b == [] then Some([]) else None) else
      var item := Item(b);
      if item.None? then None else
        var rest := Records(item.value.1, n - 1);
        if rest.None? then None else Some([item.value.0] + rest.value)
  }

  function RawHeader(rs: seq<Record>): Option<Record> {
    if rs == [] then None else if rs[0].format == RECORD_FORMAT_RAW_HEADER then Some(rs[0]) else RawHeader(rs[1..])
  }

  function DecodeSample(b: seq<Byte>): Option<Decoded> {
    if |b| < 32 then None else
      var records := Records(b[32..], WordAt(b, 7));
      if records.None? then None else
        var raw := RawHeader(records.value);
        if raw.None? || |raw.value.content| < 16 then None else
          var c := raw.value.content;
          var n := WordAt(c, 3);
          if |c| != 16 + n + PadLength(n) then None else
            Some(Decoded(WordAt(b, 0), WordAt(b, 1), WordAt(b, 2), WordAt(b, 3), WordAt(b, 4), WordAt(b, 5), WordAt(b, 6),
                         WordAt(c, 1), WordAt(c, 2), c[16..16 + n]))
  }

  /** Exactly `n` flow samples and nothing else. */
  function DecodeSamples(b: seq<Byte>, n: nat): Option<seq<Decoded>>
    decreases n
  {
    if n == 0 then (if b == [] then Some([]) else None) else
      var item := Item(b);
      if item.None? || item.value.0.format != SAMPLE_TYPE_FLOW then None else
        var first := DecodeSample(item.value.0.content);
        var rest := DecodeSamples(item.value.1, n - 1);
        if first.None? || rest.None? then None else Some([first.value] + rest.value)
  }

  function Decode(b: seq<Byte>): Option<Packet> {
    if |b| < 28 || WordAt(b, 0) != 5 || WordAt(b, 1) != 1 then None else
      var samples := DecodeSamples(b[28..], WordAt(b, 6));
      if samples.None? then None else Some(Packet(b[8..12], WordAt(b, 3), WordAt(b, 4), WordAt(b, 5), samples.value))
  }

  // ---- round trip --------------------------------------------------------------------------

  /** What a reader must find for one sample, given the agent's counters after it. */
  ghost predicate Describes(d: Decoded, a': Agent, s: Sample, maxHeader: nat) {
    && d.sequence == a'.sampleSequence && d.pool == a'.pool && d.dropped == a'.dropped
    && d.sourceId == 0x200_0000 + s.ingress % 0x100_0000
    && d.rate == s.rate && d.input == s.ingress && d.output == s.egress
    && d.frameLength == s.frameLength && d.stripped == 0
    && d.frame == s.frame[..Smaller(|s.frame|, maxHeader)]
  }

  lemma ItemOfPack(ws: seq<int>, content: seq<Byte>, rest: seq<Byte>)
    requires Fits(ws) && |ws| == 2 && ws[1] == |content| && |content| % 4 == 0
    ensures Item(Pack(ws) + content + rest) == Some((Record(ws[0], content), rest))
  {
    hide Pack, WordAt;
    var b := Pack(ws) + content + rest;
    assert b == Pack(ws) + (content + rest);
    WordsAtPack(ws, content + rest);
    assert b[8..8 + |content|] == content && b[8 + |content|..] == rest;
  }

  lemma TwoItems(b: seq<Byte>, r0: Record, rest: seq<Byte>, r1: Record)
    requires Item(b) == Some((r0, rest)) && Item(rest) == Some((r1, []))
    ensures Records(b, 2) == Some([r0, r1])
  {
    hide Item;
    assert Records([], 0) == Some([]);
    assert Records(rest, 1) == Some([r1] + []);
    assert [r1] + [] == [r1] && [r0] + [r1] == [r0, r1];
  }

  lemma TwoRecords(h0: seq<int>, c0: seq<Byte>, h1: seq<int>, c1: seq<Byte>)
    requires Fits(h0) && |h0| == 2 && h0[1] == |c0| && |c0| % 4 == 0
    requires Fits(h1) && |h1| == 2 && h1[1] == |c1| && |c1| % 4 == 0
    ensures Records(Pack(h0) + c0 + (Pack(h1) + c1), 2) == Some([Record(h0[0], c0), Record(h1[0], c1)])
  {
    hide Pack, Item, Records;
    ItemOfPack(h0, c0, Pack(h1) + c1);
    ItemOfPack(h1, c1, []);
    assert Pack(h1) + c1 + [] == Pack(h1) + c1;
    TwoItems(Pack(h0) + c0 + (Pack(h1) + c1), Record(h0[0], c0), Pack(h1) + c1, Record(h1[0], c1));
  }

  lemma BodyRecords(fields: seq<int>, frameLength: int, frame: seq<Byte>)
    requires Fits(fields) && |fields| == 8 && fields[7] == 2
    requires Fits(RawFields(frameLength, |frame|)) && RawLength(|frame|) < WORD_LIMIT
    ensures var b := Body(fields, frameLength, frame);
            var raw := Record(RECORD_FORMAT_RAW_HEADER, Pack(RawFields(frameLength, |frame|)) + PadToWord(frame));
            && (forall i :: 0 <= i < 8 ==> WordAt(b, i) == fields[i])
            && Records(b[32..], 2).Some? && RawHeader(Records(b[32..], 2).value) == Some(raw)
  {
    hide Pack, WordAt, PadToWord, Records, PadLength;
    var record0 := Pack(EXTENDED_SWITCH_HEAD) + Pack(EXTENDED_SWITCH_BODY);
    var raw := Pack(RawFields(frameLength, |frame|)) + PadToWord(frame);
    var record1 := Pack([RECORD_FORMAT_RAW_HEADER, RawLength(|frame|)]) + raw;
    var b := Body(fields, frameLength, frame);
    assert b == Pack(fields) + (record0 + record1);
    WordsAtPack(fields, record0 + record1);
    assert b[32..] == record0 + record1;
    TwoRecords(EXTENDED_SWITCH_HEAD, Pack(EXTENDED_SWITCH_BODY), [RECORD_FORMAT_RAW_HEADER, RawLength(|frame|)], raw);
  }

  lemma BodyReadsBack(fields: seq<int>, frameLength: nat, frame: seq<Byte>)
    requires Fits(fields) && |fields| == 8 && fields[7] == 2
    requires Fits(RawFields(frameLength, |frame|)) && RawLength(|frame|) < WORD_LIMIT
    ensures DecodeSample(Body(fields, frameLength, frame)) ==
              Some(Decoded(fields[0], fields[1], fields[2], fields[3], fields[4], fields[5], fields[6], frameLength, 0, frame))
  {
    hide Pack, WordAt, PadToWord, Records, RawHeader, Body;
    BodyRecords(fields, frameLength, frame);
    var c := Pack(RawFields(frameLength, |frame|)) + PadToWord(frame);
    WordsAtPack(RawFields(frameLength, |frame|), PadToWord(frame));
    assert c[16..16 + |frame|] == frame;
  }

  /** Following the lengths finds the sample's content and stops exactly at its end. */
  lemma SampleReadsBack(a: Agent, s: Sample, maxHeader: nat, rest: seq<Byte>)
    requires FlowSample(a, s, maxHeader).1.Some?
    ensures FlowSample(a, s, maxHeader).0 == Counted(a, s.rate)
    ensures var b := FlowSample(a, s, maxHeader).1.value;
            var item := Item(b + rest);
            && |b| % 4 == 0
            && item.Some? && item.value.0.format == SAMPLE_TYPE_FLOW && item.value.1 == rest
            && DecodeSample(item.value.0.content).Some?
            && Describes(DecodeSample(item.value.0.content).value, Counted(a, s.rate), s, maxHeader)
  {
    SampleShape(a, s, maxHeader);
    var frame := Captured(s.frame, maxHeader);
    var fields := SampleFields(Counted(a, s.rate), s);
    hide Pack, Item, FlowSample, Captured, PadToWord, PadLength, Body, DecodeSample, Counted, SampleFields, RawFields, Fits, Describes;
    RawFieldsFit(s.frameLength, |frame|);
    FieldsDescribe(Counted(a, s.rate), s, frame, maxHeader);
    FitsPair(SAMPLE_TYPE_FLOW, 64 + RawLength(|frame|));
    var head := [SAMPLE_TYPE_FLOW, 64 + RawLength(|frame|)];
    var body := Body(fields, s.frameLength, frame);
    ItemOfPack(head, body, rest);
    BodyReadsBack(fields, s.frameLength, frame);
  }

  lemma FieldsDescribe(a': Agent, s: Sample, frame: seq<Byte>, maxHeader: nat)
    requires Fits(SampleFields(a', s)) && 0 <= s.frameLength && frame == Captured(s.frame, maxHeader)
    ensures var f := SampleFields(a', s);
            && |f| == 8 && f[7] == 2
            && (forall i :: 0 <= i < 8 ==> 0 <= f[i])
            && Describes(Decoded(f[0], f[1], f[2], f[3], f[4], f[5], f[6], s.frameLength, 0, frame), a', s, maxHeader)
  {
    hide Captured;
  }

  /** Agent counters after the first `k` samples. */
  function CountedAll(a: Agent, samples: seq<Sample>, k: nat): Agent
    requires k <= |samples|
  {
    if k == 0 then a else Counted(CountedAll(a, samples, k - 1), samples[k - 1].rate)
  }

  lemma {:induction false} CountedPrefix(a: Agent, samples: seq<Sample>, k: nat, n: nat)
    requires k <= n <= |samples|
    ensures CountedAll(a, samples[..n], k) == CountedAll(a, samples, k)
  {
    if k > 0 {
      CountedPrefix(a, samples, k - 1, n);
    }
  }

  ghost predicate DescribesAll(ds: seq<Decoded>, a: Agent, samples: seq<Sample>, maxHeader: nat) {
    && |ds| == |samples|
    && forall k :: 0 <= k < |ds| ==> Describes(ds[k], CountedAll(a, samples, k + 1), samples[k], maxHeader)
  }

  lemma DecodeCons(b: seq<Byte>, n: nat, rest: seq<Decoded>)
    requires Item(b).Some? && Item(b).value.0.format == SAMPLE_TYPE_FLOW
    requires DecodeSample(Item(b).value.0.content).Some? && DecodeSamples(Item(b).value.1, n) == Some(rest)
    ensures DecodeSamples(b, n + 1) == Some([DecodeSample(Item(b).value.0.content).value] + rest)
  {
  }

  lemma {:induction false} DecodeAppend(b: seq<Byte>, n: nat, last: seq<Byte>)
    requires DecodeSamples(b, n).Some?
    requires Item(last).Some? && Item(last).value.1 == [] && Item(last).value.0.format == SAMPLE_TYPE_FLOW
    requires DecodeSample(Item(last).value.0.content).Some?
    ensures DecodeSamples(b + last, n + 1) == Some(DecodeSamples(b, n).value + [DecodeSample(Item(last).value.0.content).value])
    decreases n
  {
    hide DecodeSample, Item;
    if n == 0 {
      assert b + last == last;
      assert DecodeSamples([], 0) == Some([]);
      DecodeCons(last, 0, []);
      assert DecodeSamples(last, 1).value == [] + [DecodeSample(Item(last).value.0.content).value];
    } else {
      ItemIgnoresTail(b, last);
      var item := Item(b).value;
      DecodeAppend(item.1, n - 1, last);
      DecodeCons(b + last, n, DecodeSamples(item.1 + last, n).value);
      var first := DecodeSample(item.0.content).value;
      var rest := DecodeSamples(item.1, n - 1).value;
      assert DecodeSamples(b, n).value == [first] + rest;
      assert [first] + (rest + [DecodeSample(Item(last).value.0.content).value])
          == [first] + rest + [DecodeSample(Item(last).value.0.content).value];
    }
  }

  lemma ItemIgnoresTail(b: seq<Byte>, tail: seq<Byte>)
    requires Item(b).Some?
    ensures Item(b + tail) == Some((Item(b).value.0, Item(b).value.1 + tail))
  {
    assert (b + tail)[0..4] == b[0..4] && (b + tail)[4..8] == b[4..8];
    var n := WordAt(b, 1);
    assert (b + tail)[8..8 + n] == b[8..8 + n];
    assert (b + tail)[8 + n..] == b[8 + n..] + tail;
  }

  lemma {:induction false} SamplesReadBack(a: Agent, samples: seq<Sample>, maxHeader: nat)
    requires FlowSamples(a, samples, maxHeader).1.Some?
    ensures var (a', b) := FlowSamples(a, samples, maxHeader);
            && a' == CountedAll(a, samples, |samples|) && |b.value| % 4 == 0
            && DecodeSamples(b.value, |samples|).Some?
            && DescribesAll(DecodeSamples(b.value, |samples|).value, a, samples, maxHeader)
    decreases |samples|
  {
    hide FlowSample, DecodeSample, Item, Describes, Counted;
    if samples == [] {
      assert DecodeSamples([], 0) == Some([]);
    } else {
      var n := |samples| - 1;
      SamplesReadBack(a, samples[..n], maxHeader);
      var (a1, before) := FlowSamples(a, samples[..n], maxHeader);
      CountedPrefix(a, samples, n, n);
      var last := FlowSample(a1, samples[n], maxHeader).1.value;
      SampleReadsBack(a1, samples[n], maxHeader, []);
      assert last + [] == last;
      DecodeAppend(before.value, n, last);
      DescribesMore(a, samples, maxHeader, DecodeSamples(before.value, n).value,
                    DecodeSample(Item(last).value.0.content).value);
    }
  }

  lemma DescribesMore(a: Agent, samples: seq<Sample>, maxHeader: nat, ds: seq<Decoded>, d: Decoded)
    requires samples != [] && DescribesAll(ds, a, samples[..|samples| - 1], maxHeader)
    requires Describes(d, CountedAll(a, samples, |samples|), samples[|samples| - 1], maxHeader)
    ensures DescribesAll(ds + [d], a, samples, maxHeader)
  {
    hide Describes, CountedAll;
    var n := |samples| - 1;
    forall k | 0 <= k < n ensures Describes(ds[k], CountedAll(a, samples, k + 1), samples[k], maxHeader) {
      CountedPrefix(a, samples, k + 1, n);
    }
  }

  /**
   A built datagram, read by its own length fields, yields the agent's identity and counters and every
   sample in order, with the original frame length and the truncated frame, and nothing is left over.
   */
  lemma DatagramRoundTrip(a: Agent, samples: seq<Sample>, uptime: int, maxHeader: nat)
    requires Datagram(a, samples, uptime, maxHeader).1.Some?
    ensures var (a', b) := Datagram(a, samples, uptime, maxHeader);
            && |b.value| % 4 == 0
            && Decode(b.value).Some?
            && var p := Decode(b.value).value;
               && a.ip == Some(p.ip) && p.subAgent == a.subAgent
               && p.sequence == NextSequence(a.datagramSequence) == a'.datagramSequence
               && p.uptime == uptime
               && DescribesAll(p.samples, a.(datagramSequence := p.sequence), samples, maxHeader)
               && a' == CountedAll(a.(datagramSequence := p.sequence), samples, |samples|)
  {
    hide Pack, Decode, FlowSamples, DescribesAll, DecodeSamples, Datagram, CountedAll, Value, NextSequence;
    var a1 := a.(datagramSequence := NextSequence(a.datagramSequence));
    DatagramLayout(a, samples, uptime, maxHeader);
    SamplesReadBack(a1, samples, maxHeader);
    CountedKeepsIdentity(a1, samples, |samples|);
    var payload := FlowSamples(a1, samples, maxHeader).1.value;
    HeaderReadsBack(HeaderWords(a, samples, uptime), payload);
    StaysAligned(7, |payload|);
  }

  lemma HeaderReadsBack(ws: seq<int>, payload: seq<Byte>)
    requires Fits(ws) && |ws| == 7 && ws[0] == 5 && ws[1] == 1 && DecodeSamples(payload, ws[6]).Some?
    ensures var b := Pack(ws) + payload;
            Decode(b) == Some(Packet(b[8..12], ws[3], ws[4], ws[5], DecodeSamples(payload, ws[6]).value))
  {
    hide Pack, WordAt, DecodeSamples;
    WordsAtPack(ws, payload);
    var b := Pack(ws) + payload;
    assert b[28..] == payload;
  }

  lemma StaysAligned(words: nat, n: nat)
    requires n % 4 == 0
    ensures (4 * words + n) % 4 == 0
  {
  }

  function HeaderWords(a: Agent, samples: seq<Sample>, uptime: int): seq<int>
    requires a.ip.Some?
  {
    [5, 1, Value(a.ip.value), a.subAgent, NextSequence(a.datagramSequence), uptime, |samples|]
  }

  lemma AddressIsWord(ip: Ip4)
    ensures Fits([Value(ip)]) && Pack([Value(ip)]) == ip
  {
    ValueBound(ip);
    WordRange();
    hide Value, Pow256;
    ValueInjective(WordBytes(Value(ip)), ip);
    assert [Value(ip)][1..] == [];
  }

  lemma FourPacks(w0: seq<int>, w1: seq<int>, w2: seq<int>, w3: seq<int>)
    requires Fits(w0) && Fits(w1) && Fits(w2) && Fits(w3)
    ensures Fits(w0 + w1 + w2 + w3) && Pack(w0 + w1 + w2 + w3) == Pack(w0) + Pack(w1) + Pack(w2) + Pack(w3)
  {
    hide Pack, Fits;
    PackConcat(w0, w1);
    PackConcat(w0 + w1, w2);
    PackConcat(w0 + w1 + w2, w3);
  }

  /** The header as built in four pieces is seven words, the third being the address. */
  lemma HeaderIsWords(ip: Ip4, w3: seq<int>, n: nat)
    requires Fits(w3) && Fits([n]) && |w3| == 3
    ensures Fits([5, 1] + [Value(ip)] + w3 + [n])
    ensures Pack([5, 1]) + ip + Pack(w3) + Pack([n]) == Pack([5, 1] + [Value(ip)] + w3 + [n])
  {
    hide Pack, Value;
    FitsPair(5, 1);
    AddressIsWord(ip);
    FourPacks([5, 1], [Value(ip)], w3, [n]);
  }

  lemma DatagramInPieces(a: Agent, samples: seq<Sample>, uptime: int, maxHeader: nat)
    requires Datagram(a, samples, uptime, maxHeader).1.Some?
    ensures a.ip.Some?
    ensures var a1 := a.(datagramSequence := NextSequence(a.datagramSequence));
            var w3 := [a.subAgent, NextSequence(a.datagramSequence), uptime];
            var payload := FlowSamples(a1, samples, maxHeader);
            && payload.1.Some? && Fits(w3) && Fits([|samples|])
            && Datagram(a, samples, uptime, maxHeader) ==
               (payload.0, Some(Pack([5, 1]) + a.ip.value + Pack(w3) + Pack([|samples|]) + payload.1.value))
  {
    hide FlowSamples, NextSequence, Pack, Fits;
  }

  lemma AddressPlace(a: seq<Byte>, ip: Ip4, rest: seq<Byte>, more: seq<Byte>, tail: seq<Byte>)
    requires |a| == 8
    ensures (a + ip + rest + more + tail)[8..12] == ip
  {
  }

  lemma DatagramLayout(a: Agent, samples: seq<Sample>, uptime: int, maxHeader: nat)
    requires Datagram(a, samples, uptime, maxHeader).1.Some?
    ensures a.ip.Some?
    ensures var a1 := a.(datagramSequence := NextSequence(a.datagramSequence));
            var payload := FlowSamples(a1, samples, maxHeader);
            && payload.1.Some? && Fits(HeaderWords(a, samples, uptime))
            && Datagram(a, samples, uptime, maxHeader) ==
               (payload.0, Some(Pack(HeaderWords(a, samples, uptime)) + payload.1.value))
            && Datagram(a, samples, uptime, maxHeader).1.value[8..12] == a.ip.value
  {
    hide Datagram, FlowSamples, NextSequence, Pack, Value, Fits;
    DatagramInPieces(a, samples, uptime, maxHeader);
    var ip := a.ip.value;
    var w3 := [a.subAgent, NextSequence(a.datagramSequence), uptime];
    assert HeaderWords(a, samples, uptime) == [5, 1] + [Value(ip)] + w3 + [|samples|];
    HeaderIsWords(ip, w3, |samples|);
    FitsPair(5, 1);
    AddressPlace(Pack([5, 1]), ip, Pack(w3), Pack([|samples|]),
                 FlowSamples(a.(datagramSequence := NextSequence(a.datagramSequence)), samples, maxHeader).1.value);
  }

  lemma WrapOne(n: nat)
    ensures (n % WORD_LIMIT + 1) % WORD_LIMIT == (n + 1) % WORD_LIMIT
  {
  }

  lemma {:induction false} CountedKeepsIdentity(a: Agent, samples: seq<Sample>, k: nat)
    requires k <= |samples|
    ensures CountedAll(a, samples, k).datagramSequence == a.datagramSequence && CountedAll(a, samples, k).ip == a.ip
    ensures CountedAll(a, samples, k).subAgent == a.subAgent && CountedAll(a, samples, k).dropped == a.dropped
    ensures CountedAll(a, samples, k).sampleSequence == (a.sampleSequence + k) % WORD_LIMIT
  {
    if k > 0 {
      CountedKeepsIdentity(a, samples, k - 1);
      WrapOne(a.sampleSequence + k - 1);
    }
  }
}
