/**
 The kernel's reader of flow samples in Mininet mode: fixed word offsets, record 0 skipped by its
 length, every read bounds-checked. It reads what the proxy's emitter wrote, sample by sample, until
 it drops a fragment: then it goes on inside that sample.
 */
module Collector {
  import opened Common
  import opened Bytes
  import opened SFlow

  const ETHERTYPE_IPV4 := 0x0800
  const PROTO_ICMP := 1
  const PROTO_TCP := 6
  const PROTO_UDP := 17

  /** What lies behind the IPv4 addresses, as far as the kernel looks. */
  datatype Layer4 = Icmp(kind: nat, code: nat) | Ports(src: nat, dst: nat, ack: bool)

  datatype Reading =
    | NotIpv4(etherType: nat)
    | Flow(input: int, output: int, rate: int, frameLength: int, protocol: nat, fragOff: nat, src: seq<nat>, dst: seq<nat>, l4: Layer4)

  /** A non-first fragment of a protocol the kernel accounts for: dropped, and the index is left where it is. */
  predicate Drops(r: Reading) {
    r.Flow? && (r.protocol == PROTO_ICMP || r.protocol == PROTO_TCP || r.protocol == PROTO_UDP) && r.fragOff != 0
  }

  datatype Ending = Done | NoProgress | RanOut | Truncated | UnknownType

  datatype Outcome = Ignored | Walked(readings: seq<Reading>, ending: Ending)

  // ---- the reader --------------------------------------------------------------------------

  /** Offsets are computed in 32 bits. */
  predicate Has(b: seq<Byte>, k: nat) { 4 * (k % WORD_LIMIT) + 4 <= |b| }

  function Get(b: seq<Byte>, k: nat): nat
    requires Has(b, k)
  {
    WordAt(b, k % WORD_LIMIT)
  }

  /** The upper 16 bits of a word. */
  function FrontHalf(w: nat): nat { w / 0x1_0000 % 0x1_0000 }

  /** Octets from the back half of one word and the front half of the next. */
  function FrontBack(front: nat, back: nat): seq<nat> {
    [front / 256 % 256, front % 256, back / 0x100_0000 % 256, back / 0x1_0000 % 256]
  }

  /** The IPv4 part of a sample, `i` being the index its offsets count from. */
  function ReadIpv4(b: seq<Byte>, i: nat, input: int, output: int, rate: int, frameLength: int): Option<Reading> {
    if !(Has(b, i + 21) && Has(b, i + 22) && Has(b, i + 23) && Has(b, i + 24)) then None else
      var fragOff := FrontHalf(Get(b, i + 21)) % 0x2000;
      var protocol := Get(b, i + 21) % 256;
      var src := FrontBack(Get(b, i + 22), Get(b, i + 23));
      var dst := FrontBack(Get(b, i + 23), Get(b, i + 24));
      if protocol == PROTO_ICMP then
        Some(Flow(input, output, rate, frameLength, protocol, fragOff, src, dst,
                  Icmp(Get(b, i + 24) / 256 % 256, Get(b, i + 24) % 256)))
      else if !Has(b, i + 25) || (protocol == PROTO_TCP && !Has(b, i + 27)) then None else
        var ack := protocol == PROTO_TCP && Get(b, i + 27) % 256 / 16 % 2 == 1;
        Some(Flow(input, output, rate, frameLength, protocol, fragOff, src, dst,
                  Ports(Get(b, i + 24) % 0x1_0000, FrontHalf(Get(b, i + 25)), ack)))
  }

  /** A standard flow sample at word `index`, and the index it leaves; absent when a read is out of range. */
  function ReadFlow(b: seq<Byte>, index: nat): Option<(Reading, nat)> {
    if !(Has(b, index + 1) && Has(b, index + 4) && Has(b, index + 7) && Has(b, index + 8) && Has(b, index + 11)) then None else
      var sampleLen := Get(b, index + 1);
      var skip := Get(b, index + 11) / 4 + 2;
      var i := (index + skip) % WORD_LIMIT;
      var next := (i + sampleLen / 4 + 2 - skip) % WORD_LIMIT;
      if !(Has(b, i + 13) && Has(b, i + 19)) then None else
        var etherType := FrontHalf(Get(b, i + 19));
        if etherType != ETHERTYPE_IPV4 then Some((NotIpv4(etherType), next)) else
          var flow := ReadIpv4(b, i, Get(b, index + 7), Get(b, index + 8), Get(b, index + 4), Get(b, i + 13));
          if flow.None? then None else Some((flow.value, if Drops(flow.value) then i else next))
  }

  /** An expanded flow sample; record 0 is not skipped, so the advance falls two words short. */
  function ReadExpanded(b: seq<Byte>, index: nat): Option<(Reading, nat)> {
    if !(Has(b, index + 1) && Has(b, index + 4) && Has(b, index + 5) && Has(b, index + 9) && Has(b, index + 11)
         && Has(b, index + 16) && Has(b, index + 23)) then None else
      var next := (index + Get(b, index + 1) / 4) % WORD_LIMIT;
      var etherType := FrontHalf(Get(b, index + 23));
      if etherType != ETHERTYPE_IPV4 then Some((NotIpv4(etherType), next)) else
        var flow := ReadIpv4(b, index + 4, Get(b, index + 9), Get(b, index + 11), Get(b, index + 5), Get(b, index + 16));
        if flow.None? then None else Some((flow.value, if Drops(flow.value) then index else next))
  }

  /** The words of a counter sample, which Mininet mode reads and ignores. */
  predicate HasCounters(b: seq<Byte>, base: nat) {
    && Has(b, base + 3) && Has(b, base + 5) && Has(b, base + 6) && Has(b, base + 9) && Has(b, base + 10)
    && Has(b, base + 17) && Has(b, base + 18)
  }

  /** One turn of the loop: an exception, a break, or a move with or without a reading. */
  datatype Turn = Throws | Breaks | Moves(reading: Option<Reading>, next: nat)

  function Moved(read: Option<(Reading, nat)>): Turn {
    if read.None? then Throws else Moves(Some(read.value.0), read.value.1)
  }

  function TurnAt(b: seq<Byte>, index: nat): Turn
    requires 4 * index + 8 <= |b|
  {
    var kind, sampleLen := WordAt(b, index), WordAt(b, index + 1);
    var behind := (index + sampleLen / 4 + 2) % WORD_LIMIT;
    if kind == 2 || kind == 4 then
      (if HasCounters(b, index + if kind == 2 then 19 else 5) then Moves(None, behind) else Throws)
    else if kind == SAMPLE_TYPE_FLOW then Moved(ReadFlow(b, index))
    else if kind == 3 then Moved(ReadExpanded(b, index))
    else if sampleLen > 0 then Moves(None, behind)
    else Breaks
  }

  /** The sample loop with its progress and end-of-buffer guards. */
  function Walk(b: seq<Byte>, index: nat, previous: nat, count: nat): (o: Outcome)
    ensures o.Walked? && |o.readings| <= count
    decreases count
  {
    if count == 0 then Walked([], Done)
    else if index <= previous then Walked([], NoProgress)
    else if index + 1 >= |b| / 4 then Walked([], RanOut)
    else
      match TurnAt(b, index)
      case Throws => Walked([], Truncated)
      case Breaks => Walked([], UnknownType)
      case Moves(None, next) => Walk(b, next, index, count - 1)
      case Moves(Some(r), next) => Prepend(r, Walk(b, next, index, count - 1))
  }

  function Prepend(r: Reading, o: Outcome): Outcome {
    if o.Ignored? then o else Walked([r] + o.readings, o.ending)
  }

  function HandlePacket(b: seq<Byte>): Outcome {
    if |b| < 28 || |b| % 4 != 0 || WordAt(b, 0) != 5 then Ignored else
      var count := WordAt(b, 6);
      if count > (|b| / 4 - 7) / 2 then Ignored else Walk(b, 7, 0, count)
  }

  // ---- what it should read, said on the frame's own bytes -----------------------------------

  function EtherType(f: seq<Byte>): nat
    requires |f| >= 14
  {
    Value(f[12..14])
  }

  /** How many captured bytes the kernel looks at behind an IPv4 header without options. */
  function Looks(protocol: nat): nat {
    if protocol == PROTO_ICMP then 36 else if protocol == PROTO_TCP then 48 else 38
  }

  /** The captured part holds every byte the kernel looks at. */
  predicate Legible(f: seq<Byte>) {
    |f| >= 14 && (EtherType(f) == ETHERTYPE_IPV4 ==> |f| >= 36 && |f| >= Looks(f[23]))
  }

  function ReadingOf(s: Sample, f: seq<Byte>): Reading
    requires Legible(f)
  {
    if EtherType(f) != ETHERTYPE_IPV4 then NotIpv4(EtherType(f)) else
      Flow(s.ingress, s.egress, s.rate, s.frameLength, f[23], Value(f[20..22]) % 0x2000, f[26..30], f[30..34],
           if f[23] == PROTO_ICMP then Icmp(f[34], f[35])
           else Ports(Value(f[34..36]), Value(f[36..38]), f[23] == PROTO_TCP && f[47] / 16 % 2 == 1))
  }

  /** IPv4, a protocol the kernel accounts for, and a fragment offset other than zero: not the first fragment. */
  predicate Fragment(f: seq<Byte>)
    requires Legible(f)
  {
    EtherType(f) == 0x0800 && f[23] in {1, 6, 17} && Value(f[20..22]) % 0x2000 != 0
  }

  lemma DropsIff(s: Sample, f: seq<Byte>)
    requires Legible(f)
    ensures Drops(ReadingOf(s, f)) <==> Fragment(f)
  {
    hide Value;
  }

  // ---- words and bytes -----------------------------------------------------------------------

  lemma ValueOfTwo(b: seq<Byte>)
    requires |b| == 2
    ensures Value(b) == 256 * b[0] as int + b[1]
  {
    assert b[..1][..0] == [];
    assert Value(b[..1]) == b[0];
  }

  lemma ValueOfFour(b: seq<Byte>)
    requires |b| == 4
    ensures Value(b) == 0x100_0000 * b[0] as int + 0x1_0000 * b[1] as int + 256 * b[2] as int + b[3]
  {
    ValueOfTwo(b[..2]);
    assert b[..3][..2] == b[..2];
    assert Value(b[..3]) == 256 * Value(b[..2]) + b[2];
  }

  /** Halves and octets of a word, as shifts and masks give them. */
  lemma WordParts(b0: int, b1: int, b2: int, b3: int)
    requires 0 <= b0 < 256 && 0 <= b1 < 256 && 0 <= b2 < 256 && 0 <= b3 < 256
    ensures var w := 0x100_0000 * b0 + 0x1_0000 * b1 + 256 * b2 + b3;
            && w / 0x1_0000 % 0x1_0000 == 256 * b0 + b1 && w % 0x1_0000 == 256 * b2 + b3
            && w / 0x100_0000 % 256 == b0 && w / 0x1_0000 % 256 == b1 && w / 256 % 256 == b2 && w % 256 == b3
  {
    var w := 0x100_0000 * b0 + 0x1_0000 * b1 + 256 * b2 + b3;
    assert w / 0x1_0000 == 256 * b0 + b1;
    assert w / 0x100_0000 == b0;
    assert w / 256 == 0x1_0000 * b0 + 256 * b1 + b2;
  }

  /** The same for word `j` of a byte string. */
  lemma WordOctets(f: seq<Byte>, j: nat)
    requires 4 * j + 4 <= |f|
    ensures var w := WordAt(f, j);
            && w / 0x1_0000 % 0x1_0000 == Value(f[4 * j..4 * j + 2]) && w % 0x1_0000 == Value(f[4 * j + 2..4 * j + 4])
            && w / 0x100_0000 % 256 == f[4 * j] && w / 0x1_0000 % 256 == f[4 * j + 1]
            && w / 256 % 256 == f[4 * j + 2] && w % 256 == f[4 * j + 3]
  {
    hide Value;
    ValueOfFour(f[4 * j..4 * j + 4]);
    ValueOfTwo(f[4 * j..4 * j + 2]);
    ValueOfTwo(f[4 * j + 2..4 * j + 4]);
    WordParts(f[4 * j], f[4 * j + 1], f[4 * j + 2], f[4 * j + 3]);
  }

  // ---- one sample ----------------------------------------------------------------------------

  /** The 22 words in front of the padded frame. */
  function SampleWords(a': Agent, s: Sample, captured: nat): seq<int> {
    [SAMPLE_TYPE_FLOW, 64 + RawLength(captured)] + SampleFields(a', s)
    + [RECORD_FORMAT_EXTENDED_SWITCH, 16, 0, 0, 0, 0] + [RECORD_FORMAT_RAW_HEADER, RawLength(captured)]
    + RawFields(s.frameLength, captured)
  }

  lemma FivePacks(w0: seq<int>, w1: seq<int>, w2: seq<int>, w3: seq<int>, w4: seq<int>, tail: seq<Byte>)
    requires Fits(w0) && Fits(w1) && Fits(w2) && Fits(w3) && Fits(w4)
    ensures Fits(w0 + w1 + w2 + w3 + w4)
    ensures Pack(w0 + w1 + w2 + w3 + w4) + tail == Pack(w0) + (Pack(w1) + Pack(w2) + (Pack(w3) + (Pack(w4) + tail)))
  {
    hide Pack, Fits;
    PackConcat(w0, w1);
    PackConcat(w0 + w1, w2);
    PackConcat(w0 + w1 + w2, w3);
    PackConcat(w0 + w1 + w2 + w3, w4);
  }

  lemma SampleIsWords(a: Agent, s: Sample, maxHeader: nat)
    requires FlowSample(a, s, maxHeader).1.Some?
    ensures var f := Captured(s.frame, maxHeader);
            var ws := SampleWords(Counted(a, s.rate), s, |f|);
            && |ws| == 22 && Fits(ws)
            && FlowSample(a, s, maxHeader).1.value == Pack(ws) + PadToWord(f)
  {
    SampleShape(a, s, maxHeader);
    hide FlowSample, Pack, PadToWord, Counted, Captured, PadLength;
    var f := Captured(s.frame, maxHeader);
    var fields := SampleFields(Counted(a, s.rate), s);
    FitsPair(SAMPLE_TYPE_FLOW, 64 + RawLength(|f|));
    FitsPair(RECORD_FORMAT_RAW_HEADER, RawLength(|f|));
    PackConcat(EXTENDED_SWITCH_HEAD, EXTENDED_SWITCH_BODY);
    assert EXTENDED_SWITCH_HEAD + EXTENDED_SWITCH_BODY == [RECORD_FORMAT_EXTENDED_SWITCH, 16, 0, 0, 0, 0];
    hide Fits;
    FivePacks([SAMPLE_TYPE_FLOW, 64 + RawLength(|f|)], fields, [RECORD_FORMAT_EXTENDED_SWITCH, 16, 0, 0, 0, 0],
              [RECORD_FORMAT_RAW_HEADER, RawLength(|f|)], RawFields(s.frameLength, |f|), PadToWord(f));
  }

  /** A sample's fixed words lie in the buffer from word `p` on. */
  ghost predicate Laid(b: seq<Byte>, p: nat, ws: seq<int>) {
    && |b| % 4 == 0 && |b| < WORD_LIMIT
    && |ws| == 22 && 4 * (p + 22) <= |b|
    && (forall k :: 0 <= k < 22 ==> WordAt(b, p + k) == ws[k])
  }

  /** Everything behind the fixed words: what the kernel takes for the frame. */
  function View(b: seq<Byte>, p: nat): seq<Byte>
    requires 4 * (p + 22) <= |b|
  {
    b[4 * (p + 22)..]
  }

  lemma SliceOfDrop(b: seq<Byte>, x: nat, i: nat)
    requires x + i + 4 <= |b|
    ensures b[x..][i..i + 4] == b[x + i..x + i + 4]
  {
  }

  lemma LaidOut(b: seq<Byte>, p: nat, ws: seq<int>, padded: seq<Byte>, rest: seq<Byte>)
    requires |b| % 4 == 0 && |b| < WORD_LIMIT && Fits(ws) && |ws| == 22
    requires 4 * p <= |b| && b[4 * p..] == Pack(ws) + padded + rest
    ensures Laid(b, p, ws) && View(b, p) == padded + rest
  {
    hide Value, Pack;
    assert Pack(ws) + padded + rest == Pack(ws) + (padded + rest);
    forall k | 0 <= k < 22 ensures WordAt(b, p + k) == ws[k] {
      WordAtPack(ws, padded + rest, k);
      SliceOfDrop(b, 4 * p, 4 * k);
    }
    assert b[4 * (p + 22)..] == b[4 * p..][88..];
  }

  lemma Plain(b: seq<Byte>, k: nat)
    requires k < WORD_LIMIT
    ensures Has(b, k) <==> 4 * k + 4 <= |b|
    ensures Has(b, k) ==> Get(b, k) == WordAt(b, k)
  {
  }

  /** A word of the view is read from its place in the buffer, if it is there. */
  lemma ViewWord(b: seq<Byte>, p: nat, j: nat)
    requires |b| % 4 == 0 && 4 * (p + 22) <= |b| < WORD_LIMIT && j < 100
    ensures Has(b, p + 22 + j) <==> 4 * j < |View(b, p)|
    ensures Has(b, p + 22 + j) ==> 4 * j + 4 <= |View(b, p)| && Get(b, p + 22 + j) == WordAt(View(b, p), j)
  {
    hide Value, Has, Get;
    Plain(b, p + 22 + j);
    if 4 * (p + 22 + j) + 4 <= |b| {
      SliceOfDrop(b, 4 * (p + 22), 4 * j);
    }
  }

  lemma HeaderWord(b: seq<Byte>, p: nat, ws: seq<int>, k: nat)
    requires Laid(b, p, ws) && k < 22
    ensures Has(b, p + k) && Get(b, p + k) == ws[k]
  {
    hide WordAt;
    Plain(b, p + k);
  }

  ghost predicate Framed(b: seq<Byte>, p: nat) {
    |b| % 4 == 0 && 4 * (p + 22) <= |b| < WORD_LIMIT
  }

  lemma ReadsEtherType(b: seq<Byte>, p: nat)
    requires Framed(b, p)
    ensures Has(b, p + 25) <==> |View(b, p)| >= 14
    ensures Has(b, p + 25) ==> FrontHalf(Get(b, p + 25)) == EtherType(View(b, p))
  {
    hide Value, WordAt, Get, Has;
    ViewWord(b, p, 3);
    assert |View(b, p)| % 4 == 0;
    if |View(b, p)| >= 16 {
      WordOctets(View(b, p), 3);
    }
  }

  lemma ReadsAddresses(b: seq<Byte>, p: nat)
    requires Framed(b, p) && |View(b, p)| >= 36
    ensures var v := View(b, p);
            && Has(b, p + 27) && Has(b, p + 28) && Has(b, p + 29) && Has(b, p + 30)
            && Get(b, p + 27) % 256 == v[23] && FrontHalf(Get(b, p + 27)) == Value(v[20..22])
            && FrontBack(Get(b, p + 28), Get(b, p + 29)) == v[26..30]
            && FrontBack(Get(b, p + 29), Get(b, p + 30)) == v[30..34]
            && Get(b, p + 30) / 256 % 256 == v[34] && Get(b, p + 30) % 256 == v[35]
            && Get(b, p + 30) % 0x1_0000 == Value(v[34..36])
  {
    hide Value, WordAt, Get, Has, View;
    ViewWord(b, p, 5);
    ViewWord(b, p, 6);
    ViewWord(b, p, 7);
    ViewWord(b, p, 8);
    var v := View(b, p);
    WordOctets(v, 5);
    WordOctets(v, 6);
    WordOctets(v, 7);
    WordOctets(v, 8);
  }

  lemma ReadsPorts(b: seq<Byte>, p: nat)
    requires Framed(b, p) && |View(b, p)| >= 36
    ensures var v := View(b, p);
            && (Has(b, p + 31) <==> |v| >= 38)
            && (Has(b, p + 31) ==> FrontHalf(Get(b, p + 31)) == Value(v[36..38]))
            && (Has(b, p + 33) <==> |v| >= 48)
            && (Has(b, p + 33) ==> Get(b, p + 33) % 256 == v[47])
  {
    ViewIsWords(b, p);
    hide Value, WordAt, Get, Has, View;
    ViewWord(b, p, 9);
    ViewWord(b, p, 11);
    var v := View(b, p);
    if |v| >= 40 {
      WordOctets(v, 9);
    }
    if |v| >= 48 {
      WordOctets(v, 11);
    }
  }

  lemma ViewIsWords(b: seq<Byte>, p: nat)
    requires Framed(b, p)
    ensures |View(b, p)| % 4 == 0
  {
  }

  /** The IPv4 part is read exactly when the view holds it, and then says what the view's bytes say. */
  lemma ReadsIpv4(b: seq<Byte>, p: nat, s: Sample)
    requires Framed(b, p) && |View(b, p)| >= 14 && EtherType(View(b, p)) == ETHERTYPE_IPV4
    ensures ReadIpv4(b, p + 6, s.ingress, s.egress, s.rate, s.frameLength) ==
              if Legible(View(b, p)) then Some(ReadingOf(s, View(b, p))) else None
  {
    ViewIsWords(b, p);
    hide Value, WordAt, Get, Has, FrontBack, View;
    ViewWord(b, p, 8);
    if |View(b, p)| >= 36 {
      ReadsAddresses(b, p);
      ReadsPorts(b, p);
    }
  }

  /**
   The fixed offsets read the sample's own words, and take everything behind them for its frame. The
   index moves exactly past the sample, however long its frame, unless the sample is a fragment
   that is dropped: then it stays inside.
   */
  lemma ReadsSample(b: seq<Byte>, p: nat, a': Agent, s: Sample, f: seq<Byte>)
    requires Laid(b, p, SampleWords(a', s, |f|)) && 4 * (p + 22) + |PadToWord(f)| <= |b|
    ensures Framed(b, p)
    ensures var v := View(b, p);
            ReadFlow(b, p) ==
              if !Legible(v) then None
              else Some((ReadingOf(s, v), if Fragment(v) then p + 6 else p + 22 + |PadToWord(f)| / 4))
  {
    assert Framed(b, p);
    hide Framed, Behind, Landed, FrontHalf, IndexBehind, PadLength, WordAt, Laid, Get, Has, ReadIpv4, ReadFlow, PadToWord, View, SampleWords, RawLength, Legible, EtherType, ReadingOf, Drops, Fragment;
    SampleHead(b, p, a', s, |f|);
    NextIndex(p, |f|, |b|);
    HeadIsRead(b, p, 64 + RawLength(|f|));
    ReadsBehind(b, p, s);
    LandedOn(s, View(b, p), p + 6, p + 22 + |PadToWord(f)| / 4);
  }

  /** The fixed words the kernel looks at. */
  lemma SampleHead(b: seq<Byte>, p: nat, a': Agent, s: Sample, captured: nat)
    requires Laid(b, p, SampleWords(a', s, captured))
    ensures Has(b, p + 1) && Get(b, p + 1) == 64 + RawLength(captured)
    ensures Has(b, p + 4) && Get(b, p + 4) == s.rate
    ensures Has(b, p + 7) && Get(b, p + 7) == s.ingress && Has(b, p + 8) && Get(b, p + 8) == s.egress
    ensures Has(b, p + 11) && Get(b, p + 11) == 16
    ensures Has(b, p + 19) && Get(b, p + 19) == s.frameLength
  {
    hide WordAt, Laid, Get, Has, RawLength;
    var ws := SampleWords(a', s, captured);
    assert ws[1] == 64 + RawLength(captured) && ws[4] == s.rate && ws[7] == s.ingress && ws[8] == s.egress && ws[11] == 16 && ws[19] == s.frameLength;
    HeaderWord(b, p, ws, 1);
    HeaderWord(b, p, ws, 4);
    HeaderWord(b, p, ws, 7);
    HeaderWord(b, p, ws, 8);
    HeaderWord(b, p, ws, 11);
    HeaderWord(b, p, ws, 19);
  }

  /** The index arithmetic of one sample whose record 0 is skipped as six words. */
  function IndexBehind(p: nat, sampleLen: nat): nat { (p + 6 + sampleLen / 4 + 2 - 6) % WORD_LIMIT }

  /** What is read behind the fixed words. */
  function Behind(b: seq<Byte>, p: nat, input: int, output: int, rate: int, frameLength: int): Option<Reading> {
    if !Has(b, p + 25) then None else
      var e := FrontHalf(Get(b, p + 25));
      if e != ETHERTYPE_IPV4 then Some(NotIpv4(e)) else ReadIpv4(b, p + 6, input, output, rate, frameLength)
  }

  /** A reading and where it leaves the index. */
  function Landed(r: Option<Reading>, inside: nat, next: nat): Option<(Reading, nat)> {
    if r.None? then None else Some((r.value, if Drops(r.value) then inside else next))
  }

  lemma LandedOn(s: Sample, v: seq<Byte>, inside: nat, next: nat)
    ensures Landed(if Legible(v) then Some(ReadingOf(s, v)) else None, inside, next) ==
              if !Legible(v) then None else Some((ReadingOf(s, v), if Fragment(v) then inside else next))
  {
    hide Legible, ReadingOf, Drops, Fragment;
    if Legible(v) {
      DropsIff(s, v);
    }
  }

  /** With the fixed words there, a sample is lost only behind them. */
  lemma HeadIsRead(b: seq<Byte>, p: nat, sampleLen: nat)
    requires p + 6 < WORD_LIMIT
    requires Has(b, p + 1) && Get(b, p + 1) == sampleLen && Has(b, p + 4) && Has(b, p + 7) && Has(b, p + 8)
    requires Has(b, p + 11) && Get(b, p + 11) == 16 && Has(b, p + 19)
    ensures ReadFlow(b, p) ==
              Landed(Behind(b, p, Get(b, p + 7), Get(b, p + 8), Get(b, p + 4), Get(b, p + 19)), p + 6, IndexBehind(p, sampleLen))
  {
    hide Has, Get, ReadIpv4, FrontHalf;
    assert (p + 6) % WORD_LIMIT == p + 6;
  }

  lemma NextIndex(p: nat, captured: nat, size: nat)
    requires 4 * (p + 22) + captured + PadLength(captured) <= size < WORD_LIMIT
    ensures IndexBehind(p, 64 + RawLength(captured)) == p + 22 + (captured + PadLength(captured)) / 4
  {
  }

  /** What the reads behind the fixed words amount to. */
  lemma ReadsBehind(b: seq<Byte>, p: nat, s: Sample)
    requires Framed(b, p)
    ensures Behind(b, p, s.ingress, s.egress, s.rate, s.frameLength) ==
              if Legible(View(b, p)) then Some(ReadingOf(s, View(b, p))) else None
  {
    hide Value, WordAt, Get, Has, ReadIpv4, View, FrontHalf;
    ReadsEtherType(b, p);
    if |View(b, p)| >= 14 && EtherType(View(b, p)) == ETHERTYPE_IPV4 {
      ReadsIpv4(b, p, s);
    }
  }

  /** Skipping record 0 by its own length lands on the raw-header record. */
  lemma SkipLandsOnRawHeader(b: seq<Byte>, p: nat, a': Agent, s: Sample, captured: nat)
    requires Laid(b, p, SampleWords(a', s, captured))
    ensures Has(b, p + 10) && Get(b, p + 10) == RECORD_FORMAT_EXTENDED_SWITCH && Has(b, p + 11)
    ensures var skip := Get(b, p + 11) / 4 + 2;
            && Has(b, p + 10 + skip) && Get(b, p + 10 + skip) == RECORD_FORMAT_RAW_HEADER
            && Has(b, p + 13 + skip) && Get(b, p + 13 + skip) == s.frameLength
  {
    hide WordAt, Laid, Get, Has;
    var ws := SampleWords(a', s, captured);
    assert ws[10] == RECORD_FORMAT_EXTENDED_SWITCH && ws[11] == 16 && ws[16] == RECORD_FORMAT_RAW_HEADER && ws[19] == s.frameLength;
    HeaderWord(b, p, ws, 10);
    HeaderWord(b, p, ws, 11);
    HeaderWord(b, p, ws, 16);
    HeaderWord(b, p, ws, 19);
  }

  // ---- whose bytes are read ------------------------------------------------------------------

  /** Bytes behind a legible frame change nothing. */
  lemma LongerViewSameReading(s: Sample, f: seq<Byte>, v: seq<Byte>)
    requires Legible(f) && f <= v
    ensures Legible(v) && ReadingOf(s, v) == ReadingOf(s, f) && (Fragment(v) <==> Fragment(f))
  {
    hide Value;
    assert v[12..14] == f[12..14];
    if EtherType(f) == ETHERTYPE_IPV4 {
      assert v[20..22] == f[20..22] && v[26..30] == f[26..30] && v[30..34] == f[30..34] && v[34..36] == f[34..36];
      if f[23] != PROTO_ICMP {
        assert v[36..38] == f[36..38];
      }
    }
  }

  /** When a frame padded to a word holds all the kernel looks at, as a condition on its captured length. */
  lemma PaddedLegibleIff(f: seq<Byte>)
    ensures Legible(PadToWord(f)) <==>
              && |f| > 12
              && (EtherType(PadToWord(f)) == ETHERTYPE_IPV4 ==>
                    && |f| > 32
                    && (f[23] != PROTO_ICMP ==> |f| > 36)
                    && (f[23] == PROTO_TCP ==> |f| > 44))
  {
    hide Value, EtherType;
  }

  // ---- the whole datagram --------------------------------------------------------------------

  lemma {:induction false} PrefixBuilt(a: Agent, samples: seq<Sample>, maxHeader: nat, k: nat)
    requires FlowSamples(a, samples, maxHeader).1.Some? && k <= |samples|
    ensures FlowSamples(a, samples[..k], maxHeader).1.Some?
    ensures FlowSamples(a, samples[..k], maxHeader).1.value <= FlowSamples(a, samples, maxHeader).1.value
    decreases |samples|
  {
    hide FlowSample;
    if k == |samples| {
      assert samples[..k] == samples;
    } else {
      var n := |samples| - 1;
      PrefixBuilt(a, samples[..n], maxHeader, k);
      assert samples[..n][..k] == samples[..k];
    }
  }

  /** The buffer is a datagram header followed by the built samples. */
  ghost predicate Carries(b: seq<Byte>, a: Agent, samples: seq<Sample>, maxHeader: nat) {
    var built := FlowSamples(a, samples, maxHeader).1;
    && |b| % 4 == 0 && 28 <= |b| < WORD_LIMIT
    && built.Some? && b[28..] == built.value
  }

  /** The word at which sample `k` starts. */
  ghost function Start(b: seq<Byte>, a: Agent, samples: seq<Sample>, maxHeader: nat, k: nat): nat
    requires Carries(b, a, samples, maxHeader) && k <= |samples|
  {
    PrefixBuilt(a, samples, maxHeader, k);
    7 + |FlowSamples(a, samples[..k], maxHeader).1.value| / 4
  }

  lemma PayloadAligned(a: Agent, samples: seq<Sample>, maxHeader: nat)
    requires FlowSamples(a, samples, maxHeader).1.Some?
    ensures |FlowSamples(a, samples, maxHeader).1.value| % 4 == 0
  {
    SamplesReadBack(a, samples, maxHeader);
  }

  /** Sample `k` is one chunk of the payload, behind the samples before it. */
  lemma ChunkAt(a: Agent, samples: seq<Sample>, maxHeader: nat, k: nat)
    requires FlowSamples(a, samples, maxHeader).1.Some? && k < |samples|
    ensures FlowSamples(a, samples[..k], maxHeader).1.Some? && FlowSamples(a, samples[..k + 1], maxHeader).1.Some?
    ensures var (ak, before) := FlowSamples(a, samples[..k], maxHeader);
            && |before.value| % 4 == 0
            && FlowSample(ak, samples[k], maxHeader).1.Some?
            && var chunk := FlowSample(ak, samples[k], maxHeader).1.value;
               && FlowSamples(a, samples[..k + 1], maxHeader).1.value == before.value + chunk
               && before.value + chunk <= FlowSamples(a, samples, maxHeader).1.value
               && (k + 1 == |samples| ==> before.value + chunk == FlowSamples(a, samples, maxHeader).1.value)
  {
    PrefixBuilt(a, samples, maxHeader, k);
    PrefixBuilt(a, samples, maxHeader, k + 1);
    PayloadAligned(a, samples[..k], maxHeader);
    hide FlowSample;
    assert samples[..k + 1][..k] == samples[..k];
    assert k + 1 == |samples| ==> samples[..k + 1] == samples;
  }

  /** Cutting a buffer at a chunk of its payload. */
  lemma CutAt(b: seq<Byte>, all: seq<Byte>, before: seq<Byte>, chunk: seq<Byte>) returns (rest: seq<Byte>)
    requires 28 <= |b| && b[28..] == all && before + chunk <= all && |before| % 4 == 0
    ensures var p := 7 + |before| / 4;
            && 4 * p <= |b| && b[4 * p..] == chunk + rest
            && (before + chunk == all ==> |b| == 4 * p + |chunk|)
  {
    rest := all[|before + chunk|..];
    assert all == before + chunk + rest;
    var p := 7 + |before| / 4;
    assert 4 * p == 28 + |before|;
    assert b[4 * p..] == b[28..][|before|..];
  }

  lemma SampleStarts(b: seq<Byte>, a: Agent, samples: seq<Sample>, maxHeader: nat, k: nat)
    requires Carries(b, a, samples, maxHeader) && k < |samples|
    ensures FlowSamples(a, samples[..k], maxHeader).1.Some?
    ensures var f := Captured(samples[k].frame, maxHeader);
            var a' := Counted(FlowSamples(a, samples[..k], maxHeader).0, samples[k].rate);
            var p := Start(b, a, samples, maxHeader, k);
            && Laid(b, p, SampleWords(a', samples[k], |f|)) && 4 * (p + 22) + |PadToWord(f)| <= |b|
            && PadToWord(f) <= View(b, p)
            && Start(b, a, samples, maxHeader, k + 1) == p + 22 + |PadToWord(f)| / 4
            && (k + 1 == |samples| ==> View(b, p) == PadToWord(f))
  {
    hide FlowSample, FlowSamples, SampleWords, Pack, PadToWord, Captured, Counted, Fits, PadLength;
    ChunkAt(a, samples, maxHeader, k);
    var (ak, before) := FlowSamples(a, samples[..k], maxHeader);
    var f := Captured(samples[k].frame, maxHeader);
    var chunk := FlowSample(ak, samples[k], maxHeader).1.value;
    SampleIsWords(ak, samples[k], maxHeader);
    var all := FlowSamples(a, samples, maxHeader).1.value;
    var rest := CutAt(b, all, before.value, chunk);
    var p := Start(b, a, samples, maxHeader, k);
    LaidOut(b, p, SampleWords(Counted(ak, samples[k].rate), samples[k], |f|), PadToWord(f), rest);
    hide Laid;
    Quarter(|before.value|, 22, |PadToWord(f)|);
    assert k + 1 == |samples| ==> rest == [];
  }

  lemma Quarter(x: nat, words: nat, y: nat)
    requires x % 4 == 0
    ensures (x + 4 * words + y) / 4 == x / 4 + words + y / 4
  {
  }

  /** What the kernel takes for the frame of sample `k`: the rest of the datagram from there on. */
  ghost function ViewOf(b: seq<Byte>, a: Agent, samples: seq<Sample>, maxHeader: nat, k: nat): seq<Byte>
    requires Carries(b, a, samples, maxHeader) && k < |samples|
  {
    SampleStarts(b, a, samples, maxHeader, k);
    View(b, Start(b, a, samples, maxHeader, k))
  }

  /**
   The kernel's answer said on bytes: from sample `k` on, each sample is read from its view, until one
   whose view does not hold what the kernel looks at, or one that is a fragment: from there the
   loop goes on inside that sample, with its remaining turns.
   */
  ghost function Expected(b: seq<Byte>, a: Agent, samples: seq<Sample>, maxHeader: nat, k: nat): Outcome
    requires Carries(b, a, samples, maxHeader) && k <= |samples|
    decreases |samples| - k
  {
    if k == |samples| then Walked([], Done)
    else
      var v := ViewOf(b, a, samples, maxHeader, k);
      if !Legible(v) then Walked([], Truncated)
      else
        var r, p := ReadingOf(samples[k], v), Start(b, a, samples, maxHeader, k);
        Prepend(r, if Fragment(v) then Walk(b, p + 6, p, |samples| - k - 1) else Expected(b, a, samples, maxHeader, k + 1))
  }

  lemma StartIsPositive(b: seq<Byte>, a: Agent, samples: seq<Sample>, maxHeader: nat, m: nat)
    requires Carries(b, a, samples, maxHeader) && m <= |samples|
    ensures Start(b, a, samples, maxHeader, m) >= 7
    ensures m == 0 ==> Start(b, a, samples, maxHeader, m) == 7
  {
  }

  lemma FirstWordIsType(b: seq<Byte>, p: nat, a': Agent, s: Sample, captured: nat)
    requires Laid(b, p, SampleWords(a', s, captured))
    ensures 4 * p + 4 <= |b| && WordAt(b, p) == SAMPLE_TYPE_FLOW && p + 22 <= |b| / 4
  {
    hide WordAt;
    assert WordAt(b, p + 0) == SampleWords(a', s, captured)[0];
  }

  lemma WalkOne(b: seq<Byte>, a: Agent, samples: seq<Sample>, maxHeader: nat, m: nat)
    requires Carries(b, a, samples, maxHeader) && m < |samples|
    ensures var p := Start(b, a, samples, maxHeader, m);
            var v := ViewOf(b, a, samples, maxHeader, m);
            && p < Start(b, a, samples, maxHeader, m + 1)
            && p + 22 <= |b| / 4 && WordAt(b, p) == SAMPLE_TYPE_FLOW
            && ReadFlow(b, p) ==
               if !Legible(v) then None
               else Some((ReadingOf(samples[m], v), if Fragment(v) then p + 6 else Start(b, a, samples, maxHeader, m + 1)))
  {
    hide Carries, Start, Laid, ReadFlow, ReadingOf, Fragment, FlowSamples, Counted, Captured, PadToWord, Legible, WordAt;
    SampleStarts(b, a, samples, maxHeader, m);
    var s := samples[m];
    var f := Captured(s.frame, maxHeader);
    var a' := Counted(FlowSamples(a, samples[..m], maxHeader).0, s.rate);
    var p := Start(b, a, samples, maxHeader, m);
    FirstWordIsType(b, p, a', s, |f|);
    ReadsSample(b, p, a', s, f);
  }

  lemma WalkStep(b: seq<Byte>, p: nat, previous: nat, count: nat)
    requires count > 0 && previous < p && p + 1 < |b| / 4 && WordAt(b, p) == SAMPLE_TYPE_FLOW
    ensures Walk(b, p, previous, count) ==
              if ReadFlow(b, p).None? then Walked([], Truncated)
              else Prepend(ReadFlow(b, p).value.0, Walk(b, ReadFlow(b, p).value.1, p, count - 1))
  {
    hide ReadFlow, WordAt;
  }

  lemma {:induction false} WalkFrom(b: seq<Byte>, a: Agent, samples: seq<Sample>, maxHeader: nat, m: nat, previous: nat)
    requires Carries(b, a, samples, maxHeader) && m <= |samples| && previous < Start(b, a, samples, maxHeader, m)
    ensures Walk(b, Start(b, a, samples, maxHeader, m), previous, |samples| - m) == Expected(b, a, samples, maxHeader, m)
    decreases |samples| - m
  {
    hide Carries, Start, ReadFlow, ReadingOf, Fragment, WordAt, Legible, ViewOf, Prepend;
    if m < |samples| {
      var p := Start(b, a, samples, maxHeader, m);
      WalkOne(b, a, samples, maxHeader, m);
      WalkStep(b, p, previous, |samples| - m);
      WalkFrom(b, a, samples, maxHeader, m + 1, p);
    }
  }

  lemma {:induction false} SamplesTakeRoom(b: seq<Byte>, a: Agent, samples: seq<Sample>, maxHeader: nat, m: nat)
    requires Carries(b, a, samples, maxHeader) && m <= |samples|
    ensures 7 + 22 * m <= Start(b, a, samples, maxHeader, m) <= |b| / 4
  {
    if m == 0 {
      StartIsPositive(b, a, samples, maxHeader, 0);
    } else {
      SamplesTakeRoom(b, a, samples, maxHeader, m - 1);
      SampleStarts(b, a, samples, maxHeader, m - 1);
      hide Carries, Start, FlowSamples, Counted, Captured, PadToWord, SampleWords, Laid, View;
    }
  }

  /** The header checks pass and the loop starts at the first sample. */
  lemma HeaderAccepted(a: Agent, samples: seq<Sample>, uptime: int, maxHeader: nat, b: seq<Byte>)
    requires Datagram(a, samples, uptime, maxHeader).1 == Some(b) && |b| < WORD_LIMIT
    ensures Carries(b, Dated(a), samples, maxHeader)
    ensures HandlePacket(b) == Walk(b, 7, 0, |samples|)
  {
    var a1 := Dated(a);
    DatagramLayout(a, samples, uptime, maxHeader);
    DatagramRoundTrip(a, samples, uptime, maxHeader);
    hide Pack, Datagram, FlowSamples, WordAt, Walk, Decode, DescribesAll, CountedAll, Value, NextSequence;
    var payload := FlowSamples(a1, samples, maxHeader).1.value;
    var ws := HeaderWords(a, samples, uptime);
    assert b[28..] == payload;
    WordAtPack(ws, payload, 0);
    WordAtPack(ws, payload, 6);
    SamplesTakeRoom(b, a1, samples, maxHeader, |samples|);
    hide Carries, Start;
  }

  /** The agent as the samples of its next datagram see it. */
  function Dated(a: Agent): Agent { a.(datagramSequence := NextSequence(a.datagramSequence)) }

  /**
   For every datagram the emitter can build: the kernel accepts its header and reads each sample from its
   own fixed words and its view, up to the first view too short or the first fragment.
   */
  lemma KernelReads(a: Agent, samples: seq<Sample>, uptime: int, maxHeader: nat, b: seq<Byte>)
    requires Datagram(a, samples, uptime, maxHeader).1 == Some(b) && |b| < WORD_LIMIT
    ensures Carries(b, Dated(a), samples, maxHeader)
    ensures HandlePacket(b) == Expected(b, Dated(a), samples, maxHeader, 0)
  {
    hide HandlePacket, Datagram, Carries, Start, Dated, Expected, Walk;
    HeaderAccepted(a, samples, uptime, maxHeader, b);
    StartIsPositive(b, Dated(a), samples, maxHeader, 0);
    WalkFrom(b, Dated(a), samples, maxHeader, 0, 0);
  }

  /** The captured frame, padded, holds every byte the kernel looks at. */
  ghost predicate Clear(s: Sample, maxHeader: nat) {
    Legible(PadToWord(Captured(s.frame, maxHeader)))
  }

  ghost predicate AllClear(samples: seq<Sample>, maxHeader: nat) {
    forall i :: 0 <= i < |samples| ==> Clear(samples[i], maxHeader)
  }

  /** What the kernel should read of a sample: its own frame and nothing behind it. */
  ghost function OwnReading(s: Sample, maxHeader: nat): Reading
    requires Clear(s, maxHeader)
  {
    ReadingOf(s, PadToWord(Captured(s.frame, maxHeader)))
  }

  /** The sample's own frame is a fragment the kernel drops. */
  ghost predicate OwnFragment(s: Sample, maxHeader: nat)
    requires Clear(s, maxHeader)
  {
    Fragment(PadToWord(Captured(s.frame, maxHeader)))
  }

  ghost function Readings(samples: seq<Sample>, maxHeader: nat): (rs: seq<Reading>)
    requires AllClear(samples, maxHeader)
    ensures |rs| == |samples|
    decreases |samples|
  {
    if samples == [] then [] else
      assert Clear(samples[0], maxHeader);
      assert AllClear(samples[1..], maxHeader);
      [OwnReading(samples[0], maxHeader)] + Readings(samples[1..], maxHeader)
  }

  lemma ClearSampleIsItsOwn(b: seq<Byte>, a: Agent, samples: seq<Sample>, maxHeader: nat, k: nat)
    requires Carries(b, a, samples, maxHeader) && k < |samples|
    ensures var v := ViewOf(b, a, samples, maxHeader, k);
            && (Clear(samples[k], maxHeader) ==>
                  && Legible(v) && ReadingOf(samples[k], v) == OwnReading(samples[k], maxHeader)
                  && (Fragment(v) <==> OwnFragment(samples[k], maxHeader)))
            && (k + 1 == |samples| ==> (Legible(v) <==> Clear(samples[k], maxHeader)))
  {
    hide Carries, Start, ReadingOf, Fragment, Legible, Captured, PadToWord, View, Laid, SampleWords, Counted, FlowSamples;
    SampleStarts(b, a, samples, maxHeader, k);
    var g := PadToWord(Captured(samples[k].frame, maxHeader));
    if Clear(samples[k], maxHeader) {
      LongerViewSameReading(samples[k], g, ViewOf(b, a, samples, maxHeader, k));
    }
  }

  function PrependAll(rs: seq<Reading>, o: Outcome): Outcome {
    if o.Ignored? then o else Walked(rs + o.readings, o.ending)
  }

  lemma PrependOne(r: Reading, rs: seq<Reading>, o: Outcome)
    ensures Prepend(r, PrependAll(rs, o)) == PrependAll([r] + rs, o)
  {
    if o.Walked? {
      assert [r] + (rs + o.readings) == [r] + rs + o.readings;
    }
  }

  /** The sample is clear, and unless it is the last it is no fragment that the kernel drops. */
  ghost predicate Keeps(samples: seq<Sample>, maxHeader: nat, i: nat)
    requires i < |samples|
  {
    Clear(samples[i], maxHeader) && (i + 1 < |samples| ==> !OwnFragment(samples[i], maxHeader))
  }

  /** Up to sample `n` the answer is the samples' own readings, as long as the kernel keeps its place. */
  lemma {:induction false} ClearStretch(b: seq<Byte>, a: Agent, samples: seq<Sample>, maxHeader: nat, k: nat, n: nat)
    requires Carries(b, a, samples, maxHeader) && k <= n <= |samples| && AllClear(samples[k..n], maxHeader)
    requires forall i :: k <= i < n ==> Keeps(samples, maxHeader, i)
    ensures Expected(b, a, samples, maxHeader, k) ==
              PrependAll(Readings(samples[k..n], maxHeader), Expected(b, a, samples, maxHeader, n))
    decreases n - k
  {
    hide Carries, Start, ReadingOf, OwnReading, OwnFragment, Fragment, Legible, Captured, PadToWord, ViewOf, Clear;
    if k == n {
      assert samples[k..n] == [];
    } else {
      assert samples[k..n][0] == samples[k] && samples[k..n][1..] == samples[k + 1..n];
      var rest := samples[k + 1..n];
      assert forall i :: 0 <= i < |rest| ==> rest[i] == samples[k..n][i + 1];
      assert Keeps(samples, maxHeader, k);
      ClearSampleIsItsOwn(b, a, samples, maxHeader, k);
      KeptStep(b, a, samples, maxHeader, k);
      ClearStretch(b, a, samples, maxHeader, k + 1, n);
      hide Prepend, PrependAll, Expected;
      PrependOne(OwnReading(samples[k], maxHeader), Readings(rest, maxHeader), Expected(b, a, samples, maxHeader, n));
    }
  }

  /** The last sample may be a fragment: there is nothing behind it to lose. */
  lemma KeptStep(b: seq<Byte>, a: Agent, samples: seq<Sample>, maxHeader: nat, k: nat)
    requires Carries(b, a, samples, maxHeader) && k < |samples| && Legible(ViewOf(b, a, samples, maxHeader, k))
    requires k + 1 < |samples| ==> !Fragment(ViewOf(b, a, samples, maxHeader, k))
    ensures Expected(b, a, samples, maxHeader, k) ==
              Prepend(ReadingOf(samples[k], ViewOf(b, a, samples, maxHeader, k)), Expected(b, a, samples, maxHeader, k + 1))
  {
    hide Carries, Start, ReadingOf, Fragment, Legible, ViewOf, Prepend;
  }

  /**
   If every captured frame holds the bytes the kernel looks at, and none but perhaps the last is a
   fragment it drops, the kernel reads every sample's own ports, rate, original length, addresses
   and L4 fields, in order.
   */
  lemma KernelReadsEverySample(a: Agent, samples: seq<Sample>, uptime: int, maxHeader: nat, b: seq<Byte>)
    requires Datagram(a, samples, uptime, maxHeader).1 == Some(b) && |b| < WORD_LIMIT
    requires AllClear(samples, maxHeader) && forall i :: 0 <= i < |samples| ==> Keeps(samples, maxHeader, i)
    ensures HandlePacket(b) == Walked(Readings(samples, maxHeader), Done)
  {
    hide HandlePacket, Datagram, Carries, Readings, AllClear, Keeps, Dated;
    KernelReads(a, samples, uptime, maxHeader, b);
    assert samples[0..|samples|] == samples;
    ClearStretch(b, Dated(a), samples, maxHeader, 0, |samples|);
  }

  /** The last sample is lost exactly when its captured frame is too short, as long as the kernel gets there. */
  lemma LastSampleLostIff(a: Agent, samples: seq<Sample>, uptime: int, maxHeader: nat, b: seq<Byte>)
    requires Datagram(a, samples, uptime, maxHeader).1 == Some(b) && |b| < WORD_LIMIT
    requires samples != [] && AllClear(samples[..|samples| - 1], maxHeader)
    requires forall i :: 0 <= i < |samples| - 1 ==> Keeps(samples, maxHeader, i)
    ensures HandlePacket(b) == Walked(Readings(samples[..|samples| - 1], maxHeader), Truncated) <==>
              !Clear(samples[|samples| - 1], maxHeader)
  {
    hide HandlePacket, Datagram, Carries, Start, Readings, AllClear, Keeps, Dated, ReadingOf, Fragment, Legible, ViewOf, Clear;
    KernelReads(a, samples, uptime, maxHeader, b);
    var n := |samples| - 1;
    assert samples[0..n] == samples[..n];
    ClearStretch(b, Dated(a), samples, maxHeader, 0, n);
    ClearSampleIsItsOwn(b, Dated(a), samples, maxHeader, n);
    if Clear(samples[n], maxHeader) {
      KeptStep(b, Dated(a), samples, maxHeader, n);
    }
    assert Expected(b, Dated(a), samples, maxHeader, n + 1) == Walked([], Done);
  }

  // ---- losing the place ----------------------------------------------------------------------

  /** Six words into a sample stand its drop counter and its input port, taken for a type and a length. */
  lemma InsideASample(b: seq<Byte>, a: Agent, samples: seq<Sample>, maxHeader: nat, k: nat)
    requires Carries(b, a, samples, maxHeader) && k < |samples| && a.dropped == 0
    ensures var p := Start(b, a, samples, maxHeader, k);
            4 * p + 32 <= |b| && p + 8 < |b| / 4 && WordAt(b, p + 6) == 0 && WordAt(b, p + 7) == samples[k].ingress
  {
    hide Carries, Start, FlowSamples, Captured, PadToWord, View, Laid, WordAt, SampleWords, Encodable;
    SampleStarts(b, a, samples, maxHeader, k);
    SamplesBuiltIff(a, samples[..k], maxHeader);
    var s := samples[k];
    var a' := Counted(FlowSamples(a, samples[..k], maxHeader).0, s.rate);
    InsideWords(b, Start(b, a, samples, maxHeader, k), a', s, |Captured(s.frame, maxHeader)|);
  }

  lemma InsideWords(b: seq<Byte>, p: nat, a': Agent, s: Sample, captured: nat)
    requires Laid(b, p, SampleWords(a', s, captured))
    ensures 4 * p + 32 <= |b| && p + 8 < |b| / 4 && WordAt(b, p + 6) == a'.dropped && WordAt(b, p + 7) == s.ingress
  {
    hide WordAt, RawLength;
    var ws := SampleWords(a', s, captured);
    assert ws[6] == a'.dropped && ws[7] == s.ingress;
  }

  /**
   What a dropped fragment leads to: the loop's next turn takes the drop counter for an unknown type and
   the input port for its length. It breaks off for port 0, and otherwise jumps by the port number,
   having read nothing.
   */
  lemma AfterAFragment(b: seq<Byte>, a: Agent, samples: seq<Sample>, maxHeader: nat, k: nat, turns: nat)
    requires Carries(b, a, samples, maxHeader) && k < |samples| && a.dropped == 0 && turns > 0
    ensures var p := Start(b, a, samples, maxHeader, k);
            Walk(b, p + 6, p, turns) ==
              if samples[k].ingress == 0 then Walked([], UnknownType)
              else Walk(b, (p + 6 + samples[k].ingress / 4 + 2) % WORD_LIMIT, p + 6, turns - 1)
  {
    hide Carries, Start, WordAt, Walk;
    InsideASample(b, a, samples, maxHeader, k);
    var p := Start(b, a, samples, maxHeader, k);
    UnknownTurn(b, p + 6, p, turns);
  }

  lemma UnknownTurn(b: seq<Byte>, q: nat, previous: nat, turns: nat)
    requires turns > 0 && previous < q && q + 1 < |b| / 4 && WordAt(b, q) == 0
    ensures Walk(b, q, previous, turns) ==
              if WordAt(b, q + 1) == 0 then Walked([], UnknownType)
              else Walk(b, (q + WordAt(b, q + 1) / 4 + 2) % WORD_LIMIT, q, turns - 1)
  {
    hide WordAt, ReadFlow, ReadExpanded, HasCounters;
  }

  /** The view of sample `k` can be read, and unless it is the last it is no fragment that is dropped. */
  ghost predicate Steady(b: seq<Byte>, a: Agent, samples: seq<Sample>, maxHeader: nat, k: nat)
    requires Carries(b, a, samples, maxHeader) && k < |samples|
  {
    var v := ViewOf(b, a, samples, maxHeader, k);
    Legible(v) && (k + 1 < |samples| ==> !Fragment(v))
  }

  lemma {:induction false} ReadingsCountIff(b: seq<Byte>, a: Agent, samples: seq<Sample>, maxHeader: nat, m: nat)
    requires Carries(b, a, samples, maxHeader) && m <= |samples| && a.dropped == 0
    ensures Expected(b, a, samples, maxHeader, m).Walked?
    ensures |Expected(b, a, samples, maxHeader, m).readings| <= |samples| - m
    ensures |Expected(b, a, samples, maxHeader, m).readings| == |samples| - m <==>
              forall k :: m <= k < |samples| ==> Steady(b, a, samples, maxHeader, k)
    decreases |samples| - m
  {
    hide Carries, Expected, Steady;
    if m == |samples| {
      NothingLeft(b, a, samples, maxHeader);
    } else {
      ReadingsCountIff(b, a, samples, maxHeader, m + 1);
      ReadingsStep(b, a, samples, maxHeader, m);
    }
  }

  lemma NothingLeft(b: seq<Byte>, a: Agent, samples: seq<Sample>, maxHeader: nat)
    requires Carries(b, a, samples, maxHeader)
    ensures Expected(b, a, samples, maxHeader, |samples|) == Walked([], Done)
  {
  }

  lemma ReadingsStep(b: seq<Byte>, a: Agent, samples: seq<Sample>, maxHeader: nat, m: nat)
    requires Carries(b, a, samples, maxHeader) && m < |samples| && a.dropped == 0
    requires Expected(b, a, samples, maxHeader, m + 1).Walked?
    ensures var o := Expected(b, a, samples, maxHeader, m);
            && o.Walked?
            && if Steady(b, a, samples, maxHeader, m)
               then |o.readings| == 1 + |Expected(b, a, samples, maxHeader, m + 1).readings|
               else |o.readings| < |samples| - m
  {
    hide Carries, Start, ReadingOf, Fragment, Legible, ViewOf, Walk;
    if Legible(ViewOf(b, a, samples, maxHeader, m)) {
      if Steady(b, a, samples, maxHeader, m) {
        KeptStep(b, a, samples, maxHeader, m);
      } else {
        AfterAFragment(b, a, samples, maxHeader, m, |samples| - m - 1);
      }
    }
  }

  /**
   The kernel gets one reading from each sample of a datagram if and only if every sample can be read from
   what stands there and none but perhaps the last is a fragment it drops.
   */
  lemma KernelReadsAllIff(a: Agent, samples: seq<Sample>, uptime: int, maxHeader: nat, b: seq<Byte>)
    requires Datagram(a, samples, uptime, maxHeader).1 == Some(b) && |b| < WORD_LIMIT && a.dropped == 0
    ensures Carries(b, Dated(a), samples, maxHeader) && HandlePacket(b).Walked?
    ensures |HandlePacket(b).readings| == |samples| <==>
              forall k :: 0 <= k < |samples| ==> Steady(b, Dated(a), samples, maxHeader, k)
  {
    assert Dated(a).dropped == 0;
    hide HandlePacket, Datagram, Carries, Dated, Steady, Expected;
    KernelReads(a, samples, uptime, maxHeader, b);
    ReadingsCountIff(b, Dated(a), samples, maxHeader, 0);
  }

  /**
   For frames that hold what the kernel looks at: it reads every sample, and each sample's own frame, if and
   only if no sample but the last is a non-first fragment of TCP, UDP or ICMP.
   */
  lemma KernelKeepsItsPlaceIff(a: Agent, samples: seq<Sample>, uptime: int, maxHeader: nat, b: seq<Byte>)
    requires Datagram(a, samples, uptime, maxHeader).1 == Some(b) && |b| < WORD_LIMIT && a.dropped == 0
    requires AllClear(samples, maxHeader)
    ensures HandlePacket(b) == Walked(Readings(samples, maxHeader), Done) <==>
              forall i :: 0 <= i < |samples| - 1 ==>
                assert Clear(samples[i], maxHeader);
                var f := PadToWord(Captured(samples[i].frame, maxHeader));
                !(EtherType(f) == 0x0800 && f[23] in {1, 6, 17} && Value(f[20..22]) % 0x2000 != 0)
  {
    PlaceKeptIff(a, samples, uptime, maxHeader, b);
    hide HandlePacket, Datagram, Readings, Legible, PadToWord, Captured, EtherType, Value;
    forall i | 0 <= i < |samples| ensures Clear(samples[i], maxHeader) {
    }
  }

  lemma PlaceKeptIff(a: Agent, samples: seq<Sample>, uptime: int, maxHeader: nat, b: seq<Byte>)
    requires Datagram(a, samples, uptime, maxHeader).1 == Some(b) && |b| < WORD_LIMIT && a.dropped == 0
    requires AllClear(samples, maxHeader)
    ensures HandlePacket(b) == Walked(Readings(samples, maxHeader), Done) <==>
              forall i :: 0 <= i < |samples| - 1 ==> !OwnFragment(samples[i], maxHeader)
  {
    KernelReadsAllIff(a, samples, uptime, maxHeader, b);
    hide HandlePacket, Datagram, Carries, Dated, Readings, ReadingOf, Fragment, Legible, ViewOf, OwnReading, OwnFragment;
    if forall i :: 0 <= i < |samples| - 1 ==> !OwnFragment(samples[i], maxHeader) {
      KernelReadsEverySample(a, samples, uptime, maxHeader, b);
    } else {
      var i :| 0 <= i < |samples| - 1 && OwnFragment(samples[i], maxHeader);
      ClearSampleIsItsOwn(b, Dated(a), samples, maxHeader, i);
      assert !Steady(b, Dated(a), samples, maxHeader, i);
    }
  }

  /** A later piece of a UDP packet, offset 185 * 8 bytes. */
  const FRAGMENT: seq<Byte> := seq(40, (i: nat) => FragmentByte(i))

  /** An IPv4 type field, a fragment offset and the UDP protocol number; everything else is zero. */
  function FragmentByte(i: nat): Byte { if i == 12 then 8 else if i == 21 then 185 else if i == 23 then 17 else 0 }

  const TWO_FRAGMENTS := [Sample(1, 2, 1514, 256, FRAGMENT), Sample(1, 2, 1514, 256, FRAGMENT)]

  /** Two sampled fragments in one datagram: the kernel drops the first and never reads the second. */
  lemma TwoFragmentsLoseOne(b: seq<Byte>)
    requires Datagram(Agent(Some([10, 0, 0, 1]), 0, 0, 0, 0, 0), TWO_FRAGMENTS, 0, 128).1 == Some(b) && |b| < WORD_LIMIT
    ensures AllClear(TWO_FRAGMENTS, 128) && OwnFragment(TWO_FRAGMENTS[0], 128)
    ensures HandlePacket(b).Walked? && |HandlePacket(b).readings| < 2
  {
    FragmentIsDropped();
    assert Dated(Agent(Some([10, 0, 0, 1]), 0, 0, 0, 0, 0)).dropped == 0;
    hide HandlePacket, Datagram, Carries, Dated, ReadingOf, Fragment, Legible, ViewOf, OwnReading, OwnFragment, Clear;
    var a := Agent(Some([10, 0, 0, 1]), 0, 0, 0, 0, 0);
    KernelReadsAllIff(a, TWO_FRAGMENTS, 0, 128, b);
    KernelReads(a, TWO_FRAGMENTS, 0, 128, b);
    ReadingsCountIff(b, Dated(a), TWO_FRAGMENTS, 128, 0);
    ClearSampleIsItsOwn(b, Dated(a), TWO_FRAGMENTS, 128, 0);
    assert !Steady(b, Dated(a), TWO_FRAGMENTS, 128, 0);
  }

  /** The emitter does send them together. */
  lemma TwoFragmentsAreSent()
    ensures Datagram(Agent(Some([10, 0, 0, 1]), 0, 0, 0, 0, 0), TWO_FRAGMENTS, 0, 128).1.Some?
  {
    assert Captured(FRAGMENT, 128) == FRAGMENT;
    hide Datagram;
    DatagramBuiltIff(Agent(Some([10, 0, 0, 1]), 0, 0, 0, 0, 0), TWO_FRAGMENTS, 0, 128);
  }

  lemma FragmentIsDropped()
    ensures AllClear(TWO_FRAGMENTS, 128) && OwnFragment(TWO_FRAGMENTS[0], 128)
  {
    assert PadToWord(FRAGMENT) == FRAGMENT && Captured(FRAGMENT, 128) == FRAGMENT;
    ValueOfTwo(FRAGMENT[12..14]);
    ValueOfTwo(FRAGMENT[20..22]);
    hide Value;
    assert FRAGMENT[12] == 8 && FRAGMENT[13] == 0 && FRAGMENT[20] == 0 && FRAGMENT[21] == 185 && FRAGMENT[23] == 17;
  }
}
