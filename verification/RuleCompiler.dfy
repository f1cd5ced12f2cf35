/**
 OpenFlow rules compiled to P4 table entries and rendered back as Ryu flow statistics. A match and a
 rendered rule are the same kind of thing, so one meaning serves both ends: what a caller asked for,
 what the pipeline does and what the kernel is told all agree.
 */
module RuleCompiler {
  import opened Common
  import opened Bytes

  // ---- matches -------------------------------------------------------------------------------

  datatype Field =
    | InPort | NwSrc | Ipv4Src | NwDst | Ipv4Dst | NwProto | IpProto
    | TpSrc | TcpSrc | UdpSrc | TpDst | TcpDst | UdpDst
    | DlType | EthType | Unknown(name: string)

  /** The six ternary keys of the 5-tuple table. */
  datatype Key = IngressPort | SrcAddr | DstAddr | Protocol | L4Src | L4Dst

  /** A number, a decimal or hexadecimal numeral, a dotted quad, or something none of these. */
  datatype Operand = Num(n: int) | Numeral(n: int) | Hex(n: int) | Dotted(ip: Ip4) | Unreadable(truthy: bool)

  type Match = map<Field, Operand>

  /** An IPv4 packet as the tables see it. */
  datatype Packet = Packet(ingress: nat, src: nat, dst: nat, proto: nat, l4Src: nat, l4Dst: nat)

  const IPV4 := 0x0800

  function KeyOf(f: Field): Option<Key> {
    match f
    case InPort => Some(IngressPort)
    case NwSrc => Some(SrcAddr)
    case Ipv4Src => Some(SrcAddr)
    case NwDst => Some(DstAddr)
    case Ipv4Dst => Some(DstAddr)
    case NwProto => Some(Protocol)
    case IpProto => Some(Protocol)
    case TpSrc => Some(L4Src)
    case TcpSrc => Some(L4Src)
    case UdpSrc => Some(L4Src)
    case TpDst => Some(L4Dst)
    case TcpDst => Some(L4Dst)
    case UdpDst => Some(L4Dst)
    case _ => None
  }

  predicate IsDst(f: Field) { f.NwDst? || f.Ipv4Dst? }
  predicate IsEthType(f: Field) { f.DlType? || f.EthType? }

  function At(p: Packet, k: Key): nat {
    match k
    case IngressPort => p.ingress
    case SrcAddr => p.src
    case DstAddr => p.dst
    case Protocol => p.proto
    case L4Src => p.l4Src
    case L4Dst => p.l4Dst
  }

  function Bits(k: Key): nat {
    match k
    case IngressPort => 9
    case SrcAddr => 32
    case DstAddr => 32
    case Protocol => 8
    case L4Src => 16
    case L4Dst => 16
  }

  function Width(k: Key): nat { (Bits(k) + 7) / 8 }

  function Pow2(n: nat): nat { if n == 0 then 1 else 2 * Pow2(n - 1) }

  /** Every field of the packet fits its key. */
  ghost predicate Fitting(p: Packet) {
    forall k :: At(p, k) < Pow2(Bits(k))
  }

  /** What a value says, read as a key. */
  function Meaning(v: Operand): Option<int> {
    match v
    case Num(n) => Some(n)
    case Numeral(n) => Some(n)
    case Dotted(ip) => Some(Value(ip))
    case Hex(n) => Some(n)
    case Unreadable(_) => None
  }

  function EthTypeOf(v: Operand): Option<int> {
    match v
    case Num(n) => Some(n)
    case Numeral(n) => Some(n)
    case Hex(n) => Some(n)
    case Dotted(_) => None
    case Unreadable(_) => None
  }

  predicate Holds(f: Field, v: Operand, p: Packet) {
    if KeyOf(f).Some? then Meaning(v) == Some(At(p, KeyOf(f).value))
    else IsEthType(f) && EthTypeOf(v) == Some(IPV4)
  }

  /** The meaning of a match, whoever wrote it: every named field holds. */
  ghost predicate Asks(m: Match, p: Packet) {
    forall f :: f in m ==> Holds(f, m[f], p)
  }

  // ---- compiling -----------------------------------------------------------------------------

  predicate Supported(m: Match) {
    forall f :: f in m ==> KeyOf(f).Some? || (IsEthType(f) && EthTypeOf(m[f]) == Some(IPV4))
  }

  predicate NeedsFiveTuple(m: Match) {
    exists f :: f in m && KeyOf(f).Some? && !IsDst(f)
  }

  function P4Priority(openflow: Option<int>): (r: nat)
    ensures r >= 1
  {
    var of := if openflow.Some? then openflow.value else 0;
    (if of > 0 then of else 0) + 1
  }

  /** No key is named twice with different values. */
  ghost predicate Consistent(m: Match) {
    forall f, g :: f in m && g in m && KeyOf(f).Some? && KeyOf(f) == KeyOf(g) ==> m[f] == m[g]
  }

  /** `keys` holds exactly the keys the fields in `seen` name, with their values. */
  ghost predicate Collected(m: Match, seen: set<Field>, keys: map<Key, Operand>) {
    && (forall f :: f in seen && f in m && KeyOf(f).Some? ==> KeyOf(f).value in keys && keys[KeyOf(f).value] == m[f])
    && (forall k :: k in keys ==> exists f :: f in seen && f in m && KeyOf(f) == Some(k))
  }

  /** Spellings collapse onto one key each; a contradiction is refused. */
  method FiveTupleKeys(m: Match) returns (r: Option<map<Key, Operand>>)
    ensures r.Some? <==> Consistent(m)
    ensures r.Some? ==> Collected(m, m.Keys, r.value)
  {
    var keys: map<Key, Operand> := map[];
    var left := m.Keys;
    while left != {}
      invariant left <= m.Keys && Collected(m, m.Keys - left, keys)
      decreases |left|
    {
      var f :| f in left;
      var k := KeyOf(f);
      if k.Some? && k.value in keys && keys[k.value] != m[f] {
        assert !Consistent(m);
        return None;
      }
      CollectedMore(m, m.Keys - left, keys, f);
      assert m.Keys - left + {f} == m.Keys - (left - {f});
      if k.Some? {
        keys := keys[k.value := m[f]];
      }
      left := left - {f};
    }
    assert m.Keys - {} == m.Keys;
    r := Some(keys);
  }

  lemma CollectedMore(m: Match, seen: set<Field>, keys: map<Key, Operand>, f: Field)
    requires Collected(m, seen, keys) && f in m && f !in seen
    requires KeyOf(f).Some? && KeyOf(f).value in keys ==> keys[KeyOf(f).value] == m[f]
    ensures Collected(m, seen + {f}, if KeyOf(f).Some? then keys[KeyOf(f).value := m[f]] else keys)
  {
  }

  /** One key's value as bytes of the key's width; absent when it does not fit. */
  function Encode(k: Key, v: Operand): (r: Option<seq<Byte>>)
    ensures r.Some? ==> |r.value| == Width(k) && Meaning(v) == Some(Value(r.value)) && Value(r.value) < Pow2(Bits(k))
  {
    Sizes(k);
    match v
    case Dotted(ip) => if Width(k) == 4 then AddressFits(ip); Some(ip) else None
    case Num(n) => if 0 <= n < Pow2(Bits(k)) then Some(ToBytes(n, Width(k))) else None
    case Numeral(n) => if 0 <= n < Pow2(Bits(k)) then Some(ToBytes(n, Width(k))) else None
    case Hex(_) => None
    case Unreadable(_) => None
  }

  /** All ones over the key's own bits, in the key's bytes. */
  function FullMask(k: Key): (r: seq<Byte>)
    ensures |r| == Width(k) && Value(r) == Pow2(Bits(k)) - 1
  {
    Sizes(k);
    ToBytes(Pow2(Bits(k)) - 1, Width(k))
  }

  lemma Powers()
    ensures Pow2(8) == 256 && Pow2(9) == 512 && Pow2(16) == 65536 && Pow2(32) == 0x1_0000_0000
  {
    assert Pow2(12) == 4096;
    assert Pow2(16) == 65536;
    assert Pow2(20) == 1048576;
    assert Pow2(24) == 16777216;
    assert Pow2(28) == 268435456;
  }

  lemma Sizes(k: Key)
    ensures 0 < Pow2(Bits(k)) <= Pow256(Width(k))
    ensures Width(k) == 4 <==> Bits(k) == 32
    ensures Pow2(32) == Pow256(4)
  {
    assert Pow2(8) == 256;
    assert Pow2(9) == 512;
    assert Pow2(16) == 65536 by {
      assert Pow2(12) == 4096;
    }
    assert Pow2(24) == 16777216 by {
      assert Pow2(20) == 1048576;
    }
    assert Pow2(32) == 4294967296 by {
      assert Pow2(28) == 268435456;
    }
    assert Pow256(1) == 256 && Pow256(2) == 65536 && Pow256(3) == 16777216 && Pow256(4) == 4294967296;
  }

  lemma AddressFits(ip: Ip4)
    ensures Value(ip) < Pow2(32)
  {
    ValueBound(ip);
    Sizes(SrcAddr);
  }

  // ---- entries -------------------------------------------------------------------------------

  datatype Ternary = Ternary(value: seq<Byte>, mask: seq<Byte>)
  datatype TernaryEntry = TernaryEntry(fields: map<Key, Ternary>, priority: nat)

  datatype Compiled = Refused | FiveTuple(entry: TernaryEntry, port: nat) | Lpm(ip: Ip4, port: nat)

  const PORT_LIMIT := 512
  const PRIORITY_LIMIT := 0x8000_0000

  function Built(keys: map<Key, Operand>, priority: nat): Option<TernaryEntry> {
    if forall k :: k in keys ==> Encode(k, keys[k]).Some? then
      Some(TernaryEntry(map k | k in keys :: Ternary(Encode(k, keys[k]).value, FullMask(k)), priority))
    else None
  }

  method BuildEntry(keys: map<Key, Operand>, priority: nat) returns (r: Option<TernaryEntry>)
    ensures r == Built(keys, priority)
  {
    var fields: map<Key, Ternary> := map[];
    var left := keys.Keys;
    while left != {}
      invariant left <= keys.Keys && fields.Keys == keys.Keys - left
      invariant forall k :: k in fields ==> Encode(k, keys[k]).Some? && fields[k] == Ternary(Encode(k, keys[k]).value, FullMask(k))
      decreases |left|
    {
      hide Encode, FullMask;
      var k :| k in left;
      var raw := Encode(k, keys[k]);
      if raw.None? {
        return None;
      }
      fields := fields[k := Ternary(raw.value, FullMask(k))];
      left := left - {k};
    }
    hide Encode, FullMask;
    assert fields == map k | k in keys :: Ternary(Encode(k, keys[k]).value, FullMask(k));
    r := Some(TernaryEntry(fields, priority));
  }

  predicate Truthy(v: Operand) {
    match v
    case Num(n) => n != 0
    case Unreadable(t) => t
    case Numeral(_) => true
    case Hex(_) => true
    case Dotted(_) => true
  }

  /** `nw_dst or ipv4_dst`: the first that is present and not empty or zero. */
  function Destination(m: Match): Option<Operand> {
    if NwDst in m && Truthy(m[NwDst]) then Some(m[NwDst])
    else if Ipv4Dst in m && Truthy(m[Ipv4Dst]) then Some(m[Ipv4Dst]) else None
  }

  /** Text as an address, decimal and hexadecimal numerals included; a number is a type error here. */
  function ToAddress(v: Operand): (r: Option<Ip4>)
    ensures r.Some? ==> Meaning(v) == Some(Value(r.value))
  {
    Sizes(DstAddr);
    match v
    case Dotted(ip) => Some(ip)
    case Numeral(n) => if 0 <= n < Pow2(32) then Some(ToBytes(n, 4)) else None
    case Hex(n) => if 0 <= n < Pow2(32) then Some(ToBytes(n, 4)) else None
    case Num(_) => None
    case Unreadable(_) => None
  }

  /** The match can be written as a 5-tuple entry. */
  ghost predicate Encodes(m: Match) {
    NeedsFiveTuple(m) && Consistent(m) && forall f :: f in m && KeyOf(f).Some? ==> Encode(KeyOf(f).value, m[f]).Some?
  }

  /** What is accepted for the 5-tuple table, whose priority is a signed 32-bit field, and for the destination table. */
  ghost predicate FiveTupleAccepted(m: Match, priority: Option<int>) {
    Encodes(m) && P4Priority(priority) < PRIORITY_LIMIT
  }

  ghost predicate DestinationAccepted(m: Match) {
    !NeedsFiveTuple(m) && Destination(m).Some? && ToAddress(Destination(m).value).Some?
  }

  /** An entry as the compiler writes it. */
  ghost predicate WellBuilt(e: TernaryEntry) {
    && e.priority >= 1 && e.fields.Keys != {}
    && forall k :: k in e.fields ==>
         && |e.fields[k].value| == Width(k) && Value(e.fields[k].value) < Pow2(Bits(k))
         && e.fields[k].mask == FullMask(k)
  }

  /** The packet has exactly the named values. */
  ghost predicate HasValues(e: TernaryEntry, p: Packet) {
    forall k :: k in e.fields ==> At(p, k) == Value(e.fields[k].value)
  }

  /** The keys a match names, each with its one value. */
  ghost function KeysOf(m: Match): (keys: map<Key, Operand>)
    requires Consistent(m)
    ensures Collected(m, m.Keys, keys)
  {
    map k | k in {IngressPort, SrcAddr, DstAddr, Protocol, L4Src, L4Dst} && exists f :: f in m && KeyOf(f) == Some(k)
      :: var f :| f in m && KeyOf(f) == Some(k); m[f]
  }

  lemma KeysAreUnique(m: Match, keys: map<Key, Operand>)
    requires Consistent(m) && Collected(m, m.Keys, keys)
    ensures keys == KeysOf(m)
  {
    var named := KeysOf(m);
    forall k | k in keys ensures k in named && named[k] == keys[k] {
      var f :| f in m && KeyOf(f) == Some(k);
    }
    forall k | k in named ensures k in keys {
      var f :| f in m && KeyOf(f) == Some(k);
    }
  }

  /** The 5-tuple entry a match and a priority stand for. */
  ghost function NamedEntry(m: Match, priority: Option<int>): TernaryEntry
    requires Supported(m) && Encodes(m)
  {
    EntryMeansMatch(m, KeysOf(m), P4Priority(priority));
    Built(KeysOf(m), P4Priority(priority)).value
  }

  /** The entry a match names, in whichever table; a delete needs no more than this. */
  datatype Target = Nowhere | InFive(entry: TernaryEntry) | InLpm(ip: Ip4)

  method CompileMatch(m: Match, priority: Option<int>) returns (t: Target)
    ensures t.Nowhere? <==> !(Supported(m) && (FiveTupleAccepted(m, priority) || DestinationAccepted(m)))
    ensures t.InFive? ==> WellBuilt(t.entry) && t.entry.priority == P4Priority(priority)
    ensures t.InFive? ==> forall p :: HasValues(t.entry, p) <==> Asks(m, p)
    ensures t.InFive? ==> Supported(m) && FiveTupleAccepted(m, priority) && t.entry == NamedEntry(m, priority)
    ensures t.InLpm? ==> DestinationAccepted(m) && t.ip == ToAddress(Destination(m).value).value
  {
    hide Encode, ToAddress;
    if !Supported(m) {
      return Nowhere;
    }
    if InPort in m && Encode(IngressPort, m[InPort]).None? {
      assert NeedsFiveTuple(m);
      return Nowhere;
    }
    if NeedsFiveTuple(m) {
      var keys := FiveTupleKeys(m);
      if keys.None? {
        return Nowhere;
      }
      var entry := BuildEntry(keys.value, P4Priority(priority));
      EntryMeansMatch(m, keys.value, P4Priority(priority));
      KeysAreUnique(m, keys.value);
      return if entry.None? || P4Priority(priority) >= PRIORITY_LIMIT then Nowhere else InFive(entry.value);
    }
    var dst := Destination(m);
    if dst.None? {
      return Nowhere;
    }
    var ip := ToAddress(dst.value);
    t := if ip.None? then Nowhere else InLpm(ip.value);
  }

  method CompileRule(m: Match, priority: Option<int>, output: Option<int>) returns (c: Compiled)
    ensures !c.Refused? <==>
              && Supported(m) && output.Some? && 0 <= output.value < PORT_LIMIT
              && (FiveTupleAccepted(m, priority) || DestinationAccepted(m))
    ensures !c.Refused? ==> output == Some(c.port)
    ensures c.FiveTuple? ==> WellBuilt(c.entry) && c.entry.priority == P4Priority(priority)
    ensures c.FiveTuple? ==> forall p :: HasValues(c.entry, p) <==> Asks(m, p)
    ensures c.FiveTuple? ==> Supported(m) && FiveTupleAccepted(m, priority) && c.entry == NamedEntry(m, priority)
    ensures c.Lpm? ==> DestinationAccepted(m) && c.ip == ToAddress(Destination(m).value).value
  {
    hide *;
    var t := CompileMatch(m, priority);
    if output.None? || output.value < 0 || output.value >= PORT_LIMIT {
      return Refused;
    }
    match t {
      case Nowhere => c := Refused;
      case InFive(entry) => c := FiveTuple(entry, output.value);
      case InLpm(ip) => c := Lpm(ip, output.value);
    }
  }

  /** Collapsing and encoding lose nothing: the entry asks for what the match asks for. */
  lemma EntryMeansMatch(m: Match, keys: map<Key, Operand>, priority: nat)
    requires Supported(m) && NeedsFiveTuple(m) && Consistent(m) && Collected(m, m.Keys, keys) && priority >= 1
    ensures Built(keys, priority).Some? <==> Encodes(m)
    ensures Built(keys, priority).Some? ==> WellBuilt(Built(keys, priority).value) && Built(keys, priority).value.priority == priority
    ensures Built(keys, priority).Some? ==> forall p :: HasValues(Built(keys, priority).value, p) <==> Asks(m, p)
  {
    hide Encode, FullMask, Asks, HasValues, Value;
    EncodedIff(m, keys);
    if Built(keys, priority).Some? {
      var e := Built(keys, priority).value;
      var f :| f in m && KeyOf(f).Some? && !IsDst(f);
      assert KeyOf(f).value in e.fields;
      forall p ensures HasValues(e, p) <==> Asks(m, p) {
        ValuesMeanMatch(m, keys, e, p);
      }
    }
  }

  lemma EncodedIff(m: Match, keys: map<Key, Operand>)
    requires Collected(m, m.Keys, keys)
    ensures (forall k :: k in keys ==> Encode(k, keys[k]).Some?) <==>
              (forall f :: f in m && KeyOf(f).Some? ==> Encode(KeyOf(f).value, m[f]).Some?)
  {
    hide Encode;
  }

  lemma ValuesMeanMatch(m: Match, keys: map<Key, Operand>, e: TernaryEntry, p: Packet)
    requires Supported(m) && Collected(m, m.Keys, keys) && e.fields.Keys == keys.Keys
    requires forall k :: k in keys ==> Meaning(keys[k]) == Some(Value(e.fields[k].value))
    ensures HasValues(e, p) <==> Asks(m, p)
  {
    hide Value, Meaning, At;
    if HasValues(e, p) {
      forall f | f in m ensures Holds(f, m[f], p) {
      }
    }
    if Asks(m, p) {
      forall k | k in e.fields ensures At(p, k) == Value(e.fields[k].value) {
        var f :| f in m && KeyOf(f) == Some(k);
        assert Holds(f, m[f], p);
      }
    }
  }

  /**
   On the destination path only one of the two spellings is used, so the entry asks for what the match
   asks for exactly when every destination the match names says the same.
   */
  lemma DestinationMeansMatchIff(m: Match)
    requires Supported(m) && DestinationAccepted(m)
    ensures var ip := ToAddress(Destination(m).value).value;
            (forall p: Packet :: p.dst == Value(ip) <==> Asks(m, p)) <==>
            (forall f :: f in m && IsDst(f) ==> Meaning(m[f]) == Some(Value(ip)))
  {
    var ip := ToAddress(Destination(m).value).value;
    hide ToAddress, Value;
    assert forall f :: f in m ==> IsDst(f) || IsEthType(f);
    var used := if NwDst in m && Truthy(m[NwDst]) then NwDst else Ipv4Dst;
    assert used in m && Meaning(m[used]) == Some(Value(ip));
    var probe := Packet(0, 0, Value(ip), 0, 0, 0);
    if forall p: Packet :: p.dst == Value(ip) <==> Asks(m, p) {
      assert Asks(m, probe);
      forall f | f in m && IsDst(f) ensures Meaning(m[f]) == Some(Value(ip)) {
        assert Holds(f, m[f], probe);
      }
    }
    if forall f :: f in m && IsDst(f) ==> Meaning(m[f]) == Some(Value(ip)) {
      forall p: Packet ensures p.dst == Value(ip) <==> Asks(m, p) {
        if Asks(m, p) {
          assert Holds(used, m[used], p);
        }
      }
    }
  }

  /** The failing family is not empty: two destinations, one of them silently dropped. */
  lemma TwoDestinationsAreNotKept()
    ensures var m: Match := map[NwDst := Dotted([10, 0, 0, 1]), Ipv4Dst := Dotted([10, 0, 0, 2])];
            && Supported(m) && DestinationAccepted(m)
            && !(forall p: Packet :: p.dst == Value([10, 0, 0, 1]) <==> Asks(m, p))
  {
    var m: Match := map[NwDst := Dotted([10, 0, 0, 1]), Ipv4Dst := Dotted([10, 0, 0, 2])];
    assert Destination(m) == Some(m[NwDst]);
    DestinationMeansMatchIff(m);
    if Value([10, 0, 0, 2]) == Value([10, 0, 0, 1]) {
      ValueInjective([10, 0, 0, 2], [10, 0, 0, 1]);
    }
    hide Value;
    assert Meaning(m[Ipv4Dst]) == Some(Value([10, 0, 0, 2]));
  }

  // ---- spelled out, field by field -------------------------------------------------------------

  /** The operand, however written, says this number. */
  predicate Says(v: Operand, n: nat) {
    v == Num(n) || v == Numeral(n) || v == Hex(n) || (v.Dotted? && Value(v.ip) == n)
  }

  /** What each spelling asks of the packet's own fields. */
  predicate Wants(f: Field, v: Operand, p: Packet) {
    match f
    case InPort => Says(v, p.ingress)
    case NwSrc => Says(v, p.src)
    case Ipv4Src => Says(v, p.src)
    case NwDst => Says(v, p.dst)
    case Ipv4Dst => Says(v, p.dst)
    case NwProto => Says(v, p.proto)
    case IpProto => Says(v, p.proto)
    case TpSrc => Says(v, p.l4Src)
    case TcpSrc => Says(v, p.l4Src)
    case UdpSrc => Says(v, p.l4Src)
    case TpDst => Says(v, p.l4Dst)
    case TcpDst => Says(v, p.l4Dst)
    case UdpDst => Says(v, p.l4Dst)
    case DlType => v == Num(0x0800) || v == Numeral(0x0800) || v == Hex(0x0800)
    case EthType => v == Num(0x0800) || v == Numeral(0x0800) || v == Hex(0x0800)
    case Unknown(_) => false
  }

  lemma HoldsMeans(f: Field, v: Operand, p: Packet)
    ensures Holds(f, v, p) <==> Wants(f, v, p)
  {
    hide Value;
  }

  /** A match asks for a packet exactly when each of its fields wants the packet's own value. */
  lemma AsksMeans(m: Match, p: Packet)
    ensures Asks(m, p) <==> forall f :: f in m ==> Wants(f, m[f], p)
  {
    hide Holds, Wants;
    forall f | f in m ensures Holds(f, m[f], p) <==> Wants(f, m[f], p) {
      HoldsMeans(f, m[f], p);
    }
  }

  lemma AsksOne(f: Field, v: Operand, p: Packet)
    ensures Asks(map[f := v], p) <==> Wants(f, v, p)
  {
    var m: Match := map[f := v];
    AsksMeans(m, p);
    hide Asks, Wants;
    assert f in m && m[f] == v;
  }

  /** The thirteen spellings, one by one. */
  lemma SpellingsMean(n: nat, p: Packet)
    ensures Asks(map[InPort := Num(n)], p) <==> p.ingress == n
    ensures Asks(map[NwSrc := Num(n)], p) <==> p.src == n
    ensures Asks(map[Ipv4Src := Num(n)], p) <==> p.src == n
    ensures Asks(map[NwDst := Num(n)], p) <==> p.dst == n
    ensures Asks(map[Ipv4Dst := Num(n)], p) <==> p.dst == n
    ensures Asks(map[NwProto := Num(n)], p) <==> p.proto == n
    ensures Asks(map[IpProto := Num(n)], p) <==> p.proto == n
    ensures Asks(map[TpSrc := Num(n)], p) <==> p.l4Src == n
    ensures Asks(map[TcpSrc := Num(n)], p) <==> p.l4Src == n
    ensures Asks(map[UdpSrc := Num(n)], p) <==> p.l4Src == n
    ensures Asks(map[TpDst := Num(n)], p) <==> p.l4Dst == n
    ensures Asks(map[TcpDst := Num(n)], p) <==> p.l4Dst == n
    ensures Asks(map[UdpDst := Num(n)], p) <==> p.l4Dst == n
  {
    hide Asks;
    AsksOne(InPort, Num(n), p);
    AsksOne(NwSrc, Num(n), p);
    AsksOne(Ipv4Src, Num(n), p);
    AsksOne(NwDst, Num(n), p);
    AsksOne(Ipv4Dst, Num(n), p);
    AsksOne(NwProto, Num(n), p);
    AsksOne(IpProto, Num(n), p);
    AsksOne(TpSrc, Num(n), p);
    AsksOne(TcpSrc, Num(n), p);
    AsksOne(UdpSrc, Num(n), p);
    AsksOne(TpDst, Num(n), p);
    AsksOne(TcpDst, Num(n), p);
    AsksOne(UdpDst, Num(n), p);
  }

  /** A number or decimal numeral below the limit. */
  predicate Below(v: Operand, limit: nat) { (v.Num? || v.Numeral?) && 0 <= v.n < limit }

  /** What can be written into each key: nine, 32, 32, 8, 16 and 16 bits, dotted quads for addresses only. */
  lemma EncodeIff(k: Key, v: Operand)
    ensures k.IngressPort? ==> (Encode(k, v).Some? <==> Below(v, 512))
    ensures k.SrcAddr? || k.DstAddr? ==> (Encode(k, v).Some? <==> v.Dotted? || Below(v, 0x1_0000_0000))
    ensures k.Protocol? ==> (Encode(k, v).Some? <==> Below(v, 256))
    ensures k.L4Src? || k.L4Dst? ==> (Encode(k, v).Some? <==> Below(v, 65536))
  {
    Powers();
    hide Pow2, Value, ToBytes;
  }

  /** The same for each spelling. */
  predicate FieldFits(f: Field, v: Operand) {
    match f
    case InPort => Below(v, 512)
    case NwSrc => v.Dotted? || Below(v, 0x1_0000_0000)
    case Ipv4Src => v.Dotted? || Below(v, 0x1_0000_0000)
    case NwDst => v.Dotted? || Below(v, 0x1_0000_0000)
    case Ipv4Dst => v.Dotted? || Below(v, 0x1_0000_0000)
    case NwProto => Below(v, 256)
    case IpProto => Below(v, 256)
    case TpSrc => Below(v, 65536)
    case TcpSrc => Below(v, 65536)
    case UdpSrc => Below(v, 65536)
    case TpDst => Below(v, 65536)
    case TcpDst => Below(v, 65536)
    case UdpDst => Below(v, 65536)
    case DlType => true
    case EthType => true
    case Unknown(_) => true
  }

  lemma FieldFitsIff(f: Field, v: Operand)
    ensures FieldFits(f, v) <==> (KeyOf(f).Some? ==> Encode(KeyOf(f).value, v).Some?)
  {
    hide Encode;
    if KeyOf(f).Some? {
      EncodeIff(KeyOf(f).value, v);
    }
  }

  /** Spellings of one field agree wherever a match uses two of them. */
  predicate Agree(m: Match, spellings: set<Field>) {
    forall f, g :: f in spellings && g in spellings && f in m && g in m ==> m[f] == m[g]
  }

  lemma ConsistentIff(m: Match)
    ensures Consistent(m) <==>
              && Agree(m, {NwSrc, Ipv4Src}) && Agree(m, {NwDst, Ipv4Dst}) && Agree(m, {NwProto, IpProto})
              && Agree(m, {TpSrc, TcpSrc, UdpSrc}) && Agree(m, {TpDst, TcpDst, UdpDst})
  {
    assert forall f, g :: f in m && g in m && Together(f, g) ==> KeyOf(f).Some? && KeyOf(f) == KeyOf(g);
    forall f, g | f in m && g in m && KeyOf(f).Some? && KeyOf(f) == KeyOf(g) ensures f == g || Together(f, g) {
      TogetherIff(f, g);
    }
    hide KeyOf;
  }

  /** Two spellings of one field. */
  predicate Together(f: Field, g: Field) {
    || (f in {NwSrc, Ipv4Src} && g in {NwSrc, Ipv4Src})
    || (f in {NwDst, Ipv4Dst} && g in {NwDst, Ipv4Dst})
    || (f in {NwProto, IpProto} && g in {NwProto, IpProto})
    || (f in {TpSrc, TcpSrc, UdpSrc} && g in {TpSrc, TcpSrc, UdpSrc})
    || (f in {TpDst, TcpDst, UdpDst} && g in {TpDst, TcpDst, UdpDst})
  }

  lemma TogetherIff(f: Field, g: Field)
    ensures f == g || ((KeyOf(f).Some? && KeyOf(f) == KeyOf(g)) <==> Together(f, g))
  {
  }

  /** A field no destination table can hold. */
  predicate BeyondDestination(f: Field) {
    f.InPort? || f.NwSrc? || f.Ipv4Src? || f.NwProto? || f.IpProto?
    || f.TpSrc? || f.TcpSrc? || f.UdpSrc? || f.TpDst? || f.TcpDst? || f.UdpDst?
  }

  /** Which matches go to the 5-tuple table and are accepted there. */
  lemma FiveTupleAcceptedIff(m: Match, priority: Option<int>)
    ensures FiveTupleAccepted(m, priority) <==>
              && (exists f :: f in m && BeyondDestination(f))
              && Agree(m, {NwSrc, Ipv4Src}) && Agree(m, {NwDst, Ipv4Dst}) && Agree(m, {NwProto, IpProto})
              && Agree(m, {TpSrc, TcpSrc, UdpSrc}) && Agree(m, {TpDst, TcpDst, UdpDst})
              && (forall f :: f in m ==> FieldFits(f, m[f]))
              && Clamped(priority) + 1 < 0x8000_0000
  {
    ConsistentIff(m);
    NeedsFiveTupleIff(m);
    hide Encode, FieldFits, Agree, Consistent, NeedsFiveTuple;
    forall f | f in m ensures FieldFits(f, m[f]) <==> (KeyOf(f).Some? ==> Encode(KeyOf(f).value, m[f]).Some?) {
      FieldFitsIff(f, m[f]);
    }
  }

  lemma NeedsFiveTupleIff(m: Match)
    ensures NeedsFiveTuple(m) <==> exists f :: f in m && BeyondDestination(f)
  {
    if f :| f in m && BeyondDestination(f) {
      assert KeyOf(f).Some? && !IsDst(f);
    }
    if f :| f in m && KeyOf(f).Some? && !IsDst(f) {
      assert BeyondDestination(f);
    }
  }

  /** Text that is an address: a dotted quad, or a numeral of 32 bits. */
  predicate IsAddress(v: Operand) { v.Dotted? || ((v.Numeral? || v.Hex?) && 0 <= v.n < 0x1_0000_0000) }

  /** Present, and neither zero nor empty. */
  predicate Given(m: Match, f: Field) { f in m && m[f] != Num(0) && m[f] != Unreadable(false) }

  /** Which matches go to the destination table and are accepted there. */
  lemma DestinationAcceptedIff(m: Match)
    ensures DestinationAccepted(m) <==>
              && (forall f :: f in m ==> !BeyondDestination(f))
              && (if Given(m, NwDst) then IsAddress(m[NwDst]) else Given(m, Ipv4Dst) && IsAddress(m[Ipv4Dst]))
  {
    NeedsFiveTupleIff(m);
    hide NeedsFiveTuple;
    forall v: Operand ensures ToAddress(v).Some? <==> IsAddress(v) {
      ToAddressIff(v);
    }
    hide ToAddress, IsAddress;
  }

  lemma ToAddressIff(v: Operand)
    ensures ToAddress(v).Some? <==> IsAddress(v)
  {
    Powers();
    hide Pow2, ToBytes, Value;
  }

  /** Which fields the pipeline can honour at all. */
  lemma SupportedIff(m: Match)
    ensures Supported(m) <==>
              && (forall f :: f in m ==> !f.Unknown?)
              && (forall f :: f in m && (f.DlType? || f.EthType?) ==> m[f] == Num(0x0800) || m[f] == Numeral(0x0800) || m[f] == Hex(0x0800))
  {
  }

  // ---- priorities ----------------------------------------------------------------------------

  /** The caller's priority as the compiler takes it: absent and negative ones count as zero. */
  function Clamped(priority: Option<int>): nat {
    if priority.Some? && priority.value > 0 then priority.value else 0
  }

  // ---- the pipeline --------------------------------------------------------------------------

  datatype Tables = Tables(five: map<TernaryEntry, nat>, lpm: map<Ip4, nat>)

  /** Bitwise and. */
  function And(a: nat, b: nat): nat {
    if a == 0 || b == 0 then 0 else 2 * And(a / 2, b / 2) + (if a % 2 == 1 && b % 2 == 1 then 1 else 0)
  }

  ghost predicate Hits(e: TernaryEntry, p: Packet) {
    forall k :: k in e.fields ==>
      And(At(p, k), Value(e.fields[k].mask)) == And(Value(e.fields[k].value), Value(e.fields[k].mask))
  }

  ghost predicate SomeHit(t: Tables, p: Packet) {
    exists e :: e in t.five && Hits(e, p)
  }

  /** `e` is a matching entry no other outranks. */
  ghost predicate Wins(t: Tables, p: Packet, e: TernaryEntry) {
    e in t.five && Hits(e, p) && forall e' :: e' in t.five && Hits(e', p) ==> e'.priority <= e.priority
  }

  /** The 5-tuple table first; on a miss the destination table; on a miss there the controller. */
  ghost predicate PipelinePicks(t: Tables, p: Packet, out: Option<nat>) {
    if SomeHit(t, p) then exists e :: Wins(t, p, e) && out == Some(t.five[e])
    else if exists ip :: ip in t.lpm && Value(ip) == p.dst then exists ip :: ip in t.lpm && Value(ip) == p.dst && out == Some(t.lpm[ip])
    else out == None
  }

  /** One binary digit off the end. */
  lemma AndHalves(a: nat, b: nat)
    requires a > 0 && b > 0
    ensures And(a, b) == 2 * And(a / 2, b / 2) + (if a % 2 == 1 && b % 2 == 1 then 1 else 0)
  {
  }

  lemma OnesHalve(bits: nat)
    requires bits > 0
    ensures Pow2(bits) - 1 == 2 * (Pow2(bits - 1) - 1) + 1 && Pow2(bits - 1) > 0
  {
    Pow2Positive(bits - 1);
  }

  lemma {:induction false} Pow2Positive(n: nat)
    ensures Pow2(n) > 0
  {
    if n > 0 {
      Pow2Positive(n - 1);
    }
  }

  lemma HalveOdd(x: int, h: int)
    requires x == 2 * h + 1
    ensures x / 2 == h && x % 2 == 1
  {
  }

  lemma {:induction false} AndWithOnes(a: nat, bits: nat)
    requires a < Pow2(bits)
    ensures Pow2(bits) > 0 && And(a, Pow2(bits) - 1) == a
  {
    Pow2Positive(bits);
    assert Pow2(0) == 1;
    if a > 0 {
      assert bits > 0;
      OnesHalve(bits);
      var ones, half := Pow2(bits) - 1, Pow2(bits - 1) - 1;
      hide Pow2, And;
      HalveOdd(ones, half);
      AndHalves(a, ones);
      assert a / 2 < Pow2(bits - 1);
      AndWithOnes(a / 2, bits - 1);
    } else {
      ZeroAnd(Pow2(bits) - 1);
    }
  }

  lemma ZeroAnd(b: nat)
    ensures And(0, b) == 0
  {
  }

  lemma FullMaskMatches(k: Key, value: nat, x: nat)
    requires value < Pow2(Bits(k)) && x < Pow2(Bits(k))
    ensures And(x, Value(FullMask(k))) == And(value, Value(FullMask(k))) <==> x == value
  {
    hide And, Pow2, Value, FullMask, Bits;
    AndWithOnes(x, Bits(k));
    AndWithOnes(value, Bits(k));
  }

  /** With full masks a ternary match is equality. */
  lemma HitsIsEquality(e: TernaryEntry, p: Packet)
    requires WellBuilt(e) && Fitting(p)
    ensures Hits(e, p) <==> HasValues(e, p)
  {
    hide And, Pow2, Value, FullMask, Bits, At;
    forall k | k in e.fields
      ensures And(At(p, k), Value(e.fields[k].mask)) == And(Value(e.fields[k].value), Value(e.fields[k].mask))
              <==> At(p, k) == Value(e.fields[k].value)
    {
      FullMaskMatches(k, Value(e.fields[k].value), At(p, k));
    }
  }

  /** The tables hold only what the compiler writes. */
  ghost predicate WellFormed(t: Tables) {
    && (forall e :: e in t.five ==> WellBuilt(e) && t.five[e] < PORT_LIMIT)
    && (forall ip :: ip in t.lpm ==> t.lpm[ip] < PORT_LIMIT)
  }

  // ---- rendering -----------------------------------------------------------------------------

  /** An entry as the switch reads it back: byte strings in canonical form. */
  datatype ReadEntry =
    | ReadFive(fields: map<Key, Ternary>, priority: nat, port: seq<Byte>)
    | ReadLpm(value: seq<Byte>, port: seq<Byte>)
    | ReadDefault

  function Canonical(t: Ternary): Ternary { Ternary(Strip(t.value), Strip(t.mask)) }

  function CanonicalFields(e: TernaryEntry): map<Key, Ternary> {
    map k | k in e.fields :: Canonical(e.fields[k])
  }

  function ReadBackFive(e: TernaryEntry, port: nat): ReadEntry
    requires port < PORT_LIMIT
  {
    assert Pow256(2) == 65536 by { assert Pow256(1) == 256; }
    ReadFive(CanonicalFields(e), e.priority, Strip(ToBytes(port, 2)))
  }

  function ReadBackLpm(ip: Ip4, port: nat): ReadEntry
    requires port < PORT_LIMIT
  {
    assert Pow256(2) == 65536 by { assert Pow256(1) == 256; }
    ReadLpm(Strip(ip), Strip(ToBytes(port, 2)))
  }

  datatype Rule = Rule(priority: nat, criteria: Match, port: nat)

  function RyuName(k: Key): Field {
    match k
    case IngressPort => InPort
    case SrcAddr => NwSrc
    case DstAddr => NwDst
    case Protocol => NwProto
    case L4Src => TpSrc
    case L4Dst => TpDst
  }

  function RyuAddress(b: seq<Byte>): Operand { Dotted(PadTo(b, 4)[..4]) }

  function RyuOperand(k: Key, b: seq<Byte>): Operand {
    if k.SrcAddr? || k.DstAddr? then RyuAddress(b) else Num(Value(b))
  }

  /** A rule that names an address, protocol or port says it is about IPv4. */
  function WithDlType(m: Match): Match {
    if NwDst in m || NwSrc in m || NwProto in m || TpSrc in m || TpDst in m then
      (if DlType in m then m else m[DlType := Num(IPV4)])
    else m
  }

  /** The criteria of the fields outside `left` whose mask is not zero. */
  ghost predicate Rendered(fields: map<Key, Ternary>, left: set<Key>, m: Match) {
    && (forall k :: k in fields && k !in left && Value(fields[k].mask) != 0 ==>
          RyuName(k) in m && m[RyuName(k)] == RyuOperand(k, fields[k].value))
    && (forall f :: f in m ==> (KeyOf(f).Some? && RyuName(KeyOf(f).value) == f && KeyOf(f).value in fields
                                && KeyOf(f).value !in left && Value(fields[KeyOf(f).value].mask) != 0))
  }

  method MatchToRyu(fields: map<Key, Ternary>) returns (m: Match)
    ensures m == RyuMatch(fields)
    ensures NwDst in m || NwSrc in m || NwProto in m || TpSrc in m || TpDst in m ==> DlType in m && m[DlType] == Num(0x0800)
    ensures DlType in m ==> NwDst in m || NwSrc in m || NwProto in m || TpSrc in m || TpDst in m
  {
    hide Value, RyuOperand, RyuName, Rendered, Concrete;
    NothingRendered(fields);
    m := map[];
    var left := fields.Keys;
    while left != {}
      invariant left <= fields.Keys && Rendered(fields, left, m)
      decreases |left|
    {
      var k :| k in left;
      RenderedMore(fields, left, m, k);
      if Value(fields[k].mask) != 0 {
        m := m[RyuName(k) := RyuOperand(k, fields[k].value)];
      }
      left := left - {k};
    }
    RenderedIsConcrete(fields, m);
    m := WithDlType(m);
  }

  lemma NothingRendered(fields: map<Key, Ternary>)
    ensures Rendered(fields, fields.Keys, map[])
  {
  }

  /** The key a rendered name stands for. */
  function KeyNamed(f: Field): (k: Option<Key>)
    ensures k == (if KeyOf(f).Some? && RyuName(KeyOf(f).value) == f then KeyOf(f) else None)
  {
    if f in {InPort, NwSrc, NwDst, NwProto, TpSrc, TpDst} then KeyOf(f) else None
  }

  function Concrete(fields: map<Key, Ternary>): Match {
    map f | f in {InPort, NwSrc, NwDst, NwProto, TpSrc, TpDst} && KeyNamed(f).Some?
            && KeyNamed(f).value in fields && Value(fields[KeyNamed(f).value].mask) != 0
      :: RyuOperand(KeyNamed(f).value, fields[KeyNamed(f).value].value)
  }

  /** Membership and contents of the rendered criteria. */
  lemma ConcreteHas(fields: map<Key, Ternary>, k: Key)
    ensures RyuName(k) in Concrete(fields) <==> k in fields && Value(fields[k].mask) != 0
    ensures RyuName(k) in Concrete(fields) ==> Concrete(fields)[RyuName(k)] == RyuOperand(k, fields[k].value)
  {
    hide Value, RyuOperand;
    assert KeyOf(RyuName(k)) == Some(k);
  }

  function RyuMatch(fields: map<Key, Ternary>): Match { WithDlType(Concrete(fields)) }

  /** The key is there and its mask does not wildcard it. */
  predicate Concerns(fields: map<Key, Ternary>, k: Key) {
    k in fields && Value(fields[k].mask) != 0
  }

  /** Which name each key is rendered under, and how: addresses as dotted quads, everything else as a number. */
  lemma RyuMatchSays(fields: map<Key, Ternary>)
    ensures var m := RyuMatch(fields);
            && (InPort in m <==> Concerns(fields, IngressPort)) && (NwSrc in m <==> Concerns(fields, SrcAddr))
            && (NwDst in m <==> Concerns(fields, DstAddr)) && (NwProto in m <==> Concerns(fields, Protocol))
            && (TpSrc in m <==> Concerns(fields, L4Src)) && (TpDst in m <==> Concerns(fields, L4Dst))
            && (InPort in m ==> m[InPort] == Num(Value(fields[IngressPort].value)))
            && (NwSrc in m ==> m[NwSrc] == Dotted(PadTo(fields[SrcAddr].value, 4)[..4]))
            && (NwDst in m ==> m[NwDst] == Dotted(PadTo(fields[DstAddr].value, 4)[..4]))
            && (NwProto in m ==> m[NwProto] == Num(Value(fields[Protocol].value)))
            && (TpSrc in m ==> m[TpSrc] == Num(Value(fields[L4Src].value)))
            && (TpDst in m ==> m[TpDst] == Num(Value(fields[L4Dst].value)))
            && m.Keys <= {InPort, NwSrc, NwDst, NwProto, TpSrc, TpDst, DlType}
  {
    NamesShown(fields);
    hide Value, PadTo, RyuMatch, Concerns;
    KeyShown(fields, IngressPort);
    KeyShown(fields, SrcAddr);
    KeyShown(fields, DstAddr);
    KeyShown(fields, Protocol);
    KeyShown(fields, L4Src);
    KeyShown(fields, L4Dst);
  }

  lemma NamesShown(fields: map<Key, Ternary>)
    ensures RyuMatch(fields).Keys <= {InPort, NwSrc, NwDst, NwProto, TpSrc, TpDst, DlType}
  {
    hide Value, RyuOperand, KeyNamed;
  }

  lemma KeyShown(fields: map<Key, Ternary>, k: Key)
    ensures RyuName(k) in RyuMatch(fields) <==> Concerns(fields, k)
    ensures Concerns(fields, k) ==> RyuMatch(fields)[RyuName(k)] == RyuOperand(k, fields[k].value)
  {
    ConcreteHas(fields, k);
    hide Value, RyuOperand, Concrete;
  }

  lemma RenderedIsConcrete(fields: map<Key, Ternary>, m: Match)
    requires Rendered(fields, {}, m)
    ensures m == Concrete(fields) && DlType !in m
  {
    hide Value, RyuOperand;
    forall f ensures f in m <==> f in Concrete(fields) {
      if KeyNamed(f).Some? {
        ConcreteHas(fields, KeyNamed(f).value);
      }
    }
    forall f | f in m ensures m[f] == Concrete(fields)[f] {
      ConcreteHas(fields, KeyNamed(f).value);
    }
  }

  lemma RenderedMore(fields: map<Key, Ternary>, left: set<Key>, m: Match, k: Key)
    requires Rendered(fields, left, m) && k in left && k in fields
    ensures Rendered(fields, left - {k}, if Value(fields[k].mask) != 0 then m[RyuName(k) := RyuOperand(k, fields[k].value)] else m)
  {
    hide Value, RyuOperand;
    assert KeyOf(RyuName(k)) == Some(k);
  }

  /** Default actions and entries without a usable match are not reported. */
  function EntryToRyu(e: ReadEntry): Option<Rule> {
    match e
    case ReadDefault => None
    case ReadLpm(value, port) => Some(Rule(0, WithDlType(map[NwDst := RyuAddress(value)]), Value(port)))
    case ReadFive(fields, priority, port) =>
      var m := RyuMatch(fields);
      if m == map[] then None else Some(Rule(priority, m, Value(port)))
  }

  function RenderAll(entries: seq<ReadEntry>): seq<Rule>
    decreases |entries|
  {
    if entries == [] then [] else
      RenderAll(entries[..|entries| - 1])
      + if EntryToRyu(entries[|entries| - 1]).Some? then [EntryToRyu(entries[|entries| - 1]).value] else []
  }

  method RenderFlowStats(entries: seq<ReadEntry>) returns (flows: seq<Rule>)
    ensures flows == RenderAll(entries)
  {
    hide EntryToRyu;
    flows := [];
    for i := 0 to |entries|
      invariant flows == RenderAll(entries[..i])
    {
      assert entries[..i + 1][..i] == entries[..i];
      var converted := EntryToRyu(entries[i]);
      if converted.Some? {
        flows := flows + [converted.value];
      }
    }
    assert entries[..|entries|] == entries;
  }

  lemma {:induction false} RenderAllHas(entries: seq<ReadEntry>, r: Rule)
    ensures r in RenderAll(entries) <==> exists e :: e in entries && EntryToRyu(e) == Some(r)
    decreases |entries|
  {
    hide EntryToRyu;
    if entries != [] {
      var n := |entries| - 1;
      RenderAllHas(entries[..n], r);
      assert forall e :: e in entries <==> e in entries[..n] || e == entries[n];
    }
  }

  // ---- what a rendered entry means -----------------------------------------------------------

  lemma AddressSurvives(ip: Ip4)
    ensures RyuAddress(Strip(ip)) == Dotted(ip)
  {
    PadUndoesStrip(ip);
  }

  lemma PortSurvives(port: nat)
    requires port < PORT_LIMIT
    ensures port < Pow256(2) && Value(Strip(ToBytes(port, 2))) == port
  {
    assert Pow256(2) == 65536 by { assert Pow256(1) == 256; }
    StripValue(ToBytes(port, 2));
  }

  lemma OperandSurvives(k: Key, value: seq<Byte>)
    requires |value| == Width(k)
    ensures Meaning(RyuOperand(k, Strip(value))) == Some(Value(value))
  {
    StripValue(value);
    if k.SrcAddr? || k.DstAddr? {
      AddressSurvives(value);
    }
  }

  lemma MaskSurvives(k: Key)
    ensures Value(Strip(FullMask(k))) != 0
  {
    hide Value, FullMask;
    StripValue(FullMask(k));
    assert Pow2(Bits(k)) == 2 * Pow2(Bits(k) - 1);
  }

  /** The criteria name each of the entry's keys, with its value, and nothing else. */
  ghost predicate Names(e: TernaryEntry, base: Match) {
    && (forall k :: k in e.fields ==> RyuName(k) in base && Meaning(base[RyuName(k)]) == Some(Value(e.fields[k].value)))
    && (forall f :: f in base ==> KeyNamed(f).Some? && KeyNamed(f).value in e.fields)
  }

  lemma FieldSurvives(e: TernaryEntry, k: Key)
    requires WellBuilt(e) && k in e.fields
    ensures var base := Concrete(CanonicalFields(e));
            RyuName(k) in base && Meaning(base[RyuName(k)]) == Some(Value(e.fields[k].value))
  {
    hide Value, RyuOperand, FullMask, Pow2, Strip, Meaning, Concrete, RyuName;
    MaskSurvives(k);
    OperandSurvives(k, e.fields[k].value);
    ConcreteHas(CanonicalFields(e), k);
  }

  lemma OnlyFields(e: TernaryEntry, f: Field)
    requires f in Concrete(CanonicalFields(e))
    ensures KeyNamed(f).Some? && KeyNamed(f).value in e.fields
  {
    hide Value, RyuOperand, KeyNamed, RyuName;
  }

  lemma RenderedFields(e: TernaryEntry)
    requires WellBuilt(e)
    ensures Names(e, Concrete(CanonicalFields(e)))
  {
    hide Concrete, CanonicalFields, Value, Meaning, RyuName, KeyNamed, WellBuilt;
    var base := Concrete(CanonicalFields(e));
    forall k | k in e.fields
      ensures RyuName(k) in base && Meaning(base[RyuName(k)]) == Some(Value(e.fields[k].value))
    {
      FieldSurvives(e, k);
    }
    forall f | f in base ensures KeyNamed(f).Some? && KeyNamed(f).value in e.fields {
      OnlyFields(e, f);
    }
  }

  /** The rendered criteria ask for exactly the entry's values, at the entry's priority and port. */
  lemma FiveMeansRule(e: TernaryEntry, port: nat)
    requires WellBuilt(e) && port < PORT_LIMIT
    ensures var r := EntryToRyu(ReadBackFive(e, port));
            && r.Some? && r.value.priority == e.priority && r.value.port == port
            && forall p :: Asks(r.value.criteria, p) <==> HasValues(e, p)
  {
    hide Value, Concrete, Strip, ToBytes, CanonicalFields, WellBuilt, WithDlType, Names, Asks, HasValues;
    RenderedFields(e);
    PortSurvives(port);
    var base := Concrete(CanonicalFields(e));
    var m := WithDlType(base);
    SomethingNamed(e, base);
    forall p ensures Asks(m, p) <==> HasValues(e, p) {
      CriteriaMean(e, base, p);
    }
  }

  lemma SomethingNamed(e: TernaryEntry, base: Match)
    requires WellBuilt(e) && Names(e, base)
    ensures WithDlType(base) != map[]
  {
    hide WithDlType, Value, Meaning, RyuName, KeyNamed, FullMask;
    DlTypeKeeps(base);
    var k :| k in e.fields;
    assert RyuName(k) in WithDlType(base);
  }

  lemma DlTypeKeeps(base: Match)
    ensures forall f :: f in base ==> f in WithDlType(base) && WithDlType(base)[f] == base[f]
    ensures forall f :: f in WithDlType(base) ==> f in base || (f == DlType && WithDlType(base)[f] == Num(IPV4))
  {
  }

  lemma NameOfKey(k: Key)
    ensures KeyOf(RyuName(k)) == Some(k)
  {
  }

  lemma CriteriaMean(e: TernaryEntry, base: Match, p: Packet)
    requires Names(e, base)
    ensures Asks(WithDlType(base), p) <==> HasValues(e, p)
  {
    hide Names, Holds, Value, WithDlType, At;
    DlTypeKeeps(base);
    var m := WithDlType(base);
    if Asks(m, p) {
      forall k | k in e.fields ensures At(p, k) == Value(e.fields[k].value) {
        CriterionForcesValue(e, base, m, k, p);
      }
    }
    if HasValues(e, p) {
      forall f | f in m ensures Holds(f, m[f], p) {
        if f in base {
          NameHolds(e, base, f, p);
        } else {
          DlTypeHolds(p);
        }
      }
    }
  }

  lemma DlTypeHolds(p: Packet)
    ensures Holds(DlType, Num(IPV4), p)
  {
  }

  lemma NameHolds(e: TernaryEntry, base: Match, f: Field, p: Packet)
    requires Names(e, base) && HasValues(e, p) && f in base
    ensures Holds(f, base[f], p)
  {
    hide Value, Meaning, At, KeyOf, RyuName, KeyNamed, Names;
    var k := NamedKey(e, base, f);
    NameOfKey(k);
    ValueOfName(e, base, k);
  }

  lemma NamedKey(e: TernaryEntry, base: Match, f: Field) returns (k: Key)
    requires Names(e, base) && f in base
    ensures k in e.fields && RyuName(k) == f
  {
    hide Value, Meaning, RyuName, KeyOf;
    k := KeyNamed(f).value;
  }

  lemma ValueOfName(e: TernaryEntry, base: Match, k: Key)
    requires Names(e, base) && k in e.fields
    ensures RyuName(k) in base && Meaning(base[RyuName(k)]) == Some(Value(e.fields[k].value))
  {
    hide Value, Meaning, RyuName, KeyNamed;
  }

  lemma CriterionForcesValue(e: TernaryEntry, base: Match, m: Match, k: Key, p: Packet)
    requires Names(e, base) && Asks(m, p) && (forall f :: f in base ==> f in m && m[f] == base[f]) && k in e.fields
    ensures At(p, k) == Value(e.fields[k].value)
  {
    hide Value, Meaning, At, KeyOf, RyuName, KeyNamed, Names;
    ValueOfName(e, base, k);
    NameOfKey(k);
    assert Holds(RyuName(k), m[RyuName(k)], p);
  }

  lemma LpmMeansRule(ip: Ip4, port: nat)
    requires port < PORT_LIMIT
    ensures var r := EntryToRyu(ReadBackLpm(ip, port));
            && r.Some? && r.value.priority == 0 && r.value.port == port
            && forall p: Packet :: Asks(r.value.criteria, p) <==> p.dst == Value(ip)
  {
    hide Value, Strip, ToBytes, RyuAddress;
    AddressSurvives(ip);
    PortSurvives(port);
    var m: Match := map[NwDst := Dotted(ip), DlType := Num(IPV4)];
    forall p: Packet ensures Asks(m, p) <==> p.dst == Value(ip) {
      if Asks(m, p) {
        assert Holds(NwDst, m[NwDst], p);
      }
    }
    assert WithDlType(map[NwDst := Dotted(ip)]) == m;
  }

  // ---- what the kernel is told is what the switch does ----------------------------------------

  /** `entries` is a read of the tables, in any order, default actions included. */
  ghost predicate Lists(entries: seq<ReadEntry>, t: Tables)
    requires WellFormed(t)
  {
    && (forall e :: e in t.five ==> ReadBackFive(e, t.five[e]) in entries)
    && (forall ip :: ip in t.lpm ==> ReadBackLpm(ip, t.lpm[ip]) in entries)
    && (forall r :: r in entries ==> r.ReadDefault? || FromFive(t, r) || FromLpm(t, r))
  }

  ghost predicate FromFive(t: Tables, r: ReadEntry)
    requires WellFormed(t)
  {
    exists e :: e in t.five && r == ReadBackFive(e, t.five[e])
  }

  ghost predicate FromLpm(t: Tables, r: ReadEntry)
    requires WellFormed(t)
  {
    exists ip :: ip in t.lpm && r == ReadBackLpm(ip, t.lpm[ip])
  }

  ghost predicate Applies(rules: seq<Rule>, p: Packet, r: Rule) {
    r in rules && Asks(r.criteria, p)
  }

  ghost predicate Best(rules: seq<Rule>, p: Packet, r: Rule) {
    Applies(rules, p, r) && forall r' :: Applies(rules, p, r') ==> r'.priority <= r.priority
  }

  /** The reading of a rule list: the port of a matching rule no other outranks. */
  ghost predicate RulesPick(rules: seq<Rule>, p: Packet, out: Option<nat>) {
    if exists r :: Applies(rules, p, r) then exists r :: Best(rules, p, r) && out == Some(r.port) else out == None
  }

  /** Rule `r` stands for a matching 5-tuple entry, or for the packet's destination entry. */
  ghost predicate StandsForFive(t: Tables, p: Packet, r: Rule, e: TernaryEntry) {
    e in t.five && Hits(e, p) && r.priority == e.priority && r.port == t.five[e]
  }

  ghost predicate StandsForLpm(t: Tables, p: Packet, r: Rule, ip: Ip4) {
    ip in t.lpm && Value(ip) == p.dst && r.priority == 0 && r.port == t.lpm[ip]
  }

  ghost predicate FiveCovered(t: Tables, p: Packet, rules: seq<Rule>) {
    forall e :: e in t.five && Hits(e, p) ==> exists r :: Applies(rules, p, r) && StandsForFive(t, p, r, e)
  }

  ghost predicate LpmCovered(t: Tables, p: Packet, rules: seq<Rule>) {
    forall ip :: ip in t.lpm && Value(ip) == p.dst ==> exists r :: Applies(rules, p, r) && StandsForLpm(t, p, r, ip)
  }

  ghost predicate RulesGrounded(t: Tables, p: Packet, rules: seq<Rule>) {
    forall r :: Applies(rules, p, r) ==> (exists e :: StandsForFive(t, p, r, e)) || (exists ip :: StandsForLpm(t, p, r, ip))
  }

  /** Matching rules and matching entries correspond, and 5-tuple entries outrank destination rules. */
  ghost predicate Mirrors(t: Tables, p: Packet, rules: seq<Rule>) {
    && FiveCovered(t, p, rules) && LpmCovered(t, p, rules) && RulesGrounded(t, p, rules)
    && (forall e :: e in t.five ==> e.priority >= 1)
  }

  lemma FiveIsMirrored(t: Tables, p: Packet, entries: seq<ReadEntry>, e: TernaryEntry) returns (r: Rule)
    requires WellFormed(t) && Lists(entries, t) && Fitting(p) && e in t.five
    ensures EntryToRyu(ReadBackFive(e, t.five[e])) == Some(r) && r in RenderAll(entries)
    ensures Asks(r.criteria, p) <==> Hits(e, p)
    ensures r.priority == e.priority && r.port == t.five[e]
  {
    hide ReadBackFive, ReadBackLpm, EntryToRyu, Asks, Hits, HasValues, WellBuilt, RenderAll;
    FiveMeansRule(e, t.five[e]);
    HitsIsEquality(e, p);
    r := EntryToRyu(ReadBackFive(e, t.five[e])).value;
    RenderAllHas(entries, r);
  }

  lemma LpmIsMirrored(t: Tables, p: Packet, entries: seq<ReadEntry>, ip: Ip4) returns (r: Rule)
    requires WellFormed(t) && Lists(entries, t) && ip in t.lpm
    ensures EntryToRyu(ReadBackLpm(ip, t.lpm[ip])) == Some(r) && r in RenderAll(entries)
    ensures Asks(r.criteria, p) <==> p.dst == Value(ip)
    ensures r.priority == 0 && r.port == t.lpm[ip]
  {
    hide ReadBackFive, ReadBackLpm, EntryToRyu, Asks, WellBuilt, RenderAll, Value;
    LpmMeansRule(ip, t.lpm[ip]);
    r := EntryToRyu(ReadBackLpm(ip, t.lpm[ip])).value;
    RenderAllHas(entries, r);
  }

  lemma RuleStandsForEntry(t: Tables, p: Packet, entries: seq<ReadEntry>, r: Rule)
    requires WellFormed(t) && Lists(entries, t) && Fitting(p) && Applies(RenderAll(entries), p, r)
    ensures (exists e :: StandsForFive(t, p, r, e)) || (exists ip :: StandsForLpm(t, p, r, ip))
  {
    assert EntryToRyu(ReadDefault) == None;
    hide ReadBackFive, ReadBackLpm, EntryToRyu, Asks, Hits, WellBuilt, RenderAll, Value;
    RenderAllHas(entries, r);
    var x :| x in entries && EntryToRyu(x) == Some(r);
    if FromFive(t, x) {
      var e :| e in t.five && x == ReadBackFive(e, t.five[e]);
      var r' := FiveIsMirrored(t, p, entries, e);
      assert StandsForFive(t, p, r, e);
    } else {
      assert FromLpm(t, x);
      var ip :| ip in t.lpm && x == ReadBackLpm(ip, t.lpm[ip]);
      var r' := LpmIsMirrored(t, p, entries, ip);
      assert StandsForLpm(t, p, r, ip);
    }
  }

  lemma FiveApplies(t: Tables, p: Packet, entries: seq<ReadEntry>, e: TernaryEntry)
    requires WellFormed(t) && Lists(entries, t) && Fitting(p) && e in t.five && Hits(e, p)
    ensures exists r :: Applies(RenderAll(entries), p, r) && StandsForFive(t, p, r, e)
  {
    hide Lists, WellFormed, Fitting, ReadBackFive, ReadBackLpm, EntryToRyu, Asks, Hits, RenderAll, Value;
    var r := FiveIsMirrored(t, p, entries, e);
    assert Applies(RenderAll(entries), p, r) && StandsForFive(t, p, r, e);
  }

  lemma LpmApplies(t: Tables, p: Packet, entries: seq<ReadEntry>, ip: Ip4)
    requires WellFormed(t) && Lists(entries, t) && ip in t.lpm && Value(ip) == p.dst
    ensures exists r :: Applies(RenderAll(entries), p, r) && StandsForLpm(t, p, r, ip)
  {
    hide Lists, WellFormed, Fitting, ReadBackFive, ReadBackLpm, EntryToRyu, Asks, RenderAll, Value;
    var r := LpmIsMirrored(t, p, entries, ip);
    assert Applies(RenderAll(entries), p, r) && StandsForLpm(t, p, r, ip);
  }

  lemma TablesAreMirrored(t: Tables, p: Packet, entries: seq<ReadEntry>)
    requires WellFormed(t) && Lists(entries, t) && Fitting(p)
    ensures Mirrors(t, p, RenderAll(entries))
  {
    hide RenderAll, Value, Hits, Asks;
    var rules := RenderAll(entries);
    assert FiveCovered(t, p, rules) by {
      hide Lists, WellFormed, Fitting, Applies, StandsForFive, Hits, RenderAll;
      forall e | e in t.five && Hits(e, p) ensures exists r :: Applies(rules, p, r) && StandsForFive(t, p, r, e) {
        FiveApplies(t, p, entries, e);
      }
    }
    assert LpmCovered(t, p, rules) by {
      hide Lists, WellFormed, Fitting, Applies, StandsForLpm, RenderAll, Value;
      forall ip | ip in t.lpm && Value(ip) == p.dst ensures exists r :: Applies(rules, p, r) && StandsForLpm(t, p, r, ip) {
        LpmApplies(t, p, entries, ip);
      }
    }
    assert RulesGrounded(t, p, rules) by {
      hide Lists, WellFormed, Fitting, Applies, StandsForFive, StandsForLpm, RenderAll;
      forall r | Applies(rules, p, r) ensures (exists e :: StandsForFive(t, p, r, e)) || (exists ip :: StandsForLpm(t, p, r, ip)) {
        RuleStandsForEntry(t, p, entries, r);
      }
    }
    hide FiveCovered, LpmCovered, RulesGrounded, Lists, Fitting;
  }

  lemma PipelineImpliesRules(t: Tables, p: Packet, rules: seq<Rule>, out: Option<nat>)
    requires Mirrors(t, p, rules) && PipelinePicks(t, p, out)
    ensures RulesPick(rules, p, out)
  {
    hide Hits, Asks, Value, Applies;
    if SomeHit(t, p) {
      var e :| Wins(t, p, e) && out == Some(t.five[e]);
      var r :| Applies(rules, p, r) && StandsForFive(t, p, r, e);
      assert Best(rules, p, r);
    } else if exists ip :: ip in t.lpm && Value(ip) == p.dst {
      var ip :| ip in t.lpm && Value(ip) == p.dst && out == Some(t.lpm[ip]);
      var r :| Applies(rules, p, r) && StandsForLpm(t, p, r, ip);
      assert Best(rules, p, r);
    }
  }

  lemma RulesImplyPipeline(t: Tables, p: Packet, rules: seq<Rule>, out: Option<nat>)
    requires Mirrors(t, p, rules) && RulesPick(rules, p, out)
    ensures PipelinePicks(t, p, out)
  {
    hide Hits, Asks, Value, Applies;
    if SomeHit(t, p) {
      var hit :| hit in t.five && Hits(hit, p);
      var r0 :| Applies(rules, p, r0) && StandsForFive(t, p, r0, hit);
      var r :| Best(rules, p, r) && out == Some(r.port);
      assert r.priority >= 1;
      var e :| StandsForFive(t, p, r, e);
      forall e' | e' in t.five && Hits(e', p) ensures e'.priority <= e.priority {
        var r' :| Applies(rules, p, r') && StandsForFive(t, p, r', e');
      }
      assert Wins(t, p, e);
    } else if ip :| ip in t.lpm && Value(ip) == p.dst {
      var r0 :| Applies(rules, p, r0) && StandsForLpm(t, p, r0, ip);
      var r :| Best(rules, p, r) && out == Some(r.port);
      var ip' :| StandsForLpm(t, p, r, ip');
    }
  }

  /**
   For every packet, what the pipeline may pick is what the rendered rules say, in whatever order the
   tables are read; ties, where there are any, are ties on both sides.
   */
  lemma RenderingIsFaithful(t: Tables, entries: seq<ReadEntry>, p: Packet, out: Option<nat>)
    requires WellFormed(t) && Lists(entries, t) && Fitting(p)
    ensures PipelinePicks(t, p, out) <==> RulesPick(RenderAll(entries), p, out)
  {
    hide PipelinePicks, RulesPick, Mirrors;
    TablesAreMirrored(t, p, entries);
    if PipelinePicks(t, p, out) {
      PipelineImpliesRules(t, p, RenderAll(entries), out);
    }
    if RulesPick(RenderAll(entries), p, out) {
      RulesImplyPipeline(t, p, RenderAll(entries), out);
    }
  }

  lemma {:induction false} HighestHit(es: set<TernaryEntry>, p: Packet) returns (e: TernaryEntry)
    requires exists x :: x in es && Hits(x, p)
    ensures e in es && Hits(e, p) && forall x :: x in es && Hits(x, p) ==> x.priority <= e.priority
    decreases |es|
  {
    hide Hits;
    var x :| x in es && Hits(x, p);
    e := x;
    if exists y :: y in es - {x} && Hits(y, p) {
      var best := HighestHit(es - {x}, p);
      if best.priority > x.priority {
        e := best;
      }
    }
  }

  /** The pipeline always comes to a decision. */
  lemma SomethingIsPicked(t: Tables, p: Packet) returns (out: Option<nat>)
    ensures PipelinePicks(t, p, out)
  {
    hide Hits, Value;
    if SomeHit(t, p) {
      var e := HighestHit(t.five.Keys, p);
      assert Wins(t, p, e);
      out := Some(t.five[e]);
    } else if ip :| ip in t.lpm && Value(ip) == p.dst {
      out := Some(t.lpm[ip]);
    } else {
      out := None;
    }
  }

  /** A rule accepted for the 5-tuple table is reported back with the meaning its caller gave it. */
  lemma CompiledRuleIsReported(m: Match, priority: Option<int>, c: Compiled)
    requires c.FiveTuple? && WellBuilt(c.entry) && c.port < PORT_LIMIT && c.entry.priority == P4Priority(priority)
    requires forall p :: HasValues(c.entry, p) <==> Asks(m, p)
    ensures var r := EntryToRyu(ReadBackFive(c.entry, c.port));
            && r.Some? && r.value.port == c.port && r.value.priority == Clamped(priority) + 1
            && forall p :: Asks(r.value.criteria, p) <==> Asks(m, p)
  {
    hide EntryToRyu, ReadBackFive, Asks, HasValues, WellBuilt;
    FiveMeansRule(c.entry, c.port);
  }

  /** The reported priority is one above the caller's, so sent back unchanged it names another entry. */
  lemma ReportedPriorityIsShifted(e: TernaryEntry, port: nat)
    requires WellBuilt(e) && port < PORT_LIMIT
    ensures EntryToRyu(ReadBackFive(e, port)).Some?
    ensures P4Priority(Some(EntryToRyu(ReadBackFive(e, port)).value.priority)) == e.priority + 1
  {
    hide EntryToRyu, ReadBackFive, Asks, HasValues;
    FiveMeansRule(e, port);
  }

  /** Rules of equal priority do not overlap. */
  ghost predicate NoTies(t: Tables) {
    forall e, e', p :: e in t.five && e' in t.five && e.priority == e'.priority && Hits(e, p) && Hits(e', p) ==> e == e'
  }

  /** Then the port is determined, so the kernel's answer is the switch's. */
  lemma PickIsDetermined(t: Tables, entries: seq<ReadEntry>, p: Packet, a: Option<nat>, b: Option<nat>)
    requires WellFormed(t) && Lists(entries, t) && Fitting(p) && NoTies(t)
    requires PipelinePicks(t, p, a) && RulesPick(RenderAll(entries), p, b)
    ensures a == b
  {
    RenderingIsFaithful(t, entries, p, b);
    hide Hits, Value, RenderAll, WellFormed, Lists, RulesPick;
    if SomeHit(t, p) {
      var e :| Wins(t, p, e) && a == Some(t.five[e]);
      var e' :| Wins(t, p, e') && b == Some(t.five[e']);
      assert e.priority == e'.priority;
    } else if exists ip :: ip in t.lpm && Value(ip) == p.dst {
      var ip :| ip in t.lpm && Value(ip) == p.dst && a == Some(t.lpm[ip]);
      var ip' :| ip' in t.lpm && Value(ip') == p.dst && b == Some(t.lpm[ip']);
      ValueInjective(ip, ip');
    }
  }
}
