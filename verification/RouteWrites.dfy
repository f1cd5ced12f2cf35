/**
 Writes against a switch whose errors are ambiguous, and the record the proxy keeps of them.
 A bmv2 answers UNKNOWN to a duplicate insert, to a delete of a missing entry and to a genuine
 refusal alike; the client resolves the ambiguity by retrying or reading back.
 */
module RouteWrites {
  import opened Common
  import opened Net
  import opened Bytes
  import opened P4Routing
  import RC = RuleCompiler

  /** ipv4_lpm of one switch: one /32 entry per destination. */
  type Table = map<Addr, Port>

  /** flow_5tuple of one switch: the priority is part of an entry's identity. */
  type FiveTable = map<RC.TernaryEntry, Port>

  function With<K>(t: map<K, Port>, k: K, port: Port): map<K, Port> {
    t[k := port]
  }

  /** How a destination was written in a match; host names in the graph are dotted quads. */
  datatype Spelling = Quad | Decimal | Hexadecimal

  /** A destination as text: what it stands for, and how it is spelled. The record is keyed by the text. */
  datatype Text = Text(ip: Addr, spelling: Spelling)

  type Record = map<(nat, Text), Port>

  /** The part of the record the path report looks up, which asks for hosts by their dotted names. */
  function Quads(r: Record): Installed {
    map k | k in (set key | key in r && key.1.spelling.Quad? :: (key.0, key.1.ip)) :: r[(k.0, Text(k.1, Quad))]
  }

  lemma QuadsAt(r: Record, d: nat, ip: Addr)
    ensures (d, ip) in Quads(r) <==> (d, Text(ip, Quad)) in r
    ensures (d, ip) in Quads(r) ==> Quads(r)[(d, ip)] == r[(d, Text(ip, Quad))]
  {
    if (d, Text(ip, Quad)) in r {
      var key := (d, Text(ip, Quad));
      assert key in r && key.1.spelling.Quad? && (key.0, key.1.ip) == (d, ip);
    }
  }

  datatype Status = OK | ALREADY_EXISTS | NOT_FOUND | UNKNOWN | OTHER

  /**
   What the switch does with one RPC: serve it, naming duplicates and missing entries as the
   specification does or, like bmv2, only as UNKNOWN; or refuse it outright, changing nothing.
   A port that does not fit nine bits is refused either way.
   */
  datatype Rpc = Serve(bySpec: bool) | Refuse(status: Status) {
    /** A refusal is an error, and never claims that an entry is missing. */
    predicate Honest() {
      Refuse? ==> status != OK && status != NOT_FOUND
    }
  }

  function Inserted<K>(t: map<K, Port>, k: K, port: Port, rpc: Rpc): (map<K, Port>, Status) {
    match rpc
    case Refuse(s) => (t, s)
    case Serve(bySpec) =>
      if port >= RC.PORT_LIMIT then (t, OTHER)
      else if k in t then (t, if bySpec then ALREADY_EXISTS else UNKNOWN) else (With(t, k, port), OK)
  }

  function Modified<K>(t: map<K, Port>, k: K, port: Port, rpc: Rpc): (map<K, Port>, Status) {
    match rpc
    case Refuse(s) => (t, s)
    case Serve(bySpec) =>
      if port >= RC.PORT_LIMIT then (t, OTHER)
      else if k in t then (With(t, k, port), OK) else (t, if bySpec then NOT_FOUND else UNKNOWN)
  }

  function Deleted<K>(t: map<K, Port>, k: K, rpc: Rpc): (map<K, Port>, Status) {
    match rpc
    case Refuse(s) => (t, s)
    case Serve(bySpec) =>
      if k in t then (t - {k}, OK) else (t, if bySpec then NOT_FOUND else UNKNOWN)
  }

  const MAX_ADDR_BYTES := 4

  function AddrBytes(ip: Addr): (b: seq<Byte>)
    ensures |b| == MAX_ADDR_BYTES && Value(b) == ip
  {
    assert Pow256(4) == 0x1_0000_0000;
    ToBytes(ip, MAX_ADDR_BYTES)
  }

  /**
   Whether the read-back lists the address. The switch strips leading zero bytes from the values it
   returns, so each is padded back before it is compared.
   */
  method RoutePresent(listing: seq<Addr>, ip: Addr) returns (present: bool)
    ensures present <==> ip in listing
  {
    var want := AddrBytes(ip);
    for i := 0 to |listing|
      invariant ip !in listing[..i]
    {
      var value := Strip(AddrBytes(listing[i]));
      PadUndoesStrip(AddrBytes(listing[i]));
      if PadTo(value, MAX_ADDR_BYTES) == want {
        return true;
      }
    }
    return false;
  }

  /** Everything a write can change: both tables of every switch, and what the proxy has recorded. */
  datatype World = World(tables: map<nat, Table>, five: map<nat, FiveTable>, record: Record)

  /** The effect an operation had, once its errors are resolved. */
  datatype Step =
    | Put(d: nat, text: Text, port: Port)
    | Drop(d: nat, text: Text)
    | PutFive(d: nat, entry: RC.TernaryEntry, port: Port)
    | DropFive(d: nat, entry: RC.TernaryEntry)
    | Wipe(d: nat)
    | Idle

  function FiveOf(w: World, d: nat): FiveTable { if d in w.five then w.five[d] else map[] }

  function Apply(w: World, step: Step): World {
    if step.Idle? || step.d !in w.tables then w else
      match step
      case Idle => w
      case Put(d, t, port) =>
        w.(tables := w.tables[d := With(w.tables[d], t.ip, port)], record := w.record[(d, t) := port])
      case Drop(d, t) =>
        w.(tables := w.tables[d := w.tables[d] - {t.ip}], record := w.record - {(d, t)})
      case PutFive(d, e, port) => w.(five := w.five[d := With(FiveOf(w, d), e, port)])
      case DropFive(d, e) => w.(five := w.five[d := FiveOf(w, d) - {e}])
      case Wipe(d) => w.(tables := w.tables[d := map[]], five := w.five[d := map[]])
  }

  function Run(w: World, steps: seq<Step>): World {
    if steps == [] then w else Apply(Run(w, steps[..|steps| - 1]), steps[|steps| - 1])
  }

  /** The address a destination entry is keyed by. */
  function AddrOf(ip: Ip4): Addr {
    ValueBound(ip);
    assert Pow256(4) == 0x1_0000_0000;
    Value(ip)
  }

  /** A destination operand as the text it is. */
  function TextOf(v: RC.Operand): Text
    requires RC.ToAddress(v).Some?
  {
    Text(AddrOf(RC.ToAddress(v).value), if v.Numeral? then Decimal else if v.Hex? then Hexadecimal else Quad)
  }

  /** The destination a match names, on the destination path. */
  function Destination(m: RC.Match): Text
    requires RC.Destination(m).Some? && RC.ToAddress(RC.Destination(m).value).Some?
  {
    TextOf(RC.Destination(m).value)
  }

  /** The step writes, or removes, exactly what the match asks for. */
  ghost predicate Names(step: Step, d: nat, m: RC.Match, priority: Option<int>) {
    match step
    case Put(e, t, _) => e == d && RC.DestinationAccepted(m) && t == Destination(m)
    case Drop(e, t) => e == d && RC.DestinationAccepted(m) && t == Destination(m)
    case PutFive(e, entry, _) => e == d && NamesFive(entry, m, priority)
    case DropFive(e, entry) => e == d && NamesFive(entry, m, priority)
    case Wipe(_) => false
    case Idle => true
  }

  ghost predicate NamesFive(entry: RC.TernaryEntry, m: RC.Match, priority: Option<int>) {
    && RC.WellBuilt(entry) && entry.priority == RC.P4Priority(priority)
    && forall p :: RC.HasValues(entry, p) <==> RC.Asks(m, p)
  }

  ghost predicate Acceptable(m: RC.Match, priority: Option<int>) {
    RC.Supported(m) && (RC.FiveTupleAccepted(m, priority) || RC.DestinationAccepted(m))
  }

  lemma NamesDestination(d: nat, m: RC.Match, priority: Option<int>, port: Port)
    requires RC.DestinationAccepted(m)
    ensures Names(Put(d, Destination(m), port), d, m, priority) && Names(Drop(d, Destination(m)), d, m, priority)
  {
  }

  lemma OneTarget(m: RC.Match, priority: Option<int>)
    ensures RC.FiveTupleAccepted(m, priority) ==> !RC.DestinationAccepted(m)
  {
  }

  /** The entry the match names is on the switch. */
  ghost predicate Present(w: World, d: nat, m: RC.Match, priority: Option<int>)
    requires d in w.tables && Acceptable(m, priority)
  {
    if RC.FiveTupleAccepted(m, priority) then RC.NamedEntry(m, priority) in FiveOf(w, d) else Destination(m).ip in w.tables[d]
  }

  lemma NamesEntry(d: nat, m: RC.Match, priority: Option<int>, e: RC.TernaryEntry, port: Port)
    requires NamesFive(e, m, priority)
    ensures Names(PutFive(d, e, port), d, m, priority) && Names(DropFive(d, e), d, m, priority)
  {
  }

  lemma PresentMeans(w: World, d: nat, m: RC.Match, priority: Option<int>)
    requires d in w.tables && Acceptable(m, priority)
    ensures RC.FiveTupleAccepted(m, priority) ==> (Present(w, d, m, priority) <==> RC.NamedEntry(m, priority) in FiveOf(w, d))
    ensures RC.DestinationAccepted(m) ==> (Present(w, d, m, priority) <==> Destination(m).ip in w.tables[d])
  {
    OneTarget(m, priority);
  }

  lemma ApplyFive(w: World, d: nat, e: RC.TernaryEntry, port: Port)
    requires d in w.tables && d in w.five
    ensures Apply(w, PutFive(d, e, port)) == w.(five := w.five[d := With(w.five[d], e, port)])
    ensures Apply(w, DropFive(d, e)) == w.(five := w.five[d := w.five[d] - {e}])
  {
  }

  lemma AppliedKeys(w: World)
    ensures forall step :: Apply(w, step).tables.Keys == w.tables.Keys
  {
  }

  lemma NothingDone(w: World, d: nat, m: RC.Match, priority: Option<int>)
    ensures Apply(w, Idle) == w && Names(Idle, d, m, priority)
  {
  }

  class TopologyManager {
    var tables: map<nat, Table>
    var five: map<nat, FiveTable>
    var record: Record

    ghost function Now(): World reads this { World(tables, five, record) }

    /** Every adopted switch has both tables. */
    ghost predicate Valid() reads this { five.Keys == tables.Keys }

    constructor (dpids: set<nat>)
      ensures tables == (map d | d in dpids :: map[]) && five == (map d | d in dpids :: map[]) && record == map[]
      ensures Valid() && tables.Keys == dpids
    {
      tables := map d | d in dpids :: map[];
      five := map d | d in dpids :: map[];
      record := map[];
    }

    method ModifyIpv4Route(d: nat, ip: Addr, port: Port, rpc: Rpc) returns (ok: bool)
      requires d in tables && rpc.Honest()
      modifies this`tables
      ensures tables == if ok then old(tables)[d := With(old(tables)[d], ip, port)] else old(tables)
      ensures ok <==> rpc.Serve? && port < RC.PORT_LIMIT && ip in old(tables)[d]
    {
      var (t, status) := Modified(tables[d], ip, port, rpc);
      tables := tables[d := t];
      ok := status == OK;
    }

    /** INSERT, retried as MODIFY when the error may have been a duplicate. */
    method InsertIpv4Route(d: nat, ip: Addr, port: Port, insert: Rpc, retry: Rpc) returns (ok: bool)
      requires d in tables && insert.Honest() && retry.Honest()
      modifies this`tables
      ensures tables == if ok then old(tables)[d := With(old(tables)[d], ip, port)] else old(tables)
      ensures insert.Serve? && retry.Serve? && port < RC.PORT_LIMIT ==> ok
      ensures ok ==> port < RC.PORT_LIMIT && (insert.Serve? || (retry.Serve? && ip in old(tables)[d]))
    {
      var (t, status) := Inserted(tables[d], ip, port, insert);
      tables := tables[d := t];
      if status == OK {
        return true;
      }
      if status == ALREADY_EXISTS || status == UNKNOWN {
        ok := ModifyIpv4Route(d, ip, port, retry);
        if ok {
          return true;
        }
      }
      return false;
    }

    /** DELETE; an UNKNOWN is settled by reading the table back. `readback` is None when that fails. */
    method DeleteIpv4Route(d: nat, ip: Addr, rpc: Rpc, readback: Option<seq<Addr>>) returns (ok: bool)
      requires d in tables && rpc.Honest()
      requires readback.Some? ==> rpc.Refuse? || ip !in tables[d] ==> Enumerates(readback.value, tables[d].Keys)
      modifies this`tables
      ensures ok ==> tables == old(tables)[d := old(tables)[d] - {ip}]
      ensures !ok ==> tables == old(tables)
      ensures rpc.Serve? && readback.Some? ==> ok
    {
      var (t, status) := Deleted(tables[d], ip, rpc);
      tables := tables[d := t];
      if status == OK || status == NOT_FOUND {
        assert status == NOT_FOUND ==> t == t - {ip};
        return true;
      }
      if status == UNKNOWN && readback.Some? {
        var present := RoutePresent(readback.value, ip);
        if !present {
          assert tables[d] == tables[d] - {ip};
          return true;
        }
      }
      return false;
    }

    /** The same three on the 5-tuple table; nothing here is recorded. */
    method ModifyFive(d: nat, e: RC.TernaryEntry, port: Port, rpc: Rpc) returns (ok: bool)
      requires Valid() && d in tables && rpc.Honest()
      modifies this`five
      ensures Valid() && five == if ok then old(five)[d := With(old(five)[d], e, port)] else old(five)
      ensures ok <==> rpc.Serve? && port < RC.PORT_LIMIT && e in old(five)[d]
    {
      var (t, status) := Modified(five[d], e, port, rpc);
      five := five[d := t];
      ok := status == OK;
    }

    method InsertFive(d: nat, e: RC.TernaryEntry, port: Port, insert: Rpc, retry: Rpc) returns (ok: bool)
      requires Valid() && d in tables && insert.Honest() && retry.Honest()
      modifies this`five
      ensures Valid() && five == if ok then old(five)[d := With(old(five)[d], e, port)] else old(five)
      ensures insert.Serve? && retry.Serve? && port < RC.PORT_LIMIT ==> ok
      ensures ok ==> port < RC.PORT_LIMIT
    {
      var (t, status) := Inserted(five[d], e, port, insert);
      five := five[d := t];
      if status == OK {
        return true;
      }
      if status == ALREADY_EXISTS || status == UNKNOWN {
        ok := ModifyFive(d, e, port, retry);
        if ok {
          return true;
        }
      }
      return false;
    }

    method DeleteFive(d: nat, e: RC.TernaryEntry, rpc: Rpc) returns (ok: bool)
      requires Valid() && d in tables && rpc.Honest()
      modifies this`five
      ensures Valid() && five == if ok then old(five)[d := old(five)[d] - {e}] else old(five)
      ensures ok <==> rpc.Serve? && e in old(five)[d]
    {
      var (t, status) := Deleted(five[d], e, rpc);
      five := five[d := t];
      ok := status == OK;
    }

    /** A write is recorded only once the switch accepted it. */
    method WriteAndRecord(d: nat, t: Text, port: Port, insert: Rpc, retry: Rpc) returns (ok: bool)
      requires Valid() && d in tables && insert.Honest() && retry.Honest()
      modifies this`tables, this`record
      ensures Valid() && Now() == Apply(old(Now()), if ok then Put(d, t, port) else Idle)
      ensures insert.Serve? && retry.Serve? && port < RC.PORT_LIMIT ==> ok
      ensures ok ==> port < RC.PORT_LIMIT
    {
      ok := InsertIpv4Route(d, t.ip, port, insert, retry);
      if ok {
        record := record[(d, t) := port];
      }
    }

    method DeleteAndForget(d: nat, t: Text, rpc: Rpc, readback: Option<seq<Addr>>) returns (ok: bool)
      requires Valid() && d in tables && rpc.Honest() && (readback.Some? ==> Enumerates(readback.value, tables[d].Keys))
      modifies this`tables, this`record
      ensures Valid() && Now() == Apply(old(Now()), if ok then Drop(d, t) else Idle)
      ensures rpc.Serve? && readback.Some? ==> ok
    {
      ok := DeleteIpv4Route(d, t.ip, rpc, readback);
      if ok {
        record := record - {(d, t)};
      }
    }

    method ModifyAndRecord(d: nat, t: Text, port: Port, rpc: Rpc) returns (ok: bool)
      requires Valid() && d in tables && rpc.Honest()
      modifies this`tables, this`record
      ensures Valid() && Now() == Apply(old(Now()), if ok then Put(d, t, port) else Idle)
      ensures ok <==> rpc.Serve? && port < RC.PORT_LIMIT && t.ip in old(tables)[d]
    {
      ok := ModifyIpv4Route(d, t.ip, port, rpc);
      if ok {
        record := record[(d, t) := port];
      }
    }

    /** The three writes of the 5-tuple table, as effects; nothing here is recorded. */
    method WriteFive(d: nat, e: RC.TernaryEntry, port: Port, insert: Rpc, retry: Rpc) returns (ok: bool)
      requires Valid() && d in tables && insert.Honest() && retry.Honest()
      modifies this`five
      ensures Valid() && Now() == Apply(old(Now()), if ok then PutFive(d, e, port) else Idle)
      ensures insert.Serve? && retry.Serve? && port < RC.PORT_LIMIT ==> ok
      ensures ok ==> port < RC.PORT_LIMIT
    {
      ApplyFive(Now(), d, e, port);
      hide Apply;
      ok := InsertFive(d, e, port, insert, retry);
    }

    method ChangeFive(d: nat, e: RC.TernaryEntry, port: Port, rpc: Rpc) returns (ok: bool)
      requires Valid() && d in tables && rpc.Honest()
      modifies this`five
      ensures Valid() && Now() == Apply(old(Now()), if ok then PutFive(d, e, port) else Idle)
      ensures ok <==> rpc.Serve? && port < RC.PORT_LIMIT && e in FiveOf(old(Now()), d)
    {
      ApplyFive(Now(), d, e, port);
      hide Apply;
      ok := ModifyFive(d, e, port, rpc);
    }

    method RemoveFive(d: nat, e: RC.TernaryEntry, rpc: Rpc) returns (ok: bool)
      requires Valid() && d in tables && rpc.Honest()
      modifies this`five
      ensures Valid() && Now() == Apply(old(Now()), if ok then DropFive(d, e) else Idle)
      ensures ok <==> rpc.Serve? && e in FiveOf(old(Now()), d)
    {
      ApplyFive(Now(), d, e, 0);
      hide Apply;
      ok := DeleteFive(d, e, rpc);
    }

    /** A rule arriving over REST: compiled, written, and recorded if it is a destination rule the switch took. */
    method RouteFlow(d: nat, m: RC.Match, priority: Option<int>, output: Option<int>, insert: Rpc, retry: Rpc)
      returns (ok: bool, ghost step: Step)
      requires Valid() && insert.Honest() && retry.Honest()
      modifies this
      ensures Valid() && tables.Keys == old(tables).Keys
      ensures Now() == Apply(old(Now()), step) && Names(step, d, m, priority)
      ensures ok <==> !step.Idle?
      ensures ok ==> d in tables && (step.Put? || step.PutFive?) && output == Some(step.port) && step.port < RC.PORT_LIMIT
      ensures (d in old(tables) && insert.Serve? && retry.Serve? && Acceptable(m, priority)
               && output.Some? && 0 <= output.value < RC.PORT_LIMIT) ==> ok
    {
      ok, step := false, Idle;
      NothingDone(Now(), d, m, priority);
      if d !in tables {
        return;
      }
      var c := RC.CompileRule(m, priority, output);
      AppliedKeys(Now());
      if c.FiveTuple? {
        NamesEntry(d, m, priority, c.entry, c.port);
        hide Apply, Names, Acceptable, RC.WellBuilt, RC.HasValues, RC.Asks, RC.NamedEntry, RC.Supported, RC.FiveTupleAccepted, RC.DestinationAccepted;
        ok := WriteFive(d, c.entry, c.port, insert, retry);
        step := if ok then PutFive(d, c.entry, c.port) else Idle;
      } else if c.Lpm? {
        NamesDestination(d, m, priority, c.port);
        var text := Destination(m);
        hide Apply, Names, Acceptable, Destination, RC.Supported, RC.FiveTupleAccepted, RC.DestinationAccepted;
        ok := WriteAndRecord(d, text, c.port, insert, retry);
        step := if ok then Put(d, text, c.port) else Idle;
      }
    }

    method UnrouteFlow(d: nat, m: RC.Match, priority: Option<int>, rpc: Rpc, readback: Option<seq<Addr>>)
      returns (ok: bool, ghost step: Step)
      requires Valid() && rpc.Honest()
      requires readback.Some? && d in tables ==> Enumerates(readback.value, tables[d].Keys)
      modifies this
      ensures Valid() && tables.Keys == old(tables).Keys
      ensures Now() == Apply(old(Now()), step) && Names(step, d, m, priority)
      ensures ok <==> !step.Idle?
      ensures ok ==> d in tables && (step.Drop? || step.DropFive?)
      // a destination rule is gone, there or not; a 5-tuple rule must have been there
      ensures d in old(tables) && RC.Supported(m) && RC.DestinationAccepted(m) && rpc.Serve? && readback.Some? ==> ok
      ensures d in old(tables) && RC.Supported(m) && RC.FiveTupleAccepted(m, priority) ==>
                (ok <==> rpc.Serve? && RC.NamedEntry(m, priority) in FiveOf(old(Now()), d))
    {
      ok, step := false, Idle;
      NothingDone(Now(), d, m, priority);
      if d !in tables {
        return;
      }
      var target := RC.CompileMatch(m, priority);
      OneTarget(m, priority);
      AppliedKeys(Now());
      if target.InFive? {
        NamesEntry(d, m, priority, target.entry, 0);
        hide Apply, Names, FiveOf, Enumerates, RC.WellBuilt, RC.HasValues, RC.Asks, RC.NamedEntry, RC.Supported, RC.FiveTupleAccepted, RC.DestinationAccepted;
        ok := RemoveFive(d, target.entry, rpc);
        step := if ok then DropFive(d, target.entry) else Idle;
      } else if target.InLpm? {
        NamesDestination(d, m, priority, 0);
        var text := Destination(m);
        hide Apply, Names, FiveOf, Enumerates, Destination, RC.NamedEntry, RC.Supported, RC.FiveTupleAccepted, RC.DestinationAccepted;
        ok := DeleteAndForget(d, text, rpc, readback);
        step := if ok then Drop(d, text) else Idle;
      }
    }

    method ModifyFlow(d: nat, m: RC.Match, priority: Option<int>, output: Option<int>, rpc: Rpc)
      returns (ok: bool, ghost step: Step)
      requires Valid() && rpc.Honest()
      modifies this
      ensures Valid() && tables.Keys == old(tables).Keys
      ensures Now() == Apply(old(Now()), step) && Names(step, d, m, priority)
      ensures ok <==> !step.Idle?
      ensures ok ==> d in tables && (step.Put? || step.PutFive?) && output == Some(step.port) && step.port < RC.PORT_LIMIT
      ensures ok <==> d in old(tables) && Acceptable(m, priority) && rpc.Serve?
                      && output.Some? && 0 <= output.value < RC.PORT_LIMIT && Present(old(Now()), d, m, priority)
    {
      ok, step := false, Idle;
      NothingDone(Now(), d, m, priority);
      if d !in tables {
        return;
      }
      var c := RC.CompileRule(m, priority, output);
      AppliedKeys(Now());
      if c.FiveTuple? {
        NamesEntry(d, m, priority, c.entry, c.port);
        PresentMeans(Now(), d, m, priority);
        hide Apply, Names, Present, FiveOf, RC.WellBuilt, RC.HasValues, RC.Asks, RC.NamedEntry, RC.Supported, RC.FiveTupleAccepted, RC.DestinationAccepted;
        ok := ChangeFive(d, c.entry, c.port, rpc);
        step := if ok then PutFive(d, c.entry, c.port) else Idle;
      } else if c.Lpm? {
        NamesDestination(d, m, priority, c.port);
        PresentMeans(Now(), d, m, priority);
        var text := Destination(m);
        hide Apply, Names, Present, FiveOf, Destination, RC.NamedEntry, RC.Supported, RC.FiveTupleAccepted, RC.DestinationAccepted;
        ok := ModifyAndRecord(d, text, c.port, rpc);
        step := if ok then Put(d, text, c.port) else Idle;
      }
    }

    /** A pipeline commit, the first half of a readopt: every entry of that switch is gone. */
    method CommitPipeline(d: nat)
      requires Valid() && d in tables
      modifies this`tables, this`five
      ensures Valid() && tables.Keys == old(tables).Keys && Now() == Apply(old(Now()), Wipe(d))
    {
      tables := tables[d := map[]];
      five := five[d := map[]];
    }

    /**
     One install pass over the computed paths. `steps` is what it did, write by write: one Put per
     accepted write, carrying the port of the first hop of the chosen path.
     */
    method InstallInitialRoutes(g: Graph, down: set<Endpoint>, paths: Paths, only: Option<nat>,
                                pairs: seq<(nat, Addr)>, env: map<(nat, Addr), WriteEnv>)
      returns (accepted: nat, attempted: nat, ghost steps: seq<Step>)
      requires AllShortest(SearchLinks(g, down), g.adj.Keys, paths)
      requires Valid() && Enumerates(pairs, Wanted(paths, only)) && EnvFor(pairs, tables.Keys, env)
      modifies this`tables, this`record
      ensures Valid() && Now() == Run(old(Now()), steps) && tables.Keys == old(tables).Keys
      ensures attempted == |Wanted(paths, only)| && accepted == |steps| <= attempted
      ensures AllRules(g, down, paths, only, steps)
      ensures ServedAreListed(g, paths, pairs, env, steps)
      ensures accepted == attempted ==> AllListed(pairs, steps)
    {
      hide AllShortest, Enumerates, Wanted, AllRules, ServedAreListed, AllListed, EnvFor, Run;
      accepted, attempted, steps := 0, 0, [];
      NothingYet(old(Now()), g, down, paths, only, env);
      for i := 0 to |pairs|
        invariant Valid() && Now() == Run(old(Now()), steps) && tables.Keys == old(tables).Keys
        invariant attempted == i && accepted == |steps| <= i
        invariant AllRules(g, down, paths, only, steps)
        invariant ServedAreListed(g, paths, pairs[..i], env, steps)
        invariant accepted == i ==> AllListed(pairs[..i], steps)
      {
        var k := pairs[i];
        PairIsWanted(g, down, paths, only, pairs, i, tables.Keys, env);
        var outPort := RulePort(g, paths, k);
        attempted := attempted + 1;
        assert pairs[..i + 1] == pairs[..i] + [k];
        var ok := WriteAndRecord(k.0, Text(k.1, Quad), outPort, env[k].insert, env[k].retry);
        PairDone(old(Now()), g, down, paths, only, pairs[..i], env, steps, k, ok);
        if ok {
          accepted := accepted + 1;
          steps := steps + [Put(k.0, Text(k.1, Quad), outPort)];
        }
      }
      assert pairs[..|pairs|] == pairs;
      EnumerationSize(pairs, Wanted(paths, only));
    }
  }

  /** How the switch treats the INSERT of one pair, and the MODIFY that may follow it. */
  datatype WriteEnv = WriteEnv(insert: Rpc, retry: Rpc)

  ghost predicate EnvFor(pairs: seq<(nat, Addr)>, dpids: set<nat>, env: map<(nat, Addr), WriteEnv>) {
    forall k :: k in pairs ==> k.0 in dpids && k in env && env[k].insert.Honest() && env[k].retry.Honest()
  }

  ghost predicate AllRules(g: Graph, down: set<Endpoint>, paths: Paths, only: Option<nat>, steps: seq<Step>)
    requires AllShortest(SearchLinks(g, down), g.adj.Keys, paths)
  {
    forall i :: 0 <= i < |steps| ==> IsRule(g, down, paths, only, steps[i])
  }

  /** A pair whose writes the switch serves, and whose port fits, is among the rules written. */
  ghost predicate ServedAreListed(g: Graph, paths: Paths, pairs: seq<(nat, Addr)>, env: map<(nat, Addr), WriteEnv>, steps: seq<Step>) {
    forall k :: k in pairs && k in env && env[k].insert.Serve? && env[k].retry.Serve? && PortFits(g, paths, k) ==> Listed(steps, k)
  }

  ghost predicate PortFits(g: Graph, paths: Paths, k: (nat, Addr)) {
    && Host(k.1) in paths && Switch(k.0) in paths[Host(k.1)] && |paths[Host(k.1)][Switch(k.0)]| >= 2
    && g.HasEdge(Switch(k.0), paths[Host(k.1)][Switch(k.0)][1]) && RulePort(g, paths, k) < RC.PORT_LIMIT
  }

  ghost predicate AllListed(pairs: seq<(nat, Addr)>, steps: seq<Step>) {
    forall k :: k in pairs ==> Listed(steps, k)
  }

  lemma NothingYet(w: World, g: Graph, down: set<Endpoint>, paths: Paths, only: Option<nat>, env: map<(nat, Addr), WriteEnv>)
    requires AllShortest(SearchLinks(g, down), g.adj.Keys, paths)
    ensures Run(w, []) == w && AllRules(g, down, paths, only, [])
    ensures ServedAreListed(g, paths, [], env, []) && AllListed([], [])
  {
  }

  lemma PairIsWanted(g: Graph, down: set<Endpoint>, paths: Paths, only: Option<nat>, pairs: seq<(nat, Addr)>, i: nat,
                     dpids: set<nat>, env: map<(nat, Addr), WriteEnv>)
    requires AllShortest(SearchLinks(g, down), g.adj.Keys, paths)
    requires Enumerates(pairs, Wanted(paths, only)) && EnvFor(pairs, dpids, env) && i < |pairs|
    ensures var k := pairs[i];
            && k in Wanted(paths, only)
            && Host(k.1) in paths && Switch(k.0) in paths[Host(k.1)] && |paths[Host(k.1)][Switch(k.0)]| >= 2
            && g.HasEdge(Switch(k.0), paths[Host(k.1)][Switch(k.0)][1])
            && k.0 in dpids && k in env && env[k].insert.Honest() && env[k].retry.Honest()
  {
    var k := pairs[i];
    assert k in pairs;
    WantedMeans(paths, only, k.0, k.1);
    FirstHopUsable(g, down, paths, Switch(k.0), Host(k.1));
  }

  lemma PairDone(w: World, g: Graph, down: set<Endpoint>, paths: Paths, only: Option<nat>, done: seq<(nat, Addr)>,
                 env: map<(nat, Addr), WriteEnv>, steps: seq<Step>, k: (nat, Addr), ok: bool)
    requires AllShortest(SearchLinks(g, down), g.adj.Keys, paths) && AllRules(g, down, paths, only, steps)
    requires k in Wanted(paths, only) && ServedAreListed(g, paths, done, env, steps)
    requires k in env && env[k].insert.Serve? && env[k].retry.Serve? && PortFits(g, paths, k) ==> ok
    requires ok ==> PortFits(g, paths, k)
    requires Host(k.1) in paths && Switch(k.0) in paths[Host(k.1)] && |paths[Host(k.1)][Switch(k.0)]| >= 2
    requires g.HasEdge(Switch(k.0), paths[Host(k.1)][Switch(k.0)][1])
    ensures var step := Put(k.0, Text(k.1, Quad), RulePort(g, paths, k));
            && Run(w, steps + [step]) == Apply(Run(w, steps), step)
            && (ok ==> AllRules(g, down, paths, only, steps + [step]))
            && ServedAreListed(g, paths, done + [k], env, if ok then steps + [step] else steps)
            && (AllListed(done, steps) ==> AllListed(done + [k], steps + [step]))
  {
    hide AllShortest, Wanted;
    var step := Put(k.0, Text(k.1, Quad), RulePort(g, paths, k));
    RunGrows(w, steps, step);
    ListedGrows(steps, step);
    assert ok ==> IsRule(g, down, paths, only, step);
  }

  lemma RunGrows(w: World, steps: seq<Step>, step: Step)
    ensures Run(w, steps + [step]) == Apply(Run(w, steps), step)
  {
    assert (steps + [step])[..|steps|] == steps;
  }

  /** The steps write this text on this switch. */
  ghost predicate Wrote(steps: seq<Step>, d: nat, t: Text) {
    exists i :: 0 <= i < |steps| && steps[i].Put? && steps[i].d == d && steps[i].text == t
  }

  /** The steps write the pair, under its dotted name. */
  ghost predicate Listed(steps: seq<Step>, k: (nat, Addr)) {
    Wrote(steps, k.0, Text(k.1, Quad))
  }

  lemma ListedGrows(steps: seq<Step>, step: Step)
    requires step.Put?
    ensures Wrote(steps + [step], step.d, step.text)
    ensures forall d, t :: Wrote(steps, d, t) ==> Wrote(steps + [step], d, t)
    ensures forall d, t :: Wrote(steps + [step], d, t) ==> Wrote(steps, d, t) || (d == step.d && t == step.text)
  {
    var all := steps + [step];
    assert all[|steps|] == step;
    forall d, t | Wrote(steps, d, t)
      ensures Wrote(all, d, t)
    {
      var i :| 0 <= i < |steps| && steps[i].Put? && steps[i].d == d && steps[i].text == t;
      assert all[i] == steps[i];
    }
    forall d, t | Wrote(all, d, t) && !(d == step.d && t == step.text)
      ensures Wrote(steps, d, t)
    {
      var i :| 0 <= i < |all| && all[i].Put? && all[i].d == d && all[i].text == t;
      assert i < |steps| && steps[i] == all[i];
    }
  }

  /** The step writes one wanted pair, with the port of the first hop of its chosen path. */
  ghost predicate IsRule(g: Graph, down: set<Endpoint>, paths: Paths, only: Option<nat>, step: Step)
    requires AllShortest(SearchLinks(g, down), g.adj.Keys, paths)
  {
    && step.Put? && step.text.spelling.Quad? && (step.d, step.text.ip) in Wanted(paths, only) && step.port < RC.PORT_LIMIT
    && (WantedMeans(paths, only, step.d, step.text.ip); FirstHopUsable(g, down, paths, Switch(step.d), Host(step.text.ip));
        step.port == RulePort(g, paths, (step.d, step.text.ip)))
  }

  // ---- the record against the switches -----------------------------------------------------

  /** Some spelling of the address is recorded for the switch. */
  ghost predicate HasRecord(w: World, d: nat, ip: Addr) {
    exists sp: Spelling :: (d, Text(ip, sp)) in w.record
  }

  /** Every rule on a switch is recorded, and whatever is recorded for its address has its right port. */
  ghost predicate Recorded(w: World) {
    && (forall d, ip :: d in w.tables && ip in w.tables[d] ==> HasRecord(w, d, ip))
    && (forall d, t :: (d, t) in w.record && d in w.tables && t.ip in w.tables[d] ==> w.record[(d, t)] == w.tables[d][t.ip])
  }

  /** And nothing is recorded that is not on its switch: the record is exact. */
  ghost predicate Shadow(w: World) {
    && Recorded(w)
    && forall d, t :: (d, t) in w.record ==> d in w.tables && t.ip in w.tables[d]
  }

  /** What the path report looks up for a rule on a switch is that rule's port. */
  lemma LookupIsRight(w: World, d: nat, ip: Addr)
    requires Recorded(w) && d in w.tables && ip in w.tables[d] && (d, ip) in Quads(w.record)
    ensures Quads(w.record)[(d, ip)] == w.tables[d][ip]
  {
    QuadsAt(w.record, d, ip);
  }

  /** An accepted write keeps the record exact if and only if every other text recorded for its address names its port. */
  lemma PutKeepsShadowIff(w: World, d: nat, t: Text, port: Port)
    requires Shadow(w) && d in w.tables
    ensures Shadow(Apply(w, Put(d, t, port))) <==>
              forall t' :: t' != t && t'.ip == t.ip && (d, t') in w.record ==> w.record[(d, t')] == port
  {
    var w' := Apply(w, Put(d, t, port));
    PutRecords(w, d, t, port);
    if t' :| t' != t && t'.ip == t.ip && (d, t') in w.record && w.record[(d, t')] != port {
      assert (d, t') in w'.record && w'.record[(d, t')] != w'.tables[d][t'.ip];
    }
  }

  lemma PutRecords(w: World, d: nat, t: Text, port: Port)
    requires d in w.tables && forall e, ip :: e in w.tables && ip in w.tables[e] ==> HasRecord(w, e, ip)
    ensures var w' := Apply(w, Put(d, t, port)); forall e, ip :: e in w'.tables && ip in w'.tables[e] ==> HasRecord(w', e, ip)
  {
    var w' := Apply(w, Put(d, t, port));
    forall e, ip | e in w'.tables && ip in w'.tables[e] ensures HasRecord(w', e, ip) {
      if e == d && ip == t.ip {
        assert (d, Text(ip, t.spelling)) in w'.record;
      } else {
        var sp :| (e, Text(ip, sp)) in w.record;
        assert (e, Text(ip, sp)) in w'.record;
      }
    }
  }

  /** An accepted delete keeps it exact if and only if no other text is recorded for its address. */
  lemma DropKeepsShadowIff(w: World, d: nat, t: Text)
    requires Shadow(w) && d in w.tables
    ensures Shadow(Apply(w, Drop(d, t))) <==> forall t' :: t' != t && t'.ip == t.ip ==> (d, t') !in w.record
  {
    var w' := Apply(w, Drop(d, t));
    DropRecords(w, d, t);
    if t' :| t' != t && t'.ip == t.ip && (d, t') in w.record {
      assert (d, t') in w'.record && t'.ip !in w'.tables[d];
    }
  }

  lemma DropRecords(w: World, d: nat, t: Text)
    requires d in w.tables && forall e, ip :: e in w.tables && ip in w.tables[e] ==> HasRecord(w, e, ip)
    ensures var w' := Apply(w, Drop(d, t)); forall e, ip :: e in w'.tables && ip in w'.tables[e] ==> HasRecord(w', e, ip)
  {
    var w' := Apply(w, Drop(d, t));
    forall e, ip | e in w'.tables && ip in w'.tables[e] ensures HasRecord(w', e, ip) {
      assert ip in w.tables[e];
      var sp :| (e, Text(ip, sp)) in w.record;
      assert (e, Text(ip, sp)) in w'.record;
    }
  }

  /** The same address, spelled in two ways, is two records and one rule. */
  const HOST_QUAD := Text(0xA00_0001, Quad)
  const HOST_DECIMAL := Text(0xA00_0001, Decimal)
  const EMPTY_SWITCH := World(map[1 := map[]], map[1 := map[]], map[])

  lemma SpellingsCollide()
    ensures RC.DestinationAccepted(map[RC.NwDst := RC.Dotted([10, 0, 0, 1])])
    ensures RC.DestinationAccepted(map[RC.NwDst := RC.Numeral(0xA00_0001)])
    ensures Destination(map[RC.NwDst := RC.Dotted([10, 0, 0, 1])]) == HOST_QUAD
    ensures Destination(map[RC.NwDst := RC.Numeral(0xA00_0001)]) == HOST_DECIMAL
  {
    var quad: Ip4 := [10, 0, 0, 1];
    TenZeroZeroOne(quad);
    RC.Sizes(RC.DstAddr);
    assert Pow256(4) == 0x1_0000_0000;
  }

  lemma TenZeroZeroOne(b: seq<Byte>)
    requires b == [10, 0, 0, 1]
    ensures Value(b) == 0xA00_0001
  {
    assert b[..3] == [10, 0, 0] && b[..3][..2] == [10, 0] && b[..3][..2][..1] == [10] && b[..3][..2][..1][..0] == [];
    assert Value([10]) == 10 && Value([10, 0]) == 2560 && Value([10, 0, 0]) == 655360;
  }

  /** Added under one spelling, deleted under the other: the rule is gone and its record stays. */
  lemma TwoSpellingsStrandARecord()
    ensures var w := Apply(Apply(EMPTY_SWITCH, Put(1, HOST_DECIMAL, 2)), Drop(1, HOST_QUAD));
            w.tables[1] == map[] && (1, HOST_DECIMAL) in w.record && !Shadow(w)
  {
    var w := Apply(Apply(EMPTY_SWITCH, Put(1, HOST_DECIMAL, 2)), Drop(1, HOST_QUAD));
    assert (1, HOST_DECIMAL) in w.record && HOST_DECIMAL.ip !in w.tables[1];
  }

  /** Installed under one spelling, moved under the other: the path report goes on reading the old port. */
  lemma TwoSpellingsLeaveAStalePort()
    ensures var w := Apply(Apply(EMPTY_SWITCH, Put(1, HOST_QUAD, 1)), Put(1, HOST_DECIMAL, 2));
            && w.tables[1][HOST_QUAD.ip] == 2 && !Recorded(w)
            && (1, HOST_QUAD.ip) in Quads(w.record) && Quads(w.record)[(1, HOST_QUAD.ip)] == 1
  {
    var w := Apply(Apply(EMPTY_SWITCH, Put(1, HOST_QUAD, 1)), Put(1, HOST_DECIMAL, 2));
    QuadsAt(w.record, 1, HOST_QUAD.ip);
    assert (1, HOST_QUAD) in w.record && w.record[(1, HOST_QUAD)] != w.tables[1][HOST_QUAD.ip];
  }

  // ---- one spelling per address ------------------------------------------------------------

  /** How each address is spelled on each switch. */
  type Spell = (nat, Addr) -> Spelling

  ghost predicate Spelt(w: World, spell: Spell) {
    forall d, t :: (d, t) in w.record ==> t.spelling == spell(d, t.ip)
  }

  ghost predicate StepSpelt(step: Step, spell: Spell) {
    match step
    case Put(d, t, _) => t.spelling == spell(d, t.ip)
    case Drop(d, t) => t.spelling == spell(d, t.ip)
    case _ => true
  }

  ghost predicate AllSpelt(steps: seq<Step>, spell: Spell) {
    forall i :: 0 <= i < |steps| ==> StepSpelt(steps[i], spell)
  }

  ghost predicate NoWipe(steps: seq<Step>) {
    forall i :: 0 <= i < |steps| ==> !steps[i].Wipe?
  }

  lemma StepKeepsSpelling(w: World, step: Step, spell: Spell)
    requires Spelt(w, spell) && StepSpelt(step, spell)
    ensures Spelt(Apply(w, step), spell)
  {
  }

  lemma StepKeepsShadow(w: World, step: Step, spell: Spell)
    requires Shadow(w) && Spelt(w, spell) && StepSpelt(step, spell) && !step.Wipe?
    ensures Shadow(Apply(w, step))
  {
    if !step.Idle? && step.d in w.tables {
      match step
      case Put(d, t, port) => PutKeepsShadowIff(w, d, t, port);
      case Drop(d, t) => DropKeepsShadowIff(w, d, t);
      case PutFive(d, e, port) => FiveLeavesShadow(w, step);
      case DropFive(d, e) => FiveLeavesShadow(w, step);
    }
  }

  lemma FiveLeavesShadow(w: World, step: Step)
    requires step.PutFive? || step.DropFive?
    ensures Shadow(w) ==> Shadow(Apply(w, step))
    ensures Recorded(w) ==> Recorded(Apply(w, step))
  {
    var w' := Apply(w, step);
    assert w'.tables == w.tables && w'.record == w.record;
    forall d: nat, ip: Addr | HasRecord(w, d, ip) ensures HasRecord(w', d, ip) {
      var sp :| (d, Text(ip, sp)) in w.record;
      assert (d, Text(ip, sp)) in w'.record;
    }
  }

  lemma StepKeepsRecorded(w: World, step: Step, spell: Spell)
    requires Recorded(w) && Spelt(w, spell) && StepSpelt(step, spell)
    ensures Recorded(Apply(w, step))
  {
    if !step.Idle? && step.d in w.tables {
      match step
      case Put(d, t, port) => PutRecords(w, d, t, port);
      case Drop(d, t) => DropRecords(w, d, t);
      case PutFive(d, e, port) => FiveLeavesShadow(w, step);
      case DropFive(d, e) => FiveLeavesShadow(w, step);
      case Wipe(d) => WipeLeavesRecorded(w, d);
    }
  }

  lemma WipeLeavesRecorded(w: World, d: nat)
    requires Recorded(w)
    ensures Recorded(Apply(w, Wipe(d)))
  {
    var w' := Apply(w, Wipe(d));
    forall e, ip | e in w'.tables && ip in w'.tables[e] ensures HasRecord(w', e, ip) {
      var sp :| (e, Text(ip, sp)) in w.record;
      assert (e, Text(ip, sp)) in w'.record;
    }
  }

  lemma PrefixSpelt(steps: seq<Step>, spell: Spell)
    requires steps != [] && AllSpelt(steps, spell)
    ensures AllSpelt(steps[..|steps| - 1], spell) && StepSpelt(steps[|steps| - 1], spell)
  {
  }

  /** With one spelling per address, the record stays exact over any run of adds, deletes, modifies and install writes. */
  lemma {:induction false} ShadowForever(w: World, steps: seq<Step>, spell: Spell)
    requires Shadow(w) && Spelt(w, spell) && AllSpelt(steps, spell) && NoWipe(steps)
    ensures Shadow(Run(w, steps)) && Spelt(Run(w, steps), spell)
    decreases |steps|
  {
    hide Shadow, Spelt, StepSpelt, Apply;
    if steps != [] {
      var before := steps[..|steps| - 1];
      PrefixSpelt(steps, spell);
      ShadowForever(w, before, spell);
      StepKeepsShadow(Run(w, before), steps[|steps| - 1], spell);
      StepKeepsSpelling(Run(w, before), steps[|steps| - 1], spell);
    }
  }

  /** With pipeline commits in the run, no rule on a switch goes unrecorded or is recorded wrongly. */
  lemma {:induction false} RecordedForever(w: World, steps: seq<Step>, spell: Spell)
    requires Recorded(w) && Spelt(w, spell) && AllSpelt(steps, spell)
    ensures Recorded(Run(w, steps)) && Spelt(Run(w, steps), spell)
    decreases |steps|
  {
    hide Recorded, Spelt, StepSpelt, Apply;
    if steps != [] {
      var before := steps[..|steps| - 1];
      PrefixSpelt(steps, spell);
      RecordedForever(w, before, spell);
      StepKeepsRecorded(Run(w, before), steps[|steps| - 1], spell);
      StepKeepsSpelling(Run(w, before), steps[|steps| - 1], spell);
    }
  }

  /** Both tables hold only what fits: entries the compiler builds, ports of nine bits. */
  ghost predicate AllFit(w: World) {
    && (forall d, e :: d in w.five && e in w.five[d] ==> RC.WellBuilt(e) && w.five[d][e] < RC.PORT_LIMIT)
    && (forall d, ip :: d in w.tables && ip in w.tables[d] ==> w.tables[d][ip] < RC.PORT_LIMIT)
  }

  ghost predicate StepFits(step: Step) {
    match step
    case Put(_, _, port) => port < RC.PORT_LIMIT
    case PutFive(_, e, port) => RC.WellBuilt(e) && port < RC.PORT_LIMIT
    case _ => true
  }

  lemma StepKeepsFit(w: World, step: Step)
    requires AllFit(w) && StepFits(step)
    ensures AllFit(Apply(w, step))
  {
    hide RC.WellBuilt;
    var w' := Apply(w, step);
    forall d, e | d in w'.five && e in w'.five[d] ensures RC.WellBuilt(e) && w'.five[d][e] < RC.PORT_LIMIT {
      if !(step.PutFive? && d == step.d && e == step.entry) {
        assert d in w.five && e in w.five[d] && w'.five[d][e] == w.five[d][e];
      }
    }
  }

  lemma {:induction false} FitForever(w: World, steps: seq<Step>)
    requires AllFit(w) && forall i :: 0 <= i < |steps| ==> StepFits(steps[i])
    ensures AllFit(Run(w, steps))
    decreases |steps|
  {
    hide AllFit, StepFits, Apply;
    if steps != [] {
      assert forall i :: 0 <= i < |steps| - 1 ==> steps[..|steps| - 1][i] == steps[i];
      FitForever(w, steps[..|steps| - 1]);
      StepKeepsFit(Run(w, steps[..|steps| - 1]), steps[|steps| - 1]);
    }
  }

  /** A switch's two tables as the pipeline applies them and the renderer reads them. */
  function AsTables(w: World, d: nat): RC.Tables
    requires d in w.tables
  {
    RC.Tables(FiveOf(w, d), map b | b in (set ip | ip in w.tables[d] :: AsIp4(ip)) && AddrOf(b) in w.tables[d] :: w.tables[d][AddrOf(b)])
  }

  function AsIp4(ip: Addr): Ip4 { AddrBytes(ip) }

  /** The pipeline's view of the destination table holds each rule under its own four octets. */
  lemma SameRules(w: World, d: nat, ip: Addr)
    requires d in w.tables
    ensures ip in w.tables[d] <==> AsIp4(ip) in AsTables(w, d).lpm
    ensures ip in w.tables[d] ==> AsTables(w, d).lpm[AsIp4(ip)] == w.tables[d][ip]
  {
    assert AddrOf(AsIp4(ip)) == ip;
  }

  /** What is rendered for a switch is what its pipeline does, for every packet and every read order. */
  lemma RenderedIsDone(w: World, d: nat, entries: seq<RC.ReadEntry>, p: RC.Packet, out: Option<nat>)
    requires AllFit(w) && d in w.tables && RC.Fitting(p)
    ensures RC.WellFormed(AsTables(w, d))
    ensures RC.Lists(entries, AsTables(w, d)) ==>
              (RC.PipelinePicks(AsTables(w, d), p, out) <==> RC.RulesPick(RC.RenderAll(entries), p, out))
  {
    FitIsWellFormed(w, d);
    hide AsTables, RC.WellFormed, RC.PipelinePicks, RC.RulesPick, RC.RenderAll, RC.Fitting, RC.Lists, AllFit;
    if RC.Lists(entries, AsTables(w, d)) {
      RC.RenderingIsFaithful(AsTables(w, d), entries, p, out);
    }
  }

  lemma FitIsWellFormed(w: World, d: nat)
    requires AllFit(w) && d in w.tables
    ensures RC.WellFormed(AsTables(w, d))
  {
    hide RC.WellBuilt;
    var t := AsTables(w, d);
    forall e | e in t.five ensures RC.WellBuilt(e) && t.five[e] < RC.PORT_LIMIT {
      assert d in w.five && e in w.five[d];
    }
    forall b | b in t.lpm ensures t.lpm[b] < RC.PORT_LIMIT {
      assert AddrOf(b) in w.tables[d];
    }
  }

  // ---- over calls, with whatever the switches answer ---------------------------------------

  /** One call of the proxy, together with what the switch does to each of its RPCs. */
  datatype Op =
    | Add(d: nat, criteria: RC.Match, priority: Option<int>, output: Option<int>, insert: Rpc, retry: Rpc)
    | Delete(d: nat, criteria: RC.Match, priority: Option<int>, rpc: Rpc, readable: bool)
    | Modify(d: nat, criteria: RC.Match, priority: Option<int>, output: Option<int>, rpc: Rpc)
    | Install(g: Graph, down: set<Endpoint>, paths: Paths, only: Option<nat>, pairs: seq<(nat, Addr)>, env: map<(nat, Addr), WriteEnv>)
    | Commit(d: nat)

  /** Refusals are errors, and an install pass runs over computed paths between adopted switches. */
  ghost predicate Possible(op: Op, dpids: set<nat>) {
    match op
    case Add(_, _, _, _, insert, retry) => insert.Honest() && retry.Honest()
    case Delete(_, _, _, rpc, _) => rpc.Honest()
    case Modify(_, _, _, _, rpc) => rpc.Honest()
    case Install(g, down, paths, only, pairs, env) =>
      AllShortest(SearchLinks(g, down), g.adj.Keys, paths) && Enumerates(pairs, Wanted(paths, only)) && EnvFor(pairs, dpids, env)
    case Commit(_) => true
  }

  /** The call spells its destinations as agreed; hosts are spelled as dotted quads. */
  ghost predicate OpSpelt(op: Op, spell: Spell) {
    match op
    case Add(d, m, _, _, _, _) => RC.DestinationAccepted(m) ==> Destination(m).spelling == spell(d, Destination(m).ip)
    case Delete(d, m, _, _, _) => RC.DestinationAccepted(m) ==> Destination(m).spelling == spell(d, Destination(m).ip)
    case Modify(d, m, _, _, _) => RC.DestinationAccepted(m) ==> Destination(m).spelling == spell(d, Destination(m).ip)
    case Install(_, _, _, _, pairs, _) => forall k :: k in pairs ==> spell(k.0, k.1) == Quad
    case Commit(_) => true
  }

  lemma NamedIsSpelt(step: Step, d: nat, m: RC.Match, priority: Option<int>, spell: Spell)
    requires Names(step, d, m, priority)
    requires RC.DestinationAccepted(m) ==> Destination(m).spelling == spell(d, Destination(m).ip)
    ensures StepSpelt(step, spell) && !step.Wipe?
    ensures step.PutFive? ==> RC.WellBuilt(step.entry)
  {
  }

  /** What a read of the table returns, in whatever order the switch lists it. */
  method ReadTable(t: Table) returns (listing: seq<Addr>)
    ensures Enumerates(listing, t.Keys)
  {
    listing := [];
    var left := t.Keys;
    while left != {}
      invariant left <= t.Keys && Enumerates(listing, t.Keys - left)
      decreases |left|
    {
      var ip :| ip in left;
      listing := listing + [ip];
      left := left - {ip};
    }
  }

  /** One call, as the effects it had. */
  method PerformOp(m: TopologyManager, op: Op, ghost spell: Spell) returns (ghost steps: seq<Step>)
    requires m.Valid() && Possible(op, m.tables.Keys)
    modifies m
    ensures m.Valid() && m.tables.Keys == old(m.tables).Keys && m.Now() == Run(old(m.Now()), steps)
    ensures !op.Commit? ==> NoWipe(steps)
    ensures forall i :: 0 <= i < |steps| ==> StepFits(steps[i])
    ensures OpSpelt(op, spell) ==> AllSpelt(steps, spell)
  {
    hide Apply, Run, AllRules, AllShortest, EnvFor, Enumerates, RC.WellBuilt, ServedAreListed, AllListed, Names, StepSpelt, Destination;
    ghost var step := Idle;
    var ok;
    match op {
      case Add(d, criteria, priority, output, insert, retry) =>
        ok, step := m.RouteFlow(d, criteria, priority, output, insert, retry);
        StepIsTame(step, d, criteria, priority, op, spell);
      case Delete(d, criteria, priority, rpc, readable) =>
        var readback := None;
        if readable && d in m.tables {
          var listing := ReadTable(m.tables[d]);
          readback := Some(listing);
        }
        ok, step := m.UnrouteFlow(d, criteria, priority, rpc, readback);
        StepIsTame(step, d, criteria, priority, op, spell);
      case Modify(d, criteria, priority, output, rpc) =>
        ok, step := m.ModifyFlow(d, criteria, priority, output, rpc);
        StepIsTame(step, d, criteria, priority, op, spell);
      case Install(g, down, paths, only, pairs, env) =>
        var accepted, attempted;
        accepted, attempted, steps := m.InstallInitialRoutes(g, down, paths, only, pairs, env);
        PassIsTame(g, down, paths, only, pairs, steps, spell);
        return;
      case Commit(d) =>
        if d in m.tables {
          m.CommitPipeline(d);
          step := Wipe(d);
        } else {
          NothingDone(m.Now(), d, map[], None);
        }
        CommitIsTame(step, spell);
    }
    steps := [step];
    OneStep(old(m.Now()), step);
  }

  lemma CommitIsTame(step: Step, spell: Spell)
    requires step.Wipe? || step.Idle?
    ensures StepFits(step) && StepSpelt(step, spell)
  {
  }

  lemma StepIsTame(step: Step, d: nat, m: RC.Match, priority: Option<int>, op: Op, spell: Spell)
    requires Names(step, d, m, priority) && (op.Add? || op.Delete? || op.Modify?) && op.d == d && op.criteria == m
    requires step.Put? || step.PutFive? ==> step.port < RC.PORT_LIMIT
    ensures StepFits(step) && !step.Wipe? && (OpSpelt(op, spell) ==> StepSpelt(step, spell))
  {
    if OpSpelt(op, spell) {
      NamedIsSpelt(step, d, m, priority, spell);
    }
  }

  lemma PassIsTame(g: Graph, down: set<Endpoint>, paths: Paths, only: Option<nat>, pairs: seq<(nat, Addr)>, steps: seq<Step>, spell: Spell)
    requires AllShortest(SearchLinks(g, down), g.adj.Keys, paths) && AllRules(g, down, paths, only, steps)
    requires Enumerates(pairs, Wanted(paths, only))
    ensures NoWipe(steps) && forall i :: 0 <= i < |steps| ==> StepFits(steps[i])
    ensures (forall k :: k in pairs ==> spell(k.0, k.1) == Quad) ==> AllSpelt(steps, spell)
  {
    hide AllShortest, Wanted;
    assert forall i :: 0 <= i < |steps| ==> IsRule(g, down, paths, only, steps[i]);
    if forall k :: k in pairs ==> spell(k.0, k.1) == Quad {
      forall i | 0 <= i < |steps| ensures StepSpelt(steps[i], spell) {
        assert IsRule(g, down, paths, only, steps[i]);
        assert (steps[i].d, steps[i].text.ip) in pairs;
      }
    }
  }

  lemma OneStep(w: World, step: Step)
    ensures Run(w, [step]) == Apply(w, step)
  {
    RunGrows(w, [], step);
    assert [] + [step] == [step];
  }

  /**
   One proxy driven through any calls, against switches that serve, refuse or answer ambiguously as they
   like. Whatever the spellings, what is rendered for a switch is what it does. With one spelling per
   address, and without pipeline commits, the record equals the destination tables; with commits
   every rule on a switch is still recorded, and only with its right port.
   */
  method Replay(dpids: set<nat>, ops: seq<Op>, ghost spell: Spell) returns (m: TopologyManager)
    requires forall i :: 0 <= i < |ops| ==> Possible(ops[i], dpids)
    ensures fresh(m) && m.Valid() && m.tables.Keys == dpids && AllFit(m.Now())
    ensures forall d :: d in dpids ==> RC.WellFormed(AsTables(m.Now(), d))
    ensures (forall i :: 0 <= i < |ops| ==> OpSpelt(ops[i], spell)) ==> Recorded(m.Now())
    ensures (forall i :: 0 <= i < |ops| ==> OpSpelt(ops[i], spell) && !ops[i].Commit?) ==> Shadow(m.Now())
  {
    m := new TopologyManager(dpids);
    ghost var wiped, mixed := false, false;
    EmptyIsExact(m.Now(), spell);
    hide Recorded, AllFit, Shadow, Spelt, Run, Possible, OpSpelt, AsTables, RC.WellFormed;
    for i := 0 to |ops|
      invariant m.Valid() && m.tables.Keys == dpids && AllFit(m.Now())
      invariant mixed || (Recorded(m.Now()) && Spelt(m.Now(), spell))
      invariant mixed || wiped || Shadow(m.Now())
      invariant wiped ==> exists j :: 0 <= j < i && ops[j].Commit?
      invariant mixed ==> exists j :: 0 <= j < i && !OpSpelt(ops[j], spell)
    {
      ghost var before := m.Now();
      ghost var steps := PerformOp(m, ops[i], spell);
      FitForever(before, steps);
      if !OpSpelt(ops[i], spell) {
        mixed := true;
      } else if !mixed {
        RecordedForever(before, steps, spell);
        if ops[i].Commit? {
          wiped := true;
        } else if !wiped {
          ShadowForever(before, steps, spell);
        }
      }
    }
    forall d | d in dpids ensures RC.WellFormed(AsTables(m.Now(), d)) {
      FitIsWellFormed(m.Now(), d);
    }
  }

  lemma EmptyIsExact(w: World, spell: Spell)
    requires w.record == map[] && (forall d :: d in w.tables ==> w.tables[d] == map[]) && (forall d :: d in w.five ==> w.five[d] == map[])
    ensures Shadow(w) && Recorded(w) && AllFit(w) && Spelt(w, spell)
  {
  }

  ghost predicate OnlyPutsOn(d: nat, steps: seq<Step>) {
    forall i :: 0 <= i < |steps| ==> steps[i].Put? && steps[i].d == d
  }

  /** What a run of writes to one switch leaves: table and record gain exactly what was written. */
  lemma {:induction false} PutsGrow(w: World, d: nat, steps: seq<Step>)
    requires d in w.tables && OnlyPutsOn(d, steps)
    ensures var w' := Run(w, steps);
            && w'.tables.Keys == w.tables.Keys
            && (forall ip :: ip in w'.tables[d] <==> ip in w.tables[d] || exists sp :: Wrote(steps, d, Text(ip, sp)))
            && (forall e: nat, t: Text :: (e, t) in w'.record <==> (e, t) in w.record || Wrote(steps, e, t))
            && (forall e :: e in w.tables && e != d ==> w'.tables[e] == w.tables[e])
    decreases |steps|
  {
    if steps != [] {
      var before, last := steps[..|steps| - 1], steps[|steps| - 1];
      assert steps == before + [last];
      PutsGrow(w, d, before);
      ListedGrows(before, last);
      PutsStep(w, d, before, last);
    }
  }

  lemma PutsStep(w: World, d: nat, before: seq<Step>, last: Step)
    requires d in w.tables && last.Put? && last.d == d && d in Run(w, before).tables
    requires forall ip :: ip in Run(w, before).tables[d] <==> ip in w.tables[d] || exists sp :: Wrote(before, d, Text(ip, sp))
    ensures var w' := Apply(Run(w, before), last);
            forall ip :: ip in w'.tables[d] <==> ip in w.tables[d] || exists sp :: Wrote(before + [last], d, Text(ip, sp))
  {
    hide Run, Wrote;
    ListedGrows(before, last);
    var w' := Apply(Run(w, before), last);
    forall ip ensures ip in w'.tables[d] <==> ip in w.tables[d] || exists sp :: Wrote(before + [last], d, Text(ip, sp)) {
      if ip == last.text.ip {
        assert Wrote(before + [last], d, Text(ip, last.text.spelling));
      }
    }
  }

  /**
   A commit empties the switch but forgets nothing: with one spelling per address the record is exact
   again if and only if the refill writes every text that was recorded for that switch.
   */
  lemma ShadowAfterRefillIff(w: World, d: nat, refill: seq<Step>, spell: Spell)
    requires Shadow(w) && d in w.tables && OnlyPutsOn(d, refill) && Spelt(w, spell) && AllSpelt(refill, spell)
    ensures Shadow(Run(Apply(w, Wipe(d)), refill)) <==> forall t :: (d, t) in w.record ==> Wrote(refill, d, t)
  {
    var wiped := Apply(w, Wipe(d));
    WipeLeavesRecorded(w, d);
    StepKeepsSpelling(w, Wipe(d), spell);
    PutsGrow(wiped, d, refill);
    RecordedForever(wiped, refill, spell);
    assert wiped.record == w.record && wiped.tables == w.tables[d := map[]];
    hide Run, Apply, Recorded, Wrote, Spelt, AllSpelt, OnlyPutsOn;
    RefilledIff(w, Run(wiped, refill), d, refill, spell);
  }

  /** The same, said of the world after the refill. */
  lemma RefilledIff(w: World, w': World, d: nat, refill: seq<Step>, spell: Spell)
    requires Shadow(w) && Spelt(w, spell) && AllSpelt(refill, spell) && OnlyPutsOn(d, refill) && d in w.tables
    requires w'.tables.Keys == w.tables.Keys && Recorded(w')
    requires forall ip :: ip in w'.tables[d] <==> exists sp :: Wrote(refill, d, Text(ip, sp))
    requires forall e: nat, t: Text :: (e, t) in w'.record <==> (e, t) in w.record || Wrote(refill, e, t)
    requires forall e :: e in w.tables && e != d ==> w'.tables[e] == w.tables[e]
    ensures Shadow(w') <==> forall t :: (d, t) in w.record ==> Wrote(refill, d, t)
  {
    hide Recorded, Wrote, AllSpelt, OnlyPutsOn;
    if forall t :: (d, t) in w.record ==> Wrote(refill, d, t) {
      forall e, t | (e, t) in w'.record
        ensures e in w'.tables && t.ip in w'.tables[e]
      {
        OnlyThere(d, refill, e, t);
        assert Wrote(refill, e, t) ==> Wrote(refill, e, Text(t.ip, t.spelling));
      }
    } else {
      var t :| (d, t) in w.record && !Wrote(refill, d, t);
      forall sp | Wrote(refill, d, Text(t.ip, sp)) ensures sp == t.spelling {
        WrittenIsSpelt(refill, d, Text(t.ip, sp), spell);
      }
      assert (d, t) in w'.record && t.ip !in w'.tables[d];
    }
  }

  lemma WrittenIsSpelt(steps: seq<Step>, d: nat, t: Text, spell: Spell)
    requires AllSpelt(steps, spell) && Wrote(steps, d, t)
    ensures t.spelling == spell(d, t.ip)
  {
    var i :| 0 <= i < |steps| && steps[i].Put? && steps[i].d == d && steps[i].text == t;
    assert StepSpelt(steps[i], spell);
  }

  lemma OnlyThere(d: nat, refill: seq<Step>, e: nat, t: Text)
    requires OnlyPutsOn(d, refill)
    ensures Wrote(refill, e, t) ==> e == d
  {
  }

  /** The commit that strands a record: one recorded rule, wiped and not written again. */
  lemma WipeStrandsRecord()
    ensures var w := Apply(EMPTY_SWITCH, Put(1, HOST_QUAD, 2));
            Shadow(w) && !Shadow(Apply(w, Wipe(1))) && Recorded(Apply(w, Wipe(1)))
  {
    var w := Apply(EMPTY_SWITCH, Put(1, HOST_QUAD, 2));
    EmptyIsExact(EMPTY_SWITCH, (_, _) => Quad);
    PutKeepsShadowIff(EMPTY_SWITCH, 1, HOST_QUAD, 2);
    WipeLeavesRecorded(w, 1);
    var lost := Apply(w, Wipe(1));
    assert (1, HOST_QUAD) in lost.record && HOST_QUAD.ip !in lost.tables[1];
  }

  // ---- from an accepted pass to delivery ---------------------------------------------------

  lemma {:induction false} RulesStick(w: World, g: Graph, down: set<Endpoint>, paths: Paths, steps: seq<Step>, k: (nat, Addr))
    requires AllShortest(SearchLinks(g, down), g.adj.Keys, paths) && AllRules(g, down, paths, None, steps)
    requires k.0 in w.tables && k in Wanted(paths, None) && Listed(steps, k)
    ensures WrittenFor(g, down, paths, Quads(Run(w, steps).record), k.0, k.1) && Run(w, steps).tables.Keys == w.tables.Keys
    decreases |steps|
  {
    hide AllShortest, SearchLinks, Wanted;
    var before, last := steps[..|steps| - 1], steps[|steps| - 1];
    assert IsRule(g, down, paths, None, last);
    forall i | 0 <= i < |before| ensures IsRule(g, down, paths, None, before[i]) {
      assert before[i] == steps[i];
    }
    RunKeepsSwitches(w, before);
    assert steps == before + [last];
    ListedGrows(before, last);
    if k != (last.d, last.text.ip) {
      assert Listed(before, k);
      RulesStick(w, g, down, paths, before, k);
      QuadsAt(Run(w, before).record, k.0, k.1);
    }
    QuadsAt(Run(w, steps).record, k.0, k.1);
    WantedMeans(paths, None, k.0, k.1);
    FirstHopUsable(g, down, paths, Switch(k.0), Host(k.1));
  }

  lemma {:induction false} RunKeepsSwitches(w: World, steps: seq<Step>)
    ensures Run(w, steps).tables.Keys == w.tables.Keys
    decreases |steps|
  {
    if steps != [] {
      RunKeepsSwitches(w, steps[..|steps| - 1]);
    }
  }

  /** A pass whose every write was accepted leaves the record every delivery argument starts from. */
  lemma AcceptedPassIsWritten(w: World, g: Graph, down: set<Endpoint>, paths: Paths, pairs: seq<(nat, Addr)>, steps: seq<Step>)
    requires AllShortest(SearchLinks(g, down), g.adj.Keys, paths)
    requires Enumerates(pairs, Wanted(paths, None)) && (forall k :: k in pairs ==> k.0 in w.tables)
    requires AllRules(g, down, paths, None, steps) && AllListed(pairs, steps)
    ensures AllWritten(g, down, paths, Quads(Run(w, steps).record))
  {
    forall s: nat, d: Addr | (s, d) in Wanted(paths, None)
      ensures WrittenFor(g, down, paths, Quads(Run(w, steps).record), s, d)
    {
      assert (s, d) in pairs;
      RulesStick(w, g, down, paths, steps, (s, d));
    }
  }
}
