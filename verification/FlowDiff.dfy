/**
 The difference of two sets of flow tables. It is a patch: applied to the old tables it gives the new
 ones, reversed it gives the old ones back, and it is empty exactly when nothing differs.
 */
module FlowDiff {
  import opened Common

  type Dpid = nat
  type Out = nat

  datatype Key = Key(net: nat, mask: nat, priority: nat)
  datatype Rule = Rule(key: Key, out: Out)
  datatype Change = Change(key: Key, oldOut: Out, newOut: Out)
  datatype Diff = Diff(dpid: Dpid, added: seq<Change>, removed: seq<Change>, modified: seq<Change>)

  type Table = map<Key, Out>
  type Rules = map<Dpid, seq<Rule>>

  // ---- indexing a rule list ------------------------------------------------------------------

  function LastWins(rules: seq<Rule>): Table {
    if rules == [] then map[] else
      LastWins(rules[..|rules| - 1])[rules[|rules| - 1].key := rules[|rules| - 1].out]
  }

  /** Rule `i` is the last one with its key. */
  predicate IsLast(rules: seq<Rule>, i: nat) {
    i < |rules| && forall j :: i < j < |rules| ==> rules[j].key != rules[i].key
  }

  /** The last rule of a key is in the index … */
  lemma {:induction false} LastIsIndexed(rules: seq<Rule>, i: nat)
    requires IsLast(rules, i)
    ensures rules[i].key in LastWins(rules) && LastWins(rules)[rules[i].key] == rules[i].out
    decreases |rules|
  {
    var n := |rules| - 1;
    if i < n {
      assert rules[n].key != rules[i].key;
      assert IsLast(rules[..n], i);
      LastIsIndexed(rules[..n], i);
    }
  }

  /** … and everything in the index is the last rule of its key. */
  lemma {:induction false} IndexedIsLast(rules: seq<Rule>, k: Key) returns (i: nat)
    requires k in LastWins(rules)
    ensures IsLast(rules, i) && rules[i] == Rule(k, LastWins(rules)[k])
    decreases |rules|
  {
    var n := |rules| - 1;
    if rules[n].key == k {
      i := n;
    } else {
      i := IndexedIsLast(rules[..n], k);
      assert rules[..n][i] == rules[i];
      assert forall j :: i < j < n ==> rules[..n][j] == rules[j];
    }
  }

  method BuildMap(rules: seq<Rule>) returns (m: Table)
    ensures m == LastWins(rules)
  {
    m := map[];
    for i := 0 to |rules|
      invariant m == LastWins(rules[..i])
    {
      assert rules[..i + 1][..i] == rules[..i];
      m := m[rules[i].key := rules[i].out];
    }
    assert rules[..|rules|] == rules;
  }

  // ---- one switch ----------------------------------------------------------------------------

  function Keys(cs: seq<Change>): (ks: seq<Key>)
    ensures |ks| == |cs| && forall i :: 0 <= i < |cs| ==> ks[i] == cs[i].key
  {
    seq(|cs|, i requires 0 <= i < |cs| => cs[i].key)
  }

  predicate IsAdded(o: Table, n: Table, c: Change) {
    c.key !in o && c.key in n && c.oldOut == 0 && c.newOut == n[c.key]
  }

  predicate IsRemoved(o: Table, n: Table, c: Change) {
    c.key in o && c.key !in n && c.oldOut == o[c.key] && c.newOut == 0
  }

  predicate IsModified(o: Table, n: Table, c: Change) {
    c.key in o && c.key in n && c.oldOut == o[c.key] && c.newOut == n[c.key] && o[c.key] != n[c.key]
  }

  function AddedKeys(o: Table, n: Table): set<Key> { n.Keys - o.Keys }
  function ModifiedKeys(o: Table, n: Table): set<Key> { set k | k in n && k in o && o[k] != n[k] }

  /** The lists say exactly what differs, each key once, with its old and new port. */
  ghost predicate IsDiff(o: Table, n: Table, d: Diff) {
    && Enumerates(Keys(d.added), AddedKeys(o, n)) && (forall i :: 0 <= i < |d.added| ==> IsAdded(o, n, d.added[i]))
    && Enumerates(Keys(d.removed), AddedKeys(n, o)) && (forall i :: 0 <= i < |d.removed| ==> IsRemoved(o, n, d.removed[i]))
    && Enumerates(Keys(d.modified), ModifiedKeys(o, n)) && (forall i :: 0 <= i < |d.modified| ==> IsModified(o, n, d.modified[i]))
  }

  lemma EnumeratesMore(cs: seq<Change>, ks: set<Key>, c: Change)
    requires Enumerates(Keys(cs), ks) && c.key !in ks
    ensures Enumerates(Keys(cs + [c]), ks + {c.key})
  {
    assert Keys(cs + [c]) == Keys(cs) + [c.key];
  }

  /** The additions found once every key outside `left` was looked at; likewise the other two. */
  ghost predicate AddedList(o: Table, n: Table, cs: seq<Change>, left: set<Key>) {
    Enumerates(Keys(cs), AddedKeys(o, n) - left) && forall i :: 0 <= i < |cs| ==> IsAdded(o, n, cs[i])
  }

  ghost predicate RemovedList(o: Table, n: Table, cs: seq<Change>, left: set<Key>) {
    Enumerates(Keys(cs), AddedKeys(n, o) - left) && forall i :: 0 <= i < |cs| ==> IsRemoved(o, n, cs[i])
  }

  ghost predicate ModifiedList(o: Table, n: Table, cs: seq<Change>, left: set<Key>) {
    Enumerates(Keys(cs), ModifiedKeys(o, n) - left) && forall i :: 0 <= i < |cs| ==> IsModified(o, n, cs[i])
  }

  lemma ListsStart(o: Table, n: Table)
    ensures AddedList(o, n, [], n.Keys) && RemovedList(o, n, [], o.Keys) && ModifiedList(o, n, [], n.Keys)
  {
  }

  lemma AddedStep(o: Table, n: Table, cs: seq<Change>, left: set<Key>, k: Key)
    requires AddedList(o, n, cs, left) && k in left && k in n
    ensures AddedList(o, n, if k in o then cs else cs + [Change(k, 0, n[k])], left - {k})
  {
    hide Enumerates;
    if k in o {
      assert AddedKeys(o, n) - (left - {k}) == AddedKeys(o, n) - left;
    } else {
      EnumeratesMore(cs, AddedKeys(o, n) - left, Change(k, 0, n[k]));
      assert AddedKeys(o, n) - (left - {k}) == AddedKeys(o, n) - left + {k};
    }
  }

  lemma RemovedStep(o: Table, n: Table, cs: seq<Change>, left: set<Key>, k: Key)
    requires RemovedList(o, n, cs, left) && k in left && k in o
    ensures RemovedList(o, n, if k in n then cs else cs + [Change(k, o[k], 0)], left - {k})
  {
    hide Enumerates;
    if k in n {
      assert AddedKeys(n, o) - (left - {k}) == AddedKeys(n, o) - left;
    } else {
      EnumeratesMore(cs, AddedKeys(n, o) - left, Change(k, o[k], 0));
      assert AddedKeys(n, o) - (left - {k}) == AddedKeys(n, o) - left + {k};
    }
  }

  lemma ModifiedStep(o: Table, n: Table, cs: seq<Change>, left: set<Key>, k: Key)
    requires ModifiedList(o, n, cs, left) && k in left && k in n
    ensures ModifiedList(o, n, if k in o && o[k] != n[k] then cs + [Change(k, o[k], n[k])] else cs, left - {k})
  {
    hide Enumerates;
    if k in o && o[k] != n[k] {
      EnumeratesMore(cs, ModifiedKeys(o, n) - left, Change(k, o[k], n[k]));
      assert ModifiedKeys(o, n) - (left - {k}) == ModifiedKeys(o, n) - left + {k};
    } else {
      assert ModifiedKeys(o, n) - (left - {k}) == ModifiedKeys(o, n) - left;
    }
  }

  method AddedAndModified(o: Table, n: Table) returns (added: seq<Change>, modified: seq<Change>)
    ensures AddedList(o, n, added, {}) && ModifiedList(o, n, modified, {})
  {
    hide AddedList, ModifiedList;
    added, modified := [], [];
    var left := n.Keys;
    ListsStart(o, n);
    while left != {}
      invariant left <= n.Keys
      invariant AddedList(o, n, added, left) && ModifiedList(o, n, modified, left)
      decreases |left|
    {
      var k :| k in left;
      AddedStep(o, n, added, left, k);
      ModifiedStep(o, n, modified, left, k);
      if k !in o {
        added := added + [Change(k, 0, n[k])];
      } else if o[k] != n[k] {
        modified := modified + [Change(k, o[k], n[k])];
      }
      left := left - {k};
    }
  }

  method Removed(o: Table, n: Table) returns (removed: seq<Change>)
    ensures RemovedList(o, n, removed, {})
  {
    hide RemovedList;
    removed := [];
    var left := o.Keys;
    ListsStart(o, n);
    while left != {}
      invariant left <= o.Keys && RemovedList(o, n, removed, left)
      decreases |left|
    {
      var k :| k in left;
      RemovedStep(o, n, removed, left, k);
      if k !in n {
        removed := removed + [Change(k, o[k], 0)];
      }
      left := left - {k};
    }
  }

  lemma ListsMakeDiff(o: Table, n: Table, d: Diff)
    requires AddedList(o, n, d.added, {}) && RemovedList(o, n, d.removed, {}) && ModifiedList(o, n, d.modified, {})
    ensures IsDiff(o, n, d)
  {
    assert AddedKeys(o, n) - {} == AddedKeys(o, n) && AddedKeys(n, o) - {} == AddedKeys(n, o);
    assert ModifiedKeys(o, n) - {} == ModifiedKeys(o, n);
  }

  // ---- applying changes ----------------------------------------------------------------------

  function Put(m: Table, cs: seq<Change>): Table {
    if cs == [] then m else Put(m, cs[..|cs| - 1])[cs[|cs| - 1].key := cs[|cs| - 1].newOut]
  }

  function Drop(m: Table, cs: seq<Change>): Table {
    if cs == [] then m else Drop(m, cs[..|cs| - 1]) - {cs[|cs| - 1].key}
  }

  function Patched(m: Table, d: Diff): Table {
    Put(Put(Drop(m, d.removed), d.added), d.modified)
  }

  lemma {:induction false} DropMeans(m: Table, cs: seq<Change>)
    ensures forall k :: k in Drop(m, cs) <==> k in m && k !in Keys(cs)
    ensures forall k :: k in Drop(m, cs) ==> Drop(m, cs)[k] == m[k]
  {
    if cs != [] {
      var before := cs[..|cs| - 1];
      DropMeans(m, before);
      assert Keys(cs) == Keys(before) + [cs[|cs| - 1].key];
    }
  }

  /** Every listed key takes its listed port; the others keep theirs. */
  lemma {:induction false} PutMeans(m: Table, n: Table, cs: seq<Change>)
    requires forall i :: 0 <= i < |cs| ==> cs[i].key in n && cs[i].newOut == n[cs[i].key]
    ensures forall k :: k in Put(m, cs) <==> k in m || k in Keys(cs)
    ensures forall k :: k in Keys(cs) ==> k in n && Put(m, cs)[k] == n[k]
    ensures forall k :: k in m && k !in Keys(cs) ==> Put(m, cs)[k] == m[k]
  {
    if cs != [] {
      var before := cs[..|cs| - 1];
      PutMeans(m, n, before);
      assert Keys(cs) == Keys(before) + [cs[|cs| - 1].key];
    }
  }

  lemma PatchOne(o: Table, n: Table, d: Diff)
    requires IsDiff(o, n, d)
    ensures Patched(o, d) == n
  {
    var dropped := Drop(o, d.removed);
    var grown := Put(dropped, d.added);
    DropMeans(o, d.removed);
    PutMeans(dropped, n, d.added);
    PutMeans(grown, n, d.modified);
    hide Put, Drop, NoDup;
    forall k ensures k in Patched(o, d) <==> k in n {
    }
    forall k | k in n ensures Patched(o, d)[k] == n[k] {
      assert k in Keys(d.modified) <==> k in ModifiedKeys(o, n);
      assert k in Keys(d.added) <==> k in AddedKeys(o, n);
    }
  }

  function Flip(cs: seq<Change>): (r: seq<Change>)
    ensures |r| == |cs| && forall i :: 0 <= i < |cs| ==> r[i] == Change(cs[i].key, cs[i].newOut, cs[i].oldOut)
  {
    seq(|cs|, i requires 0 <= i < |cs| => Change(cs[i].key, cs[i].newOut, cs[i].oldOut))
  }

  /** The same difference seen from the new table. */
  function Reversed(d: Diff): Diff { Diff(d.dpid, Flip(d.removed), Flip(d.added), Flip(d.modified)) }

  lemma ReverseIsDiff(o: Table, n: Table, d: Diff)
    requires IsDiff(o, n, d)
    ensures IsDiff(n, o, Reversed(d))
  {
    assert Keys(Flip(d.added)) == Keys(d.added) && Keys(Flip(d.removed)) == Keys(d.removed);
    assert Keys(Flip(d.modified)) == Keys(d.modified) && ModifiedKeys(o, n) == ModifiedKeys(n, o);
  }

  /** The ports carried along make the patch reversible. */
  lemma ReverseRestores(o: Table, n: Table, d: Diff)
    requires IsDiff(o, n, d)
    ensures Patched(Patched(o, d), Reversed(d)) == o
  {
    PatchOne(o, n, d);
    ReverseIsDiff(o, n, d);
    PatchOne(n, o, Reversed(d));
  }

  /** No key is listed twice, in one list or across two. */
  lemma KeysAreDisjoint(o: Table, n: Table, d: Diff)
    requires IsDiff(o, n, d)
    ensures NoDup(Keys(d.added) + Keys(d.removed) + Keys(d.modified))
  {
    assert forall k :: k in Keys(d.added) ==> k in AddedKeys(o, n);
    assert forall k :: k in Keys(d.removed) ==> k in AddedKeys(n, o);
    assert forall k :: k in Keys(d.modified) ==> k in ModifiedKeys(o, n);
    NoDupConcat(Keys(d.added), Keys(d.removed));
    NoDupConcat(Keys(d.added) + Keys(d.removed), Keys(d.modified));
  }

  lemma FirstIsListed(cs: seq<Change>, ks: set<Key>)
    requires Enumerates(Keys(cs), ks)
    ensures cs != [] ==> cs[0].key in ks
  {
    if cs != [] {
      assert Keys(cs)[0] in Keys(cs);
    }
  }

  lemma EmptyIff(o: Table, n: Table, d: Diff)
    requires IsDiff(o, n, d)
    ensures d.added == [] && d.removed == [] && d.modified == [] <==> o == n
  {
    if d.added == [] && d.removed == [] && d.modified == [] {
      PatchOne(o, n, d);
    }
    FirstIsListed(d.added, AddedKeys(o, n));
    FirstIsListed(d.removed, AddedKeys(n, o));
    FirstIsListed(d.modified, ModifiedKeys(o, n));
  }

  // ---- all switches --------------------------------------------------------------------------

  /** A switch without rules and a switch that is not listed are the same. */
  function At(ts: map<Dpid, Table>, d: Dpid): Table { if d in ts then ts[d] else map[] }

  function Indexed(rules: Rules): map<Dpid, Table> { map d | d in rules :: LastWins(rules[d]) }

  function Dpids(ds: seq<Diff>): (r: seq<Dpid>)
    ensures |r| == |ds| && forall i :: 0 <= i < |ds| ==> r[i] == ds[i].dpid
  {
    seq(|ds|, i requires 0 <= i < |ds| => ds[i].dpid)
  }

  function Differing(o: map<Dpid, Table>, n: map<Dpid, Table>): set<Dpid> {
    set d | d in o.Keys + n.Keys && At(o, d) != At(n, d)
  }

  /** One entry per switch that differs, saying exactly how. */
  ghost predicate IsTableDiff(o: map<Dpid, Table>, n: map<Dpid, Table>, ds: seq<Diff>, among: set<Dpid>) {
    && Enumerates(Dpids(ds), Differing(o, n) * among)
    && forall i :: 0 <= i < |ds| ==> IsDiff(At(o, ds[i].dpid), At(n, ds[i].dpid), ds[i])
  }

  lemma TableDiffMore(o: map<Dpid, Table>, n: map<Dpid, Table>, ds: seq<Diff>, among: set<Dpid>, diff: Diff)
    requires IsTableDiff(o, n, ds, among) && diff.dpid !in among && diff.dpid in o.Keys + n.Keys
    requires IsDiff(At(o, diff.dpid), At(n, diff.dpid), diff)
    ensures IsTableDiff(o, n, if diff.added == [] && diff.removed == [] && diff.modified == [] then ds else ds + [diff],
                        among + {diff.dpid})
  {
    EmptyIff(At(o, diff.dpid), At(n, diff.dpid), diff);
    hide IsDiff;
    if At(o, diff.dpid) == At(n, diff.dpid) {
      assert Differing(o, n) * (among + {diff.dpid}) == Differing(o, n) * among;
    } else {
      assert Differing(o, n) * (among + {diff.dpid}) == Differing(o, n) * among + {diff.dpid};
      assert Dpids(ds + [diff]) == Dpids(ds) + [diff.dpid];
    }
  }

  /** A switch the new tables list; it may be new. */
  method DiffListed(oldTable: Rules, newTable: Rules, d: Dpid) returns (diff: Diff)
    requires d in newTable
    ensures diff.dpid == d && IsDiff(At(Indexed(oldTable), d), At(Indexed(newTable), d), diff)
  {
    hide IsDiff, LastWins;
    var newMap := BuildMap(newTable[d]);
    var oldMap: Table := map[];
    if d in oldTable {
      oldMap := BuildMap(oldTable[d]);
    }
    var added, modified := AddedAndModified(oldMap, newMap);
    var removed := Removed(oldMap, newMap);
    diff := Diff(d, added, removed, modified);
    ListsMakeDiff(oldMap, newMap, diff);
  }

  /** A switch only the old tables list. */
  method DiffDropped(oldTable: Rules, newTable: Rules, d: Dpid) returns (diff: Diff)
    requires d in oldTable && d !in newTable
    ensures diff.dpid == d && diff.added == [] && diff.modified == []
    ensures IsDiff(At(Indexed(oldTable), d), At(Indexed(newTable), d), diff)
  {
    hide IsDiff, LastWins;
    var oldMap := BuildMap(oldTable[d]);
    var removed := Removed(oldMap, map[]);
    diff := Diff(d, [], removed, []);
    assert AddedKeys(oldMap, map[]) == {} && ModifiedKeys(oldMap, map[]) == {};
    ListsMakeDiff(oldMap, map[], diff);
  }

  /** Set arithmetic of a loop that has `left` still to do out of `all`. */
  lemma OneLess(all: set<Dpid>, left: set<Dpid>, d: Dpid)
    requires left <= all && d in left
    ensures all - left + {d} == all - (left - {d}) && d !in all - left && |left - {d}| < |left|
  {
  }

  /** The loop over the switches of the new tables. */
  method DiffAllListed(oldTable: Rules, newTable: Rules) returns (diffs: seq<Diff>)
    ensures IsTableDiff(Indexed(oldTable), Indexed(newTable), diffs, newTable.Keys)
  {
    ghost var o := Indexed(oldTable);
    ghost var n := Indexed(newTable);
    diffs := [];
    var left := newTable.Keys;
    NothingLookedAt(o, n);
    assert n.Keys == newTable.Keys && o.Keys == oldTable.Keys;
    hide IsTableDiff, IsDiff, At, Indexed;
    while left != {}
      invariant left <= newTable.Keys && IsTableDiff(o, n, diffs, newTable.Keys - left)
      decreases |left|
    {
      var d :| d in left;
      var diff := DiffListed(oldTable, newTable, d);
      TableDiffMore(o, n, diffs, newTable.Keys - left, diff);
      OneLess(newTable.Keys, left, d);
      if diff.added != [] || diff.removed != [] || diff.modified != [] {
        diffs := diffs + [diff];
      }
      left := left - {d};
    }
    assert newTable.Keys - {} == newTable.Keys;
  }

  /** The loop over the switches only the old tables list, added to what was found before. */
  method DiffAllDropped(oldTable: Rules, newTable: Rules, found: seq<Diff>, ghost all: set<Dpid>) returns (diffs: seq<Diff>)
    requires all == oldTable.Keys + newTable.Keys
    requires IsTableDiff(Indexed(oldTable), Indexed(newTable), found, newTable.Keys)
    ensures IsTableDiff(Indexed(oldTable), Indexed(newTable), diffs, all)
  {
    ghost var o := Indexed(oldTable);
    ghost var n := Indexed(newTable);
    assert n.Keys == newTable.Keys && o.Keys == oldTable.Keys;
    hide IsTableDiff, IsDiff, At, Indexed;
    diffs := found;
    var rest := oldTable.Keys - newTable.Keys;
    assert all - rest == newTable.Keys;
    while rest != {}
      invariant rest <= oldTable.Keys - newTable.Keys && IsTableDiff(o, n, diffs, all - rest)
      decreases |rest|
    {
      var d :| d in rest;
      var diff := DiffDropped(oldTable, newTable, d);
      TableDiffMore(o, n, diffs, all - rest, diff);
      OneLess(all, rest, d);
      if diff.removed != [] {
        diffs := diffs + [diff];
      }
      rest := rest - {d};
    }
    assert all - {} == all;
  }

  method GetFlowTableDiff(oldTable: Rules, newTable: Rules) returns (diffs: seq<Diff>)
    ensures IsTableDiff(Indexed(oldTable), Indexed(newTable), diffs, oldTable.Keys + newTable.Keys)
    ensures forall d :: At(PatchAll(Indexed(oldTable), diffs), d) == At(Indexed(newTable), d)
    ensures diffs == [] <==> forall d :: At(Indexed(oldTable), d) == At(Indexed(newTable), d)
  {
    var listed := DiffAllListed(oldTable, newTable);
    diffs := DiffAllDropped(oldTable, newTable, listed, oldTable.Keys + newTable.Keys);
    assert Indexed(oldTable).Keys == oldTable.Keys && Indexed(newTable).Keys == newTable.Keys;
    hide IsTableDiff, At, PatchAll, Indexed;
    PatchLaw(Indexed(oldTable), Indexed(newTable), diffs);
    NothingDiffersIff(Indexed(oldTable), Indexed(newTable), diffs);
  }

  lemma NothingLookedAt(o: map<Dpid, Table>, n: map<Dpid, Table>)
    ensures IsTableDiff(o, n, [], n.Keys - n.Keys)
  {
  }

  function PatchAll(ts: map<Dpid, Table>, ds: seq<Diff>): map<Dpid, Table> {
    if ds == [] then ts else
      var before := PatchAll(ts, ds[..|ds| - 1]);
      var last := ds[|ds| - 1];
      before[last.dpid := Patched(At(before, last.dpid), last)]
  }

  lemma {:induction false} PatchAllAt(o: map<Dpid, Table>, n: map<Dpid, Table>, ds: seq<Diff>, d: Dpid)
    requires NoDup(Dpids(ds)) && forall i :: 0 <= i < |ds| ==> IsDiff(At(o, ds[i].dpid), At(n, ds[i].dpid), ds[i])
    ensures At(PatchAll(o, ds), d) == if d in Dpids(ds) then At(n, d) else At(o, d)
    decreases |ds|
  {
    hide IsDiff, Patched;
    if ds != [] {
      var k := |ds| - 1;
      var before := ds[..k];
      var last := ds[k];
      assert Dpids(ds) == Dpids(before) + [last.dpid];
      assert forall i :: 0 <= i < k ==> before[i] == ds[i];
      assert forall i :: 0 <= i < k ==> Dpids(ds)[i] != Dpids(ds)[k];
      PatchAllAt(o, n, before, d);
      PatchAllAt(o, n, before, last.dpid);
      PatchOne(At(o, last.dpid), At(n, last.dpid), last);
    }
  }

  /** Applying the difference to the old tables gives the new ones, up to switches without rules. */
  lemma PatchLaw(o: map<Dpid, Table>, n: map<Dpid, Table>, ds: seq<Diff>)
    requires IsTableDiff(o, n, ds, o.Keys + n.Keys)
    ensures forall d :: At(PatchAll(o, ds), d) == At(n, d)
  {
    hide IsDiff, PatchAll;
    forall d ensures At(PatchAll(o, ds), d) == At(n, d) {
      PatchAllAt(o, n, ds, d);
      assert d in Dpids(ds) <==> d in Differing(o, n);
    }
  }

  lemma NothingDiffersIff(o: map<Dpid, Table>, n: map<Dpid, Table>, ds: seq<Diff>)
    requires IsTableDiff(o, n, ds, o.Keys + n.Keys)
    ensures ds == [] <==> forall d :: At(o, d) == At(n, d)
  {
    hide IsDiff;
    if ds == [] {
      forall d ensures At(o, d) == At(n, d) {
        assert d in Dpids(ds) <==> d in Differing(o, n);
      }
    } else {
      assert Dpids(ds)[0] in Dpids(ds);
      assert Dpids(ds)[0] in Differing(o, n);
    }
  }
}
