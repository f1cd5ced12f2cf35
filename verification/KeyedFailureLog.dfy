/**
 Edge-triggered failure logging for a loop that re-checks the same conditions every pass: a failure
 is reported once it has persisted long enough, and its recovery once it has been gone long enough.
 */
module KeyedFailureLog {
  import opened Common

  type Key = string

  datatype Config = Config(reportAfter: int, forgetAfter: int)

  datatype Entry = Entry(firstSeen: int, lastSeen: int, passes: nat, reported: bool)

  datatype Report = Report(newFailures: seq<(Key, string)>, recovered: seq<(Key, nat)>)

  // ---- one key through one pass ------------------------------------------------------------

  /** Expire-first: the entry has been absent too long, whether or not the key is back in this pass. */
  predicate Stale(c: Config, e: Entry, now: int) {
    now - e.lastSeen >= c.forgetAfter && c.forgetAfter > 0
  }

  /** The final sweep, for keys absent from this pass. */
  predicate Gone(c: Config, e: Entry, now: int, present: bool) {
    !present && now - e.lastSeen >= c.forgetAfter
  }

  function Seen(e: Option<Entry>, now: int): Entry {
    match e
    case None => Entry(now, now, 1, false)
    case Some(x) => x.(passes := x.passes + 1, lastSeen := now)
  }

  predicate Due(c: Config, e: Entry, now: int) {
    !e.reported && now - e.firstSeen >= c.reportAfter
  }

  datatype Outcome = Outcome(entry: Option<Entry>, isNew: bool, recovered: Option<nat>)

  function Expired(c: Config, e: Option<Entry>, now: int): Option<Entry> {
    if e.Some? && Stale(c, e.value, now) then None else e
  }

  function Noted(c: Config, e: Option<Entry>, now: int, present: bool): Option<Entry> {
    if !present then e else
      var x := Seen(e, now);
      Some(if Due(c, x, now) then x.(reported := true) else x)
  }

  function Kept(c: Config, e: Option<Entry>, now: int, present: bool): Option<Entry> {
    if e.Some? && Gone(c, e.value, now, present) then None else e
  }

  function Farewell(e: Option<Entry>, dropped: bool): Option<nat> {
    if e.Some? && dropped && e.value.reported then Some(e.value.passes) else None
  }

  /** What closing a pass at `now` does to one key: expire, record, forget, in that order. */
  function KeyPass(c: Config, e: Option<Entry>, now: int, present: bool): Outcome {
    var expired := Expired(c, e, now);
    var noted := Noted(c, expired, now, present);
    var kept := Kept(c, noted, now, present);
    var early := Farewell(e, expired.None?);
    Outcome(kept,
            present && Due(c, Seen(expired, now), now),
            if early.Some? then early else Farewell(noted, kept.None?))
  }

  function Lookup(open: map<Key, Entry>, k: Key): Option<Entry> {
    if k in open then Some(open[k]) else None
  }

  class Log {
    const config: Config
    var thisPass: map<Key, string>
    var open: map<Key, Entry>

    /** An absent forget window defaults to twice the hold-off. */
    constructor (reportAfter: int, forgetAfter: Option<int>)
      ensures config.reportAfter == reportAfter
      ensures config.forgetAfter == if forgetAfter.Some? then forgetAfter.value else 2 * reportAfter
      ensures thisPass == map[] && open == map[]
    {
      config := Config(reportAfter, if forgetAfter.Some? then forgetAfter.value else reportAfter * 2);
      thisPass, open := map[], map[];
    }

    /** Repeats within a pass count once; the last message wins. */
    method Record(key: Key, message: string)
      modifies this`thisPass
      ensures thisPass == old(thisPass)[key := message]
    {
      thisPass := thisPass[key := message];
    }

    method ExpireStale(now: int) returns (recovered: seq<(Key, nat)>)
      modifies this`open
      ensures forall k :: Lookup(open, k) == Expired(config, Lookup(old(open), k), now)
      ensures forall k, n :: (k, n) in recovered <==>
                k in old(open) && k !in open && Farewell(Some(old(open)[k]), true) == Some(n)
      ensures NoDup(recovered)
    {
      recovered := [];
      var todo := open.Keys;
      while todo != {}
        invariant todo <= old(open).Keys && forall k :: k in todo ==> k in open
        invariant forall k :: k in open ==> k in old(open) && open[k] == old(open)[k]
        invariant forall k :: k !in todo ==> Lookup(open, k) == Expired(config, Lookup(old(open), k), now)
        invariant forall k, n :: (k, n) in recovered <==>
                    k in old(open) && k !in open && Farewell(Some(old(open)[k]), true) == Some(n)
        invariant NoDup(recovered)
        decreases |todo|
      {
        var k :| k in todo;
        todo := todo - {k};
        if Stale(config, open[k], now) {
          if open[k].reported {
            recovered := recovered + [(k, open[k].passes)];
          }
          open := open - {k};
        }
      }
    }

    method NotePass(now: int) returns (news: seq<(Key, string)>)
      modifies this`open
      ensures forall k :: Lookup(open, k) == Noted(config, Lookup(old(open), k), now, k in thisPass)
      ensures forall k, m :: (k, m) in news <==>
                k in thisPass && m == thisPass[k] && Due(config, Seen(Lookup(old(open), k), now), now)
      ensures NoDup(news)
    {
      news := [];
      var todo := thisPass.Keys;
      while todo != {}
        invariant todo <= thisPass.Keys
        invariant forall k :: k in todo ==> Lookup(open, k) == Lookup(old(open), k)
        invariant forall k :: k !in todo ==> Lookup(open, k) == Noted(config, Lookup(old(open), k), now, k in thisPass)
        invariant forall k, m :: (k, m) in news <==>
                    k in thisPass && k !in todo && m == thisPass[k] && Due(config, Seen(Lookup(old(open), k), now), now)
        invariant NoDup(news)
        decreases |todo|
      {
        var k :| k in todo;
        todo := todo - {k};
        var e := Seen(Lookup(open, k), now);
        if Due(config, e, now) {
          e := e.(reported := true);
          news := news + [(k, thisPass[k])];
        }
        open := open[k := e];
      }
    }

    method ForgetAbsent(now: int) returns (recovered: seq<(Key, nat)>)
      modifies this`open
      ensures forall k :: Lookup(open, k) == Kept(config, Lookup(old(open), k), now, k in thisPass)
      ensures forall k, n :: (k, n) in recovered <==>
                k in old(open) && k !in open && Farewell(Some(old(open)[k]), true) == Some(n)
      ensures NoDup(recovered)
    {
      recovered := [];
      var todo := open.Keys;
      while todo != {}
        invariant todo <= old(open).Keys && forall k :: k in todo ==> k in open
        invariant forall k :: k in open ==> k in old(open) && open[k] == old(open)[k]
        invariant forall k :: k !in todo ==> Lookup(open, k) == Kept(config, Lookup(old(open), k), now, k in thisPass)
        invariant forall k, n :: (k, n) in recovered <==>
                    k in old(open) && k !in open && Farewell(Some(old(open)[k]), true) == Some(n)
        invariant NoDup(recovered)
        decreases |todo|
      {
        var k :| k in todo;
        todo := todo - {k};
        if Gone(config, open[k], now, k in thisPass) {
          if open[k].reported {
            recovered := recovered + [(k, open[k].passes)];
          }
          open := open - {k};
        }
      }
    }

    /** Closes the pass: every key goes through KeyPass, and the report holds exactly the edges. */
    method EndPass(now: int) returns (report: Report)
      modifies this
      ensures thisPass == map[]
      ensures forall k :: Lookup(open, k) == KeyPass(config, Lookup(old(open), k), now, k in old(thisPass)).entry
      ensures forall k, m :: (k, m) in report.newFailures <==>
                && k in old(thisPass) && m == old(thisPass)[k]
                && KeyPass(config, Lookup(old(open), k), now, true).isNew
      ensures forall k, n :: (k, n) in report.recovered <==>
                KeyPass(config, Lookup(old(open), k), now, k in old(thisPass)).recovered == Some(n)
      ensures NoDup(report.newFailures) && NoDup(report.recovered)
    {
      var early := ExpireStale(now);
      label expired:
      var news := NotePass(now);
      label noted:
      var late := ForgetAbsent(now);
      forall k, n
        ensures (k, n) in early + late <==>
                KeyPass(config, Lookup(old(open), k), now, k in old(thisPass)).recovered == Some(n)
        ensures !((k, n) in early && (k, n) in late)
      {
        RecoveredWhere(config, old(open), old@expired(open), old@noted(open), open, now, k, k in thisPass);
      }
      forall k
        ensures Lookup(open, k) == KeyPass(config, Lookup(old(open), k), now, k in old(thisPass)).entry
      {
      }
      forall x | x in early
        ensures x !in late
      {
        assert !((x.0, x.1) in early && (x.0, x.1) in late);
      }
      NoDupConcat(early, late);
      report := Report(news, early + late);
      thisPass := map[];
    }
  }

  /** Where a key's recovery is reported: by the expiry, or by the final sweep, never by both. */
  lemma RecoveredWhere(c: Config, before: map<Key, Entry>, expired: map<Key, Entry>, noted: map<Key, Entry>,
                       after: map<Key, Entry>, now: int, k: Key, present: bool)
    requires Lookup(expired, k) == Expired(c, Lookup(before, k), now)
    requires Lookup(noted, k) == Noted(c, Lookup(expired, k), now, present)
    requires Lookup(after, k) == Kept(c, Lookup(noted, k), now, present)
    ensures var early := if k in before && k !in expired then Farewell(Some(before[k]), true) else None;
            var late := if k in noted && k !in after then Farewell(Some(noted[k]), true) else None;
            && (early.None? || late.None?)
            && KeyPass(c, Lookup(before, k), now, present).recovered == if early.Some? then early else late
  {
  }

  // ---- one key through a whole run ---------------------------------------------------------

  datatype Pass = Pass(now: int, present: bool)

  ghost predicate NonDecreasing(ps: seq<Pass>) {
    forall i, j :: 0 <= i <= j < |ps| ==> ps[i].now <= ps[j].now
  }

  function KeyRun(c: Config, ps: seq<Pass>): Option<Entry>
    decreases |ps|, 1
  {
    if ps == [] then None else LastOutcome(c, ps).entry
  }

  function LastOutcome(c: Config, ps: seq<Pass>): Outcome
    requires ps != []
    decreases |ps|, 0
  {
    var last := ps[|ps| - 1];
    KeyPass(c, KeyRun(c, ps[..|ps| - 1]), last.now, last.present)
  }

  /** What the i-th pass of the run reported for this key. */
  function At(c: Config, ps: seq<Pass>, i: nat): Outcome
    requires i < |ps|
  {
    LastOutcome(c, ps[..i + 1])
  }

  /** The last pass before `n` that recorded the key. */
  function LastRecorded(ps: seq<Pass>, n: nat): (r: Option<nat>)
    requires n <= |ps|
    ensures r.Some? ==> r.value < n && ps[r.value].present
    ensures forall i :: 0 <= i < n && ps[i].present ==> r.Some? && i <= r.value
  {
    if n == 0 then None else if ps[n - 1].present then Some(n - 1) else LastRecorded(ps, n - 1)
  }

  /** Two successive recordings belong to one failure: a short gap, or adjacent passes without a window. */
  predicate Joined(c: Config, ps: seq<Pass>, j: nat, i: nat)
    requires j < i < |ps|
  {
    if c.forgetAfter > 0 then ps[i].now - ps[j].now < c.forgetAfter else j == i - 1
  }

  /** The recording that started the chain the i-th pass belongs to. */
  function ChainStart(c: Config, ps: seq<Pass>, i: nat): (r: nat)
    requires i < |ps| && ps[i].present
    ensures r <= i && ps[r].present
  {
    var prev := LastRecorded(ps, i);
    if prev.Some? && Joined(c, ps, prev.value, i) then ChainStart(c, ps, prev.value) else i
  }

  function Recordings(ps: seq<Pass>, from: nat, till: nat): nat
    requires from <= till <= |ps|
  {
    if from == till then 0 else Recordings(ps, from, till - 1) + if ps[till - 1].present then 1 else 0
  }

  /** After `n` passes the key's last recording is still remembered. */
  predicate Remembered(c: Config, ps: seq<Pass>, last: nat, n: nat)
    requires last < n <= |ps|
  {
    if c.forgetAfter > 0 then ps[n - 1].now - ps[last].now < c.forgetAfter else last == n - 1
  }

  /** The failure has lasted long enough at its i-th recording. */
  predicate LastedAt(c: Config, ps: seq<Pass>, i: nat)
    requires i < |ps| && ps[i].present
  {
    ps[i].now - ps[ChainStart(c, ps, i)].now >= c.reportAfter
  }

  /** The state of a key, read off the recordings alone. */
  function Expected(c: Config, ps: seq<Pass>, n: nat): Option<Entry>
    requires n <= |ps|
  {
    match LastRecorded(ps, n)
    case None => None
    case Some(l) =>
      if !Remembered(c, ps, l, n) then None else
        var s := ChainStart(c, ps, l);
        Some(Entry(ps[s].now, ps[l].now, Recordings(ps, s, l + 1), LastedAt(c, ps, l)))
  }

  lemma {:induction false} RecordingsSkip(ps: seq<Pass>, from: nat, mid: nat, till: nat)
    requires from <= mid <= till <= |ps| && forall i :: mid <= i < till ==> !ps[i].present
    ensures Recordings(ps, from, till) == Recordings(ps, from, mid)
    decreases till
  {
    if mid < till {
      RecordingsSkip(ps, from, mid, till - 1);
    }
  }

  lemma ExpectedAbsent(c: Config, ps: seq<Pass>, n: nat)
    requires NonDecreasing(ps) && 0 < n <= |ps| && !ps[n - 1].present
    ensures Expected(c, ps, n) == KeyPass(c, Expected(c, ps, n - 1), ps[n - 1].now, false).entry
  {
    hide ChainStart, Recordings, LastedAt;
    assert n > 1 ==> ps[n - 2].now <= ps[n - 1].now;
    var prev := LastRecorded(ps, n - 1);
    assert LastRecorded(ps, n) == prev;
    assert prev.Some? ==> ps[prev.value].now <= ps[n - 1].now;
  }

  lemma ExpectedJoined(c: Config, ps: seq<Pass>, n: nat)
    requires NonDecreasing(ps) && 0 < n <= |ps| && ps[n - 1].present
    requires var prev := LastRecorded(ps, n - 1); prev.Some? && Joined(c, ps, prev.value, n - 1)
    ensures Expected(c, ps, n) == KeyPass(c, Expected(c, ps, n - 1), ps[n - 1].now, true).entry
  {
    var l := LastRecorded(ps, n - 1).value;
    assert ps[n - 2].now <= ps[n - 1].now;
    assert Remembered(c, ps, l, n - 1);
    var s := ChainStart(c, ps, l);
    assert ChainStart(c, ps, n - 1) == s;
    RecordingsSkip(ps, s, l + 1, n - 1);
    assert ps[s].now <= ps[l].now <= ps[n - 1].now;
    hide ChainStart, LastRecorded;
    assert Expected(c, ps, n - 1) == Some(Entry(ps[s].now, ps[l].now, Recordings(ps, s, l + 1), LastedAt(c, ps, l)));
  }

  lemma ExpectedAfresh(c: Config, ps: seq<Pass>, n: nat)
    requires NonDecreasing(ps) && 0 < n <= |ps| && ps[n - 1].present
    requires var prev := LastRecorded(ps, n - 1); prev.Some? ==> !Joined(c, ps, prev.value, n - 1)
    ensures Expected(c, ps, n) == KeyPass(c, Expected(c, ps, n - 1), ps[n - 1].now, true).entry
  {
    assert ChainStart(c, ps, n - 1) == n - 1;
    assert Recordings(ps, n - 1, n) == 1;
  }

  lemma {:induction false} StateIsExpected(c: Config, ps: seq<Pass>, n: nat)
    requires NonDecreasing(ps) && n <= |ps|
    ensures KeyRun(c, ps[..n]) == Expected(c, ps, n)
    decreases n
  {
    if n > 0 {
      StateIsExpected(c, ps, n - 1);
      assert ps[..n][..n - 1] == ps[..n - 1];
      hide Expected, KeyPass, Joined, LastRecorded;
      assert KeyRun(c, ps[..n]) == KeyPass(c, Expected(c, ps, n - 1), ps[n - 1].now, ps[n - 1].present).entry;
      var prev := LastRecorded(ps, n - 1);
      if !ps[n - 1].present {
        ExpectedAbsent(c, ps, n);
      } else if prev.Some? && Joined(c, ps, prev.value, n - 1) {
        ExpectedJoined(c, ps, n);
      } else {
        ExpectedAfresh(c, ps, n);
      }
    }
  }

  /** The i-th outcome, in terms of the recordings before it. */
  lemma OutcomeAt(c: Config, ps: seq<Pass>, i: nat)
    requires NonDecreasing(ps) && i < |ps|
    ensures At(c, ps, i) == KeyPass(c, Expected(c, ps, i), ps[i].now, ps[i].present)
  {
    StateIsExpected(c, ps, i);
    assert ps[..i + 1][..i] == ps[..i];
  }

  /** No earlier recording of the same chain had lasted long enough. */
  ghost predicate FirstLasting(c: Config, ps: seq<Pass>, i: nat)
    requires i < |ps| && ps[i].present
  {
    forall j :: 0 <= j < i && ps[j].present && ChainStart(c, ps, j) == ChainStart(c, ps, i) ==> !LastedAt(c, ps, j)
  }

  /**
   "New failure" fires on exactly the first recorded pass at which the key's current chain of
   recordings has lasted the hold-off.
   */
  lemma NewFiresExactly(c: Config, ps: seq<Pass>, i: nat)
    requires NonDecreasing(ps) && i < |ps|
    ensures At(c, ps, i).isNew <==> ps[i].present && LastedAt(c, ps, i) && FirstLasting(c, ps, i)
  {
    OutcomeAt(c, ps, i);
    if ps[i].present {
      var prev := LastRecorded(ps, i);
      if prev.Some? && Joined(c, ps, prev.value, i) {
        var l := prev.value;
        assert ChainStart(c, ps, l) == ChainStart(c, ps, i);
        if !LastedAt(c, ps, l) {
          forall j | 0 <= j < i && ps[j].present && ChainStart(c, ps, j) == ChainStart(c, ps, i)
            ensures !LastedAt(c, ps, j)
          {
            assert ps[j].now <= ps[l].now;
          }
        }
      }
    }
  }

  /** "Recovered" fires exactly when a reported chain is forgotten, with its number of recordings. */
  lemma RecoveredFiresExactly(c: Config, ps: seq<Pass>, i: nat, n: nat)
    requires NonDecreasing(ps) && i < |ps|
    ensures At(c, ps, i).recovered == Some(n) <==>
            var prev := LastRecorded(ps, i);
            && prev.Some? && Remembered(c, ps, prev.value, i) && LastedAt(c, ps, prev.value)
            && (if c.forgetAfter > 0 then ps[i].now - ps[prev.value].now >= c.forgetAfter else !ps[i].present)
            && n == Recordings(ps, ChainStart(c, ps, prev.value), prev.value + 1)
  {
    OutcomeAt(c, ps, i);
  }

  // ---- alternation -------------------------------------------------------------------------

  datatype Event = New | Recovered(passes: nat)

  /** The key's reports in order; within a pass an expiry precedes the new report that may follow it. */
  function Events(c: Config, ps: seq<Pass>): seq<Event> {
    if ps == [] then [] else
      var o := LastOutcome(c, ps);
      Events(c, ps[..|ps| - 1])
      + (if o.recovered.Some? then [Recovered(o.recovered.value)] else [])
      + (if o.isNew then [New] else [])
  }

  /** Over any run, whatever the clock does, a key's reports are New, Recovered, New, Recovered, ... */
  lemma {:induction false} ReportsAlternate(c: Config, ps: seq<Pass>)
    ensures forall i :: 0 <= i < |Events(c, ps)| ==> (Events(c, ps)[i].New? <==> i % 2 == 0)
    ensures |Events(c, ps)| % 2 == 1 <==> KeyRun(c, ps).Some? && KeyRun(c, ps).value.reported
    decreases |ps|
  {
    if ps != [] {
      ReportsAlternate(c, ps[..|ps| - 1]);
    }
  }

  // ---- empty passes do not matter ----------------------------------------------------------

  /** The times at which the key was reported as a new failure. */
  function News(c: Config, ps: seq<Pass>): seq<int> {
    if ps == [] then [] else
      News(c, ps[..|ps| - 1]) + if LastOutcome(c, ps).isNew then [ps[|ps| - 1].now] else []
  }

  function OnlyRecordings(ps: seq<Pass>): seq<Pass> {
    if ps == [] then [] else
      var rest := OnlyRecordings(ps[..|ps| - 1]);
      if ps[|ps| - 1].present then rest + [ps[|ps| - 1]] else rest
  }

  lemma {:induction false} OnlyRecordingsOrdered(ps: seq<Pass>)
    requires NonDecreasing(ps)
    ensures NonDecreasing(OnlyRecordings(ps))
    ensures forall i :: 0 <= i < |OnlyRecordings(ps)| ==> ps != [] && OnlyRecordings(ps)[i].now <= ps[|ps| - 1].now
    decreases |ps|
  {
    if ps != [] {
      OnlyRecordingsOrdered(ps[..|ps| - 1]);
    }
  }

  /**
   With a forget window, what happens to a key depends only on the passes that recorded it: dropping
   the others leaves the same reports, and the same state once stale entries are discounted.
   */
  lemma {:induction false} AbsentPassesDoNotMatter(c: Config, ps: seq<Pass>)
    requires c.forgetAfter > 0 && NonDecreasing(ps)
    ensures News(c, ps) == News(c, OnlyRecordings(ps))
    ensures ps != [] ==> Expired(c, KeyRun(c, ps), ps[|ps| - 1].now) == Expired(c, KeyRun(c, OnlyRecordings(ps)), ps[|ps| - 1].now)
    decreases |ps|
  {
    if ps != [] {
      var rest, last := ps[..|ps| - 1], ps[|ps| - 1];
      AbsentPassesDoNotMatter(c, rest);
      var a, b := KeyRun(c, rest), KeyRun(c, OnlyRecordings(rest));
      var t0 := if rest == [] then last.now else rest[|rest| - 1].now;
      assert Expired(c, a, t0) == Expired(c, b, t0) && t0 <= last.now;
      PassAgrees(c, a, b, t0, last.now, last.present);
      var kept := OnlyRecordings(ps);
      if last.present {
        assert kept[..|kept| - 1] == OnlyRecordings(rest) && kept[|kept| - 1] == last;
        assert LastOutcome(c, kept) == KeyPass(c, b, last.now, true);
      }
    }
  }

  /** Entries that differ only by what is stale behave alike from then on. */
  lemma PassAgrees(c: Config, a: Option<Entry>, b: Option<Entry>, t0: int, now: int, present: bool)
    requires c.forgetAfter > 0 && t0 <= now && Expired(c, a, t0) == Expired(c, b, t0)
    ensures Expired(c, a, now) == Expired(c, b, now)
    ensures KeyPass(c, a, now, present).isNew == KeyPass(c, b, now, present).isNew
    ensures KeyPass(c, a, now, present).entry == KeyPass(c, b, now, present).entry
    ensures Expired(c, KeyPass(c, a, now, false).entry, now) == Expired(c, a, now)
  {
    assert Expired(c, a, now) == Expired(c, Expired(c, a, t0), now);
    assert Expired(c, b, now) == Expired(c, Expired(c, b, t0), now);
  }

  /** A whole pass of the log: its time and everything recorded in it. */
  datatype LogPass = LogPass(now: int, recorded: map<Key, string>)

  function KeyView(run: seq<LogPass>, k: Key): seq<Pass> {
    if run == [] then [] else
      KeyView(run[..|run| - 1], k) + [Pass(run[|run| - 1].now, k in run[|run| - 1].recorded)]
  }

  function DropEmpty(run: seq<LogPass>): seq<LogPass> {
    if run == [] then [] else
      var rest := DropEmpty(run[..|run| - 1]);
      if run[|run| - 1].recorded == map[] then rest else rest + [run[|run| - 1]]
  }

  ghost predicate Chronological(run: seq<LogPass>) {
    forall i, j :: 0 <= i <= j < |run| ==> run[i].now <= run[j].now
  }

  lemma {:induction false} KeyViewOrdered(run: seq<LogPass>, k: Key)
    ensures |KeyView(run, k)| == |run| && forall i :: 0 <= i < |run| ==> KeyView(run, k)[i] == Pass(run[i].now, k in run[i].recorded)
    decreases |run|
  {
    if run != [] {
      KeyViewOrdered(run[..|run| - 1], k);
    }
  }

  lemma {:induction false} SameRecordings(run: seq<LogPass>, k: Key)
    ensures OnlyRecordings(KeyView(run, k)) == OnlyRecordings(KeyView(DropEmpty(run), k))
    decreases |run|
  {
    if run != [] {
      var rest, last := run[..|run| - 1], run[|run| - 1];
      SameRecordings(rest, k);
      var view := KeyView(run, k);
      assert view[..|view| - 1] == KeyView(rest, k);
      if last.recorded != map[] {
        var kept := DropEmpty(run);
        assert kept[..|kept| - 1] == DropEmpty(rest);
        var keptView := KeyView(kept, k);
        assert keptView[..|keptView| - 1] == KeyView(DropEmpty(rest), k);
      }
    }
  }

  /**
   Two runs that differ only in empty passes, inserted or removed anywhere, announce the same new
   failures at the same times, for every key.
   */
  lemma EmptyPassesChangeNothing(c: Config, run: seq<LogPass>, run': seq<LogPass>, k: Key)
    requires c.forgetAfter > 0 && Chronological(run) && Chronological(run')
    requires DropEmpty(run) == DropEmpty(run')
    ensures News(c, KeyView(run, k)) == News(c, KeyView(run', k))
  {
    KeyViewOrdered(run, k);
    KeyViewOrdered(run', k);
    AbsentPassesDoNotMatter(c, KeyView(run, k));
    AbsentPassesDoNotMatter(c, KeyView(run', k));
    SameRecordings(run, k);
    SameRecordings(run', k);
  }

  /**
   A second close with nothing recorded reports an open, reported failure as recovered exactly when
   its forget window has passed; with no window that is always.
   */
  lemma SecondCloseRecoversIff(c: Config, e: Option<Entry>, t: int, t': int)
    requires t <= t'
    requires var first := KeyPass(c, e, t, true).entry; first.Some? && first.value.reported
    ensures KeyPass(c, KeyPass(c, e, t, true).entry, t', false).recovered.Some? <==> t' - t >= c.forgetAfter
  {
  }

  lemma OnePassMore(c: Config, ps: seq<Pass>, p: Pass)
    ensures var o := KeyPass(c, KeyRun(c, ps), p.now, p.present);
            KeyRun(c, ps + [p]) == o.entry && News(c, ps + [p]) == News(c, ps) + if o.isNew then [p.now] else []
  {
    assert (ps + [p])[..|ps|] == ps;
  }

  /** The later of two recordings that an empty pass separates. */
  function SecondTime(c: Config): int { if c.reportAfter > 0 then c.reportAfter else 1 }

  /** Without a forget window an empty pass between two recordings changes the "new" reports, for any hold-off. */
  lemma EmptyPassMattersWithoutWindow(c: Config)
    requires c.forgetAfter <= 0
    ensures var t := SecondTime(c);
            News(c, [Pass(0, true), Pass(t, true)]) != News(c, [Pass(0, true), Pass(0, false), Pass(t, true)])
  {
    var t := SecondTime(c);
    var p, gap, q := Pass(0, true), Pass(0, false), Pass(t, true);
    assert KeyRun(c, []) == None && News(c, []) == [];
    OnePassMore(c, [], p);
    OnePassMore(c, [p], q);
    OnePassMore(c, [p], gap);
    OnePassMore(c, [p, gap], q);
    assert [] + [p] == [p] && [p] + [q] == [p, q] && [p] + [gap] == [p, gap] && [p, gap] + [q] == [p, gap, q];
  }

  /** Empty passes are irrelevant to every key of every run exactly when there is a forget window. */
  lemma EmptyPassesIrrelevantIff(c: Config)
    ensures c.forgetAfter > 0 <==>
              forall run, run', k {:trigger KeyView(run, k), KeyView(run', k)} ::
                Chronological(run) && Chronological(run') && DropEmpty(run) == DropEmpty(run') ==>
                  News(c, KeyView(run, k)) == News(c, KeyView(run', k))
  {
    if c.forgetAfter > 0 {
      forall run, run', k | Chronological(run) && Chronological(run') && DropEmpty(run) == DropEmpty(run')
        ensures News(c, KeyView(run, k)) == News(c, KeyView(run', k))
      {
        EmptyPassesChangeNothing(c, run, run', k);
      }
    } else {
      var t := SecondTime(c);
      var p, gap, q := LogPass(0, map["k" := ""]), LogPass(0, map[]), LogPass(t, map["k" := ""]);
      ViewOfThree(p, gap, q, "k");
      EmptyPassMattersWithoutWindow(c);
      assert News(c, KeyView([p, q], "k")) != News(c, KeyView([p, gap, q], "k"));
    }
  }

  lemma ViewOfThree(p: LogPass, gap: LogPass, q: LogPass, k: Key)
    requires k in p.recorded && k in q.recorded && gap.recorded == map[]
    ensures KeyView([p, q], k) == [Pass(p.now, true), Pass(q.now, true)]
    ensures KeyView([p, gap, q], k) == [Pass(p.now, true), Pass(gap.now, false), Pass(q.now, true)]
    ensures DropEmpty([p, q]) == [p, q] == DropEmpty([p, gap, q])
  {
    assert [p, gap, q][..2] == [p, gap] && [p, gap][..1] == [p] && [p, q][..1] == [p] && [p][..0] == [];
    assert KeyView([], k) == [] && DropEmpty([]) == [];
    assert KeyView([p], k) == [Pass(p.now, true)] && DropEmpty([p]) == [p];
    assert KeyView([p, gap], k) == [Pass(p.now, true), Pass(gap.now, false)] && DropEmpty([p, gap]) == [p];
  }

  // ---- the object over a whole run ---------------------------------------------------------

  /** One pass, key by key: the new state and the contents of the report. */
  ghost predicate PassIs(c: Config, before: map<Key, Entry>, pass: LogPass, after: map<Key, Entry>, report: Report) {
    && (forall k :: Lookup(after, k) == KeyPass(c, Lookup(before, k), pass.now, k in pass.recorded).entry)
    && (forall k, m :: (k, m) in report.newFailures <==>
          && k in pass.recorded && m == pass.recorded[k]
          && KeyPass(c, Lookup(before, k), pass.now, true).isNew)
    && (forall k, n :: (k, n) in report.recovered <==>
          KeyPass(c, Lookup(before, k), pass.now, k in pass.recorded).recovered == Some(n))
  }

  /** The caller's loop: record everything a pass found, then close the pass. */
  method OnePass(log: Log, pass: LogPass) returns (report: Report)
    requires log.thisPass == map[]
    modifies log
    ensures log.thisPass == map[] && PassIs(log.config, old(log.open), pass, log.open, report)
  {
    var todo := pass.recorded.Keys;
    while todo != {}
      invariant todo <= pass.recorded.Keys && log.open == old(log.open)
      invariant log.thisPass == map k | k in pass.recorded && k !in todo :: pass.recorded[k]
      decreases |todo|
    {
      var k :| k in todo;
      todo := todo - {k};
      log.Record(k, pass.recorded[k]);
    }
    assert log.thisPass == pass.recorded;
    report := log.EndPass(pass.now);
  }

  ghost predicate StateIs(c: Config, run: seq<LogPass>, n: nat, open: map<Key, Entry>)
    requires n <= |run|
  {
    forall k :: Lookup(open, k) == KeyRun(c, KeyView(run[..n], k))
  }

  /** What the i-th report must contain: each key's own outcome at that point of its own run. */
  ghost predicate ReportIs(c: Config, run: seq<LogPass>, i: nat, report: Report)
    requires i < |run|
  {
    && (forall k, m :: (k, m) in report.newFailures <==>
          k in run[i].recorded && m == run[i].recorded[k] && OutcomeFor(c, run, i, k).isNew)
    && (forall k, n :: (k, n) in report.recovered <==> OutcomeFor(c, run, i, k).recovered == Some(n))
  }

  ghost function OutcomeFor(c: Config, run: seq<LogPass>, i: nat, k: Key): Outcome
    requires i < |run|
  {
    KeyViewOrdered(run, k);
    At(c, KeyView(run, k), i)
  }

  lemma {:induction false} ViewPrefix(run: seq<LogPass>, n: nat, k: Key)
    requires n <= |run|
    ensures |KeyView(run, k)| == |run| && KeyView(run[..n], k) == KeyView(run, k)[..n]
  {
    KeyViewOrdered(run, k);
    KeyViewOrdered(run[..n], k);
  }

  lemma OutcomeForStep(c: Config, run: seq<LogPass>, i: nat, k: Key)
    requires i < |run|
    ensures OutcomeFor(c, run, i, k) == KeyPass(c, KeyRun(c, KeyView(run[..i], k)), run[i].now, k in run[i].recorded)
    ensures KeyRun(c, KeyView(run[..i + 1], k)) == OutcomeFor(c, run, i, k).entry
  {
    hide KeyPass;
    KeyViewOrdered(run, k);
    ViewPrefix(run, i, k);
    ViewPrefix(run, i + 1, k);
    var v := KeyView(run, k);
    assert v[..i + 1][..i] == v[..i];
  }

  lemma StateStarts(c: Config, run: seq<LogPass>)
    ensures StateIs(c, run, 0, map[])
  {
  }

  lemma PassExtends(c: Config, run: seq<LogPass>, i: nat, before: map<Key, Entry>, after: map<Key, Entry>, report: Report)
    requires i < |run| && StateIs(c, run, i, before) && PassIs(c, before, run[i], after, report)
    ensures StateIs(c, run, i + 1, after) && ReportIs(c, run, i, report)
  {
    hide KeyPass, OutcomeFor, KeyRun, KeyView;
    forall k ensures OutcomeFor(c, run, i, k) == KeyPass(c, Lookup(before, k), run[i].now, k in run[i].recorded)
                     && KeyRun(c, KeyView(run[..i + 1], k)) == OutcomeFor(c, run, i, k).entry
    {
      OutcomeForStep(c, run, i, k);
    }
  }

  /** Driving one log object through a run yields, for every key at once, the reports of the key's own run. */
  method Replay(c: Config, run: seq<LogPass>) returns (log: Log, reports: seq<Report>)
    ensures fresh(log) && log.config == c && |reports| == |run|
    ensures StateIs(c, run, |run|, log.open)
    ensures forall i :: 0 <= i < |run| ==> ReportIs(c, run, i, reports[i])
  {
    hide StateIs, ReportIs, PassIs;
    log := new Log(c.reportAfter, Some(c.forgetAfter));
    reports := [];
    StateStarts(c, run);
    for i := 0 to |run|
      invariant fresh(log) && log.config == c && log.thisPass == map[] && |reports| == i
      invariant StateIs(c, run, i, log.open)
      invariant forall j :: 0 <= j < i ==> ReportIs(c, run, j, reports[j])
    {
      ghost var before := log.open;
      var report := OnePass(log, run[i]);
      PassExtends(c, run, i, before, log.open, report);
      reports := reports + [report];
    }
  }
}
