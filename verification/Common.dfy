/** Values shared by every component: optional results and duplicate-free sequences. */
module Common {

  datatype Option<+T> = None | Some(value: T)

  ghost predicate NoDup<T(!new)>(s: seq<T>) {
    forall i, j :: 0 <= i < j < |s| ==> s[i] != s[j]
  }

  /** `s` lists the elements of `xs`, each once, in some order: a dict or set being iterated. */
  ghost predicate Enumerates<T(!new)>(s: seq<T>, xs: set<T>) {
    && NoDup(s)
    && forall x :: x in s <==> x in xs
  }

  function Elements<T>(s: seq<T>): set<T> {
    set x | x in s
  }

  lemma NoDupConcat<T(!new)>(a: seq<T>, b: seq<T>)
    requires NoDup(a) && NoDup(b) && forall x :: x in a ==> x !in b
    ensures NoDup(a + b)
  {
    forall i, j | 0 <= i < j < |a + b|
      ensures (a + b)[i] != (a + b)[j]
    {
      assert i < |a| <= j ==> a[i] in a && b[j - |a|] in b;
    }
  }

  /** Pigeonhole: a duplicate-free sequence over a finite set is no longer than the set. */
  lemma {:induction false} NoDupFits<T(!new)>(s: seq<T>, xs: set<T>)
    requires NoDup(s)
    requires forall i :: 0 <= i < |s| ==> s[i] in xs
    ensures |s| <= |xs|
    decreases |s|
  {
    if |s| > 0 {
      var last := s[|s| - 1];
      var rest := s[..|s| - 1];
      NoDupFits(rest, xs - {last});
    }
  }

  lemma {:induction false} EnumerationSize<T(!new)>(s: seq<T>, xs: set<T>)
    requires Enumerates(s, xs)
    ensures |s| == |xs|
    decreases |s|
  {
    if |s| == 0 {
      assert xs == {};
    } else {
      var last := s[|s| - 1];
      var rest := s[..|s| - 1];
      assert s == rest + [last];
      EnumerationSize(rest, xs - {last});
    }
  }
}
