/**
 * What the backing java.util.List (an ArrayList) does for the calls the
 * list wrapper forwards, stated on sequences. Element equality is `equals`.
 */
module JavaLists {

  /** `indexOf(x)`: the first position holding `x`, or -1. */
  function FirstIndex<T(==)>(s: seq<T>, x: T): (r: int)
    ensures -1 <= r < |s|
    ensures r == -1 <==> x !in s
    ensures 0 <= r ==> s[r] == x && forall j :: 0 <= j < r ==> s[j] != x
    decreases |s|
  {
    if s == [] then -1
    else if s[0] == x then 0
    else
      var k := FirstIndex(s[1..], x);
      if k < 0 then -1 else k + 1
  }

  /** `lastIndexOf(x)`: the last position holding `x`, or -1. */
  function LastIndex<T(==)>(s: seq<T>, x: T): (r: int)
    ensures -1 <= r < |s|
    ensures r == -1 <==> x !in s
    ensures 0 <= r ==> s[r] == x && forall j :: r < j < |s| ==> s[j] != x
    decreases |s|
  {
    if s == [] then -1
    else if s[|s| - 1] == x then |s| - 1
    else
      var init := s[..|s| - 1];
      assert s == init + [s[|s| - 1]];
      LastIndex(init, x)
  }

  /** `remove(Object x)`: cuts out the first occurrence of `x`, if there is one. */
  function RemoveFirst<T(==)>(s: seq<T>, x: T): (r: seq<T>)
    ensures x !in s ==> r == s
    ensures x in s ==> |r| == |s| - 1
    ensures x in s ==> forall j :: 0 <= j < FirstIndex(s, x) ==> r[j] == s[j]
    ensures x in s ==> forall j :: FirstIndex(s, x) <= j < |r| ==> r[j] == s[j + 1]
    ensures multiset(r) == multiset(s) - multiset{x}
  {
    var i := FirstIndex(s, x);
    if i < 0 then s
    else
      assert s == s[..i] + [s[i]] + s[i + 1..];
      s[..i] + s[i + 1..]
  }

  /**
   * The elements `e` of `s` with `(e in c) == keep`, in their order:
   * `removeAll(c)` is `Filter(s, c, false)`, `retainAll(c)` is `Filter(s, c, true)`.
   */
  function Filter<T(==)>(s: seq<T>, c: seq<T>, keep: bool): (r: seq<T>)
    ensures forall i :: 0 <= i < |r| ==> r[i] in s && (r[i] in c) == keep
    ensures forall i :: 0 <= i < |s| && (s[i] in c) == keep ==> s[i] in r
    ensures |r| <= |s|
    ensures |r| == |s| <==> forall i :: 0 <= i < |s| ==> (s[i] in c) == keep
    ensures |r| == |s| ==> r == s
    decreases |s|
  {
    if s == [] then []
    else if (s[0] in c) == keep then [s[0]] + Filter(s[1..], c, keep)
    else Filter(s[1..], c, keep)
  }

  /** Filtering keeps relative order: it distributes over concatenation. */
  lemma {:induction false} FilterAppend<T>(a: seq<T>, b: seq<T>, c: seq<T>, keep: bool)
    ensures Filter(a + b, c, keep) == Filter(a, c, keep) + Filter(b, c, keep)
    decreases |a|
  {
    if a == [] {
      assert a + b == b;
    } else {
      assert (a + b)[0] == a[0] && (a + b)[1..] == a[1..] + b;
      FilterAppend(a[1..], b, c, keep);
    }
  }

  /** A kept element keeps all its occurrences, a dropped one loses them all. */
  lemma {:induction false} FilterCounts<T>(s: seq<T>, c: seq<T>, keep: bool, x: T)
    ensures multiset(Filter(s, c, keep))[x] == if (x in c) == keep then multiset(s)[x] else 0
    decreases |s|
  {
    if s != [] {
      FilterCounts(s[1..], c, keep, x);
      assert s == [s[0]] + s[1..];
    }
  }

  /** The filtered list differs from the input exactly when some element was dropped. */
  lemma FilterChangesIffSomeDropped<T>(s: seq<T>, c: seq<T>, keep: bool)
    ensures Filter(s, c, keep) != s <==> exists i :: 0 <= i < |s| && (s[i] in c) != keep
  {
  }
}
