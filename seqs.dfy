/** Sequence operations behind the PHP list handling of the shop: `array_search`
    on a list, `unset` of one position followed by `array_values`, and lists
    without repeated keys. */
module Seqs {

  /** `array_search($x, $s)` on a list that holds `x`: the first position of `x`. */
  function IndexOf<T(==)>(s: seq<T>, x: T): (i: nat)
    requires x in s
    ensures i < |s| && s[i] == x
    ensures forall j :: 0 <= j < i ==> s[j] != x
  {
    if s[0] == x then 0 else 1 + IndexOf(s[1..], x)
  }

  /** `unset($s[$i])` followed by `array_values($s)`: position `i` is dropped
      and the later elements move down by one, so the list has no gap. */
  function RemoveAt<T>(s: seq<T>, i: nat): (r: seq<T>)
    requires i < |s|
    ensures |r| == |s| - 1
    ensures forall j :: 0 <= j < i ==> r[j] == s[j]
    ensures forall j :: i <= j < |r| ==> r[j] == s[j + 1]
  {
    s[..i] + s[i + 1..]
  }

  /** Deletes the first occurrence of `x` and nothing else. */
  function RemoveFirst<T(==)>(s: seq<T>, x: T): (r: seq<T>)
    requires x in s
    ensures |r| == |s| - 1
  {
    RemoveAt(s, IndexOf(s, x))
  }

  predicate NoDuplicates<T(==)>(s: seq<T>) {
    forall i, j :: 0 <= i < j < |s| ==> s[i] != s[j]
  }

  /** Removing the first `x` takes exactly one copy of `x` out of the list. */
  lemma RemoveFirstCounts<T>(s: seq<T>, x: T)
    requires x in s
    ensures multiset(RemoveFirst(s, x)) == multiset(s) - multiset{x}
  {
    var i := IndexOf(s, x);
    assert s == s[..i] + [x] + s[i + 1..];
    calc {
      multiset(s);
      multiset(s[..i]) + multiset{x} + multiset(s[i + 1..]);
      multiset(s[..i] + s[i + 1..]) + multiset{x};
    }
  }

  /** Every other element survives the removal of the first `x`. */
  lemma RemoveFirstKeepsOthers<T>(s: seq<T>, x: T, y: T)
    requires x in s && y in s && y != x
    ensures y in RemoveFirst(s, x)
  {
    RemoveFirstCounts(s, x);
    assert y in multiset(s);
    assert y in multiset(RemoveFirst(s, x));
  }

  /** In a list without repetitions the removal leaves no copy of `x`, and
      still no repetitions. */
  lemma RemoveFirstDistinct<T>(s: seq<T>, x: T)
    requires x in s && NoDuplicates(s)
    ensures x !in RemoveFirst(s, x)
    ensures NoDuplicates(RemoveFirst(s, x))
  {
    var i := IndexOf(s, x);
    var r := RemoveFirst(s, x);
    forall j | 0 <= j < |r| ensures r[j] != x {
      if j >= i {
        assert r[j] == s[j + 1];
      }
    }
  }

  /** Around the first `x`: what comes before it, and (in a list without
      repetitions) what comes after it, hold no `x`; the removal joins the two. */
  lemma RemoveFirstSplit<T>(s: seq<T>, x: T)
    requires x in s && NoDuplicates(s)
    ensures var i := IndexOf(s, x);
      s == s[..i] + [x] + s[i + 1..] &&
      RemoveFirst(s, x) == s[..i] + s[i + 1..] &&
      x !in s[..i] && x !in s[i + 1..]
  {
    var i := IndexOf(s, x);
    var a, b := s[..i], s[i + 1..];
    assert s == a + [x] + b;
    assert forall j :: 0 <= j < |a| ==> a[j] == s[j] != x;
    assert forall j :: 0 <= j < |b| ==> b[j] == s[i + 1 + j] != x;
  }

  /** A list without repetitions has as many elements as the set of its elements. */
  lemma {:induction false} DistinctCardinality<T>(s: seq<T>)
    requires NoDuplicates(s)
    ensures |set x | x in s| == |s|
  {
    if s != [] {
      var last := s[|s| - 1];
      var init := s[..|s| - 1];
      DistinctCardinality(init);
      assert forall j :: 0 <= j < |init| ==> init[j] == s[j] != last;
      assert s == init + [last];
      assert (set x | x in s) == (set x | x in init) + {last};
    }
  }
}
