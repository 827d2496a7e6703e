/**
 * Sorting by a numeric key, descending, as `Array.prototype.sort((a, b) => key(b) - key(a))`
 * does it: the sort is stable, so records with equal keys keep their relative order.
 * `SortDesc` is the specification (an insertion sort on sequences); `SortInPlace`
 * is the in-place array algorithm proved to compute it.
 */
module Sorting {
  import opened JsBuiltins
  import opened JsArrays

  predicate SortedDesc<T>(s: seq<T>, key: T -> int) {
    forall i, j :: 0 <= i < j < |s| ==> key(s[i]) >= key(s[j])
  }

  /** Puts `x` after every element whose key is at least `key(x)`, before the rest. */
  function InsertDesc<T>(x: T, s: seq<T>, key: T -> int): (r: seq<T>)
    ensures |r| == |s| + 1
    ensures multiset(r) == multiset(s) + multiset{x}
  {
    if s == [] then [x]
    else if key(s[0]) >= key(x) then
      assert multiset(s) == multiset{s[0]} + multiset(s[1..]) by { assert s == [s[0]] + s[1..]; }
      [s[0]] + InsertDesc(x, s[1..], key)
    else [x] + s
  }

  /** The stable descending sort of `s`: each element is inserted after the ones that came before it. */
  function SortDesc<T>(s: seq<T>, key: T -> int): (r: seq<T>)
    ensures |r| == |s|
    ensures multiset(r) == multiset(s)
  {
    if s == [] then []
    else
      assert multiset(s) == multiset(s[..|s| - 1]) + multiset{s[|s| - 1]} by {
        assert s == s[..|s| - 1] + [s[|s| - 1]];
      }
      InsertDesc(s[|s| - 1], SortDesc(s[..|s| - 1], key), key)
  }

  lemma {:induction false} InsertDescSorted<T>(x: T, s: seq<T>, key: T -> int)
    requires SortedDesc(s, key)
    ensures SortedDesc(InsertDesc(x, s, key), key)
  {
    if s != [] {
      var t := s[1..];
      assert SortedDesc(t, key) by {
        forall a, b | 0 <= a < b < |t| ensures key(t[a]) >= key(t[b]) {
          assert t[a] == s[a + 1] && t[b] == s[b + 1];
        }
      }
      if key(s[0]) >= key(x) {
        InsertDescSorted(x, t, key);
        var r := InsertDesc(x, t, key);
        assert forall k :: 0 <= k < |t| ==> key(t[k]) <= key(s[0]) by {
          forall k | 0 <= k < |t| ensures key(t[k]) <= key(s[0]) {
            assert t[k] == s[k + 1];
          }
        }
        InsertDescBound(x, t, key, key(s[0]));
        SortedCons(s[0], r, key);
      } else {
        SortedCons(x, s, key);
      }
    }
  }

  /** Inserting into a sequence bounded by `b` an element bounded by `b` keeps every key within `b`. */
  lemma {:induction false} InsertDescBound<T>(x: T, s: seq<T>, key: T -> int, b: int)
    requires key(x) <= b
    requires forall k :: 0 <= k < |s| ==> key(s[k]) <= b
    ensures forall k :: 0 <= k < |InsertDesc(x, s, key)| ==> key(InsertDesc(x, s, key)[k]) <= b
  {
    if s != [] && key(s[0]) >= key(x) {
      var t := s[1..];
      assert forall k :: 0 <= k < |t| ==> key(t[k]) <= b by {
        forall k | 0 <= k < |t| ensures key(t[k]) <= b {
          assert t[k] == s[k + 1];
        }
      }
      InsertDescBound(x, t, key, b);
      var r := InsertDesc(x, t, key);
      forall k | 0 <= k < |[s[0]] + r| ensures key(([s[0]] + r)[k]) <= b {
        if k > 0 {
          assert ([s[0]] + r)[k] == r[k - 1];
        }
      }
    } else if s != [] {
      forall k | 0 <= k < |[x] + s| ensures key(([x] + s)[k]) <= b {
        if k > 0 {
          assert ([x] + s)[k] == s[k - 1];
        }
      }
    }
  }

  /** Putting an element in front of a sorted sequence whose keys it bounds keeps it sorted. */
  lemma SortedCons<T>(y: T, r: seq<T>, key: T -> int)
    requires SortedDesc(r, key)
    requires forall k :: 0 <= k < |r| ==> key(r[k]) <= key(y)
    ensures SortedDesc([y] + r, key)
  {
    var c := [y] + r;
    forall a, b | 0 <= a < b < |c| ensures key(c[a]) >= key(c[b]) {
      assert c[b] == r[b - 1];
      if a > 0 {
        assert c[a] == r[a - 1];
      }
    }
  }

  /** The result of the sort is ordered by key, descending. */
  lemma {:induction false} SortDescSorted<T>(s: seq<T>, key: T -> int)
    ensures SortedDesc(SortDesc(s, key), key)
  {
    if s != [] {
      SortDescSorted(s[..|s| - 1], key);
      InsertDescSorted(s[|s| - 1], SortDesc(s[..|s| - 1], key), key);
    }
  }

  /** The elements whose key is `v`. */
  function KeyIs<T>(key: T -> int, v: int): T -> bool {
    (x: T) => key(x) == v
  }

  /**
   * The sort is stable: for every key value, the elements with that key appear in the result
   * in the same order as in the input.
   */
  lemma {:induction false} SortDescStable<T>(s: seq<T>, key: T -> int, v: int)
    ensures Filter(SortDesc(s, key), KeyIs(key, v)) == Filter(s, KeyIs(key, v))
  {
    if s != [] {
      var init, last := s[..|s| - 1], s[|s| - 1];
      SortDescStable(init, key, v);
      SortDescSorted(init, key);
      InsertDescStable(last, SortDesc(init, key), key, v);
    }
  }

  /** Inserting into a sorted sequence puts `x` after every element with its key. */
  lemma {:induction false} InsertDescStable<T>(x: T, s: seq<T>, key: T -> int, v: int)
    requires SortedDesc(s, key)
    ensures Filter(InsertDesc(x, s, key), KeyIs(key, v)) ==
      Filter(s, KeyIs(key, v)) + (if key(x) == v then [x] else [])
    decreases |s|, 1
  {
    FilterSingleton(x, KeyIs(key, v));
    if s != [] {
      if key(s[0]) >= key(x) {
        InsertBehindStable(x, s, key, v);
      } else {
        InsertInFrontStable(x, s, key, v);
      }
    }
  }

  /** `x` goes behind the first element: the tail is handled by induction. */
  lemma {:induction false} InsertBehindStable<T>(x: T, s: seq<T>, key: T -> int, v: int)
    requires SortedDesc(s, key) && s != [] && key(s[0]) >= key(x)
    ensures Filter(InsertDesc(x, s, key), KeyIs(key, v)) ==
      Filter(s, KeyIs(key, v)) + (if key(x) == v then [x] else [])
    decreases |s|, 0
  {
    var p, t := KeyIs(key, v), s[1..];
    assert SortedDesc(t, key) by {
      forall a, b | 0 <= a < b < |t| ensures key(t[a]) >= key(t[b]) {
        assert t[a] == s[a + 1] && t[b] == s[b + 1];
      }
    }
    InsertDescStable(x, t, key, v);
    var r := InsertDesc(x, t, key);
    assert InsertDesc(x, s, key) == [s[0]] + r;
    FilterAppend([s[0]], r, p);
    FilterCons(s, p);
    AppendAssoc(Filter([s[0]], p), Filter(t, p), if p(x) then [x] else []);
  }

  /** `x` goes in front: every element of `s` has a smaller key, so none has the key of `x`. */
  lemma InsertInFrontStable<T>(x: T, s: seq<T>, key: T -> int, v: int)
    requires SortedDesc(s, key) && s != [] && key(s[0]) < key(x)
    ensures Filter(InsertDesc(x, s, key), KeyIs(key, v)) ==
      Filter(s, KeyIs(key, v)) + (if key(x) == v then [x] else [])
  {
    var p := KeyIs(key, v);
    assert InsertDesc(x, s, key) == [x] + s;
    if p(x) {
      forall k | 0 <= k < |s| ensures !p(s[k]) {
        assert key(s[k]) <= key(s[0]);
      }
      FilterNone(s, p);
      assert Filter([x] + s, p) == [x] by {
        FilterAppend([x], s, p);
        FilterSingleton(x, p);
      }
    } else {
      assert Filter([x] + s, p) == Filter(s, p) by {
        FilterAppend([x], s, p);
        FilterSingleton(x, p);
      }
    }
  }

  /** In a sorted sequence the insertion point is the first element with a smaller key. */
  lemma {:induction false} InsertDescAt<T>(x: T, s: seq<T>, key: T -> int, j: nat)
    requires SortedDesc(s, key)
    requires j <= |s|
    requires j > 0 ==> key(s[j - 1]) >= key(x)
    requires forall k :: j <= k < |s| ==> key(s[k]) < key(x)
    ensures InsertDesc(x, s, key) == s[..j] + [x] + s[j..]
  {
    if j > 0 {
      var t := s[1..];
      assert key(s[0]) >= key(x) by {
        assert key(s[0]) >= key(s[j - 1]);
      }
      TailFacts(x, s, key, j);
      InsertDescAt(x, t, key, j - 1);
      assert InsertDesc(x, s, key) == [s[0]] + InsertDesc(x, t, key);
      ConsSplit(x, s, j);
    } else if s != [] {
      assert key(s[0]) < key(x);
    }
  }

  /** What `InsertDescAt` needs of the tail of `s` to recurse. */
  lemma TailFacts<T>(x: T, s: seq<T>, key: T -> int, j: nat)
    requires SortedDesc(s, key)
    requires 0 < j <= |s|
    requires key(s[j - 1]) >= key(x)
    requires forall k :: j <= k < |s| ==> key(s[k]) < key(x)
    ensures SortedDesc(s[1..], key)
    ensures j - 1 > 0 ==> key(s[1..][j - 2]) >= key(x)
    ensures forall k :: j - 1 <= k < |s[1..]| ==> key(s[1..][k]) < key(x)
  {
    var t := s[1..];
    forall a, b | 0 <= a < b < |t| ensures key(t[a]) >= key(t[b]) {
      assert t[a] == s[a + 1] && t[b] == s[b + 1];
    }
    forall k | j - 1 <= k < |t| ensures key(t[k]) < key(x) {
      assert t[k] == s[k + 1];
    }
  }

  /** Splitting the tail of `s` at `j - 1` and putting the head back splits `s` at `j`. */
  lemma ConsSplit<T>(x: T, s: seq<T>, j: nat)
    requires 0 < j <= |s|
    ensures [s[0]] + (s[1..][..j - 1] + [x] + s[1..][j - 1..]) == s[..j] + [x] + s[j..]
  {
    assert s[1..][..j - 1] == s[1..j] && s[1..][j - 1..] == s[j..];
    assert s[..j] == [s[0]] + s[1..j];
  }

  lemma SortDescStep<T>(s: seq<T>, i: nat, key: T -> int)
    requires i < |s|
    ensures SortDesc(s[..i + 1], key) == InsertDesc(s[i], SortDesc(s[..i], key), key)
  {
    assert s[..i + 1][..i] == s[..i];
  }

  /** One step of insertion sort: moves `a[i]` into place within the sorted prefix `a[..i]`. */
  method InsertInPlace<T>(a: array<T>, i: nat, key: T -> int)
    requires i < a.Length
    requires SortedDesc(a[..i], key)
    modifies a
    ensures a[..i + 1] == InsertDesc(old(a[i]), old(a[..i]), key)
    ensures a[i + 1..] == old(a[i + 1..])
  {
    ghost var pre, tail := a[..i], a[i + 1..];
    var x := a[i];
    var j := ShiftRight(a, i, key);
    a[j] := x;
    Reassemble(a[..], pre, x, j, i);
    assert a[i + 1..] == tail;
    InsertDescAt(x, pre, key, j);
  }

  /**
   * The inner loop of insertion sort: moves the elements of `a[..i]` whose key is below
   * `key(a[i])` one place up, and returns the hole `j` where `a[i]` belongs.
   */
  method ShiftRight<T>(a: array<T>, i: nat, key: T -> int) returns (j: nat)
    requires i < a.Length
    modifies a
    ensures j <= i
    ensures forall k :: 0 <= k < j ==> a[k] == old(a[k])
    ensures forall k :: j < k <= i ==> a[k] == old(a[k - 1])
    ensures forall k :: i < k < a.Length ==> a[k] == old(a[k])
    ensures forall k :: j <= k < i ==> key(old(a[k])) < key(old(a[i]))
    ensures j > 0 ==> key(old(a[j - 1])) >= key(old(a[i]))
  {
    var x := a[i];
    j := i;
    while j > 0 && key(a[j - 1]) < key(x)
      invariant 0 <= j <= i
      invariant forall k :: 0 <= k < j ==> a[k] == old(a[k])
      invariant forall k :: j < k <= i ==> a[k] == old(a[k - 1])
      invariant forall k :: i < k < a.Length ==> a[k] == old(a[k])
      invariant forall k :: j <= k < i ==> key(old(a[k])) < key(x)
    {
      a[j] := a[j - 1];
      j := j - 1;
    }
  }

  /** A sequence that agrees with `pre[..j]`, then `x`, then `pre[j..]` is their concatenation. */
  lemma Reassemble<T>(b: seq<T>, pre: seq<T>, x: T, j: nat, i: nat)
    requires j <= i == |pre| && i < |b|
    requires forall k :: 0 <= k < j ==> b[k] == pre[k]
    requires b[j] == x
    requires forall k :: j < k <= i ==> b[k] == pre[k - 1]
    ensures b[..i + 1] == pre[..j] + [x] + pre[j..]
  {
    var c := pre[..j] + [x] + pre[j..];
    forall k | 0 <= k <= i ensures b[k] == c[k] {
      if k < j {
        assert c[k] == pre[k];
      } else if k > j {
        assert c[k] == pre[k - 1];
      }
    }
  }

  /** Insertion sort in place; the array ends up holding `SortDesc` of what it held. */
  method SortInPlace<T>(a: array<T>, key: T -> int)
    modifies a
    ensures a[..] == SortDesc(old(a[..]), key)
  {
    ghost var orig := a[..];
    var i := 0;
    while i < a.Length
      invariant 0 <= i <= a.Length
      invariant a[..i] == SortDesc(orig[..i], key)
      invariant a[i..] == orig[i..]
    {
      SortStep(a, i, key, orig);
      i := i + 1;
    }
    assert a[..] == a[..a.Length] && orig == orig[..a.Length];
  }

  /** The body of the sort: with `a[..i]` the sort of the first `i` original elements, extends it to `i + 1`. */
  method SortStep<T>(a: array<T>, i: nat, key: T -> int, ghost orig: seq<T>)
    requires i < a.Length && |orig| == a.Length
    requires a[..i] == SortDesc(orig[..i], key) && a[i..] == orig[i..]
    modifies a
    ensures a[..i + 1] == SortDesc(orig[..i + 1], key) && a[i + 1..] == orig[i + 1..]
  {
    SortDescSorted(orig[..i], key);
    ghost var prefix, rest := a[..i], a[i + 1..];
    assert a[i] == orig[i] && rest == orig[i + 1..];
    InsertInPlace(a, i, key);
    SortDescStep(orig, i, key);
  }

  /** A slice of a sorted sequence is sorted and holds only elements of the sequence. */
  lemma SliceOfSorted<T>(s: seq<T>, start: int, end: int, key: T -> int)
    requires SortedDesc(s, key)
    ensures SortedDesc(Slice(s, start, end), key)
    ensures multiset(Slice(s, start, end)) <= multiset(s)
  {
    var lo, hi := RelativeIndex(start, |s|), RelativeIndex(end, |s|);
    if lo < hi {
      assert multiset(s) == multiset(s[..lo]) + multiset(s[lo..hi]) + multiset(s[hi..]) by {
        assert s == s[..lo] + s[lo..hi] + s[hi..];
      }
    }
  }
}
