/**
 * `Array.prototype.filter` and `Array.prototype.find`, the two list combinators the routes
 * build their counts, groups and views from, with the facts about them the routes rely on.
 */
module JsArrays {
  import opened Wrappers

  /** `s.filter(p)`: the elements that satisfy `p`, in their original order. */
  function Filter<T>(s: seq<T>, p: T -> bool): (r: seq<T>)
    ensures |r| <= |s|
    ensures forall k :: 0 <= k < |r| ==> p(r[k])
    ensures multiset(r) <= multiset(s)
  {
    if s == [] then []
    else
      var init, last := s[..|s| - 1], s[|s| - 1];
      assert multiset(s) == multiset(init) + multiset{last} by { assert s == init + [last]; }
      Filter(init, p) + (if p(last) then [last] else [])
  }

  /** Concatenation is associative. */
  lemma AppendAssoc<T>(x: seq<T>, y: seq<T>, z: seq<T>)
    ensures (x + y) + z == x + (y + z)
  {
  }

  /** Filtering distributes over concatenation. */
  lemma {:induction false} FilterAppend<T>(a: seq<T>, b: seq<T>, p: T -> bool)
    ensures Filter(a + b, p) == Filter(a, p) + Filter(b, p)
  {
    if b == [] {
      assert a + b == a;
    } else {
      var init, last := b[..|b| - 1], b[|b| - 1];
      var ab := a + b;
      assert ab[..|ab| - 1] == a + init;
      assert ab[|ab| - 1] == last;
      FilterAppend(a, init, p);
      AppendAssoc(Filter(a, p), Filter(init, p), if p(last) then [last] else []);
    }
  }

  /** A one-element sequence keeps its element exactly when it satisfies `p`. */
  lemma FilterSingleton<T>(x: T, p: T -> bool)
    ensures Filter([x], p) == if p(x) then [x] else []
  {
    assert [x][..0] == [];
  }

  /** Filtering a non-empty sequence is filtering its first element, then the rest. */
  lemma FilterCons<T>(s: seq<T>, p: T -> bool)
    requires s != []
    ensures Filter(s, p) == Filter([s[0]], p) + Filter(s[1..], p)
  {
    FilterAppend([s[0]], s[1..], p);
    FrontSplit(s);
  }

  /** A non-empty sequence is its first element followed by the rest. */
  lemma FrontSplit<T>(s: seq<T>)
    requires s != []
    ensures [s[0]] + s[1..] == s
  {
  }

  /** Filtering a sequence around one kept element: the element stays, between the two filtered sides. */
  lemma FilterSplice<T>(pre: seq<T>, x: T, post: seq<T>, p: T -> bool)
    requires p(x)
    ensures Filter(pre + [x] + post, p) == Filter(pre, p) + [x] + Filter(post, p)
  {
    FilterAppend(pre + [x], post, p);
    FilterAppend(pre, [x], p);
    assert [x][..0] == [];
  }

  /** An element is kept exactly when it occurs in `s` and satisfies `p`. */
  lemma {:induction false} FilterMembers<T>(s: seq<T>, p: T -> bool, x: T)
    ensures x in Filter(s, p) <==> x in s && p(x)
  {
    if s != [] {
      var init, last := s[..|s| - 1], s[|s| - 1];
      assert x in s <==> x in init || x == last by { assert s == init + [last]; }
      FilterMembers(init, p, x);
      if x in Filter(s, p) {
        assert x in multiset(Filter(s, p));
      }
    }
  }

  /** Nothing is kept from a sequence none of whose elements satisfies `p`. */
  lemma FilterNone<T>(s: seq<T>, p: T -> bool)
    requires forall k :: 0 <= k < |s| ==> !p(s[k])
    ensures Filter(s, p) == []
  {
    if Filter(s, p) != [] {
      FilterMembers(s, p, Filter(s, p)[0]);
    }
  }

  /** Everything is kept from a sequence all of whose elements satisfy `p`. */
  lemma {:induction false} FilterAll<T>(s: seq<T>, p: T -> bool)
    requires forall k :: 0 <= k < |s| ==> p(s[k])
    ensures Filter(s, p) == s
  {
    if s != [] {
      var init, last := s[..|s| - 1], s[|s| - 1];
      assert forall k :: 0 <= k < |init| ==> p(init[k]) by {
        forall k | 0 <= k < |init| ensures p(init[k]) {
          assert init[k] == s[k];
        }
      }
      FilterAll(init, p);
      assert Filter(s, p) == init + [last];
      Snoc(s);
    }
  }

  /** A sequence is its prefix up to `i` followed by the rest. */
  lemma SplitAt<T>(s: seq<T>, i: nat)
    requires i <= |s|
    ensures s[..i] + s[i..] == s
  {
  }

  /** A non-empty sequence is its prefix followed by its last element. */
  lemma Snoc<T>(s: seq<T>)
    requires s != []
    ensures s[..|s| - 1] + [s[|s| - 1]] == s
  {
  }

  /** A weaker predicate keeps at least as many elements. */
  lemma {:induction false} FilterWeaker<T>(s: seq<T>, p: T -> bool, q: T -> bool)
    requires forall x :: p(x) ==> q(x)
    ensures |Filter(s, p)| <= |Filter(s, q)|
  {
    if s != [] {
      FilterWeaker(s[..|s| - 1], p, q);
    }
  }

  /** Taking out the element at position `j` removes it from the multiset of elements. */
  lemma MultisetRemove<T>(b: seq<T>, j: nat)
    requires j < |b|
    ensures multiset(b[..j] + b[j + 1..]) == multiset(b) - multiset{b[j]}
  {
    assert b == b[..j] + [b[j]] + b[j + 1..];
  }

  /** Taking out the element at position `j` lowers the count by one exactly when it satisfies `p`. */
  lemma FilterCountRemove<T>(b: seq<T>, j: nat, p: T -> bool)
    requires j < |b|
    ensures |Filter(b, p)| == |Filter(b[..j] + b[j + 1..], p)| + (if p(b[j]) then 1 else 0)
  {
    var pre, x, post := b[..j], b[j], b[j + 1..];
    assert Filter(b, p) == Filter(pre + [x] + post, p) by { assert b == pre + [x] + post; }
    FilterCountSplice(pre, x, post, p);
  }

  /** Removing one element from between two sequences lowers the count by one exactly when it satisfies `p`. */
  lemma FilterCountSplice<T>(pre: seq<T>, x: T, post: seq<T>, p: T -> bool)
    ensures |Filter(pre + [x] + post, p)| == |Filter(pre + post, p)| + (if p(x) then 1 else 0)
  {
    FilterAppend(pre + [x], post, p);
    FilterAppend(pre, [x], p);
    FilterAppend(pre, post, p);
    assert [x][..0] == [];
  }

  /** The number of elements satisfying `p` depends only on the multiset of elements, not their order. */
  lemma {:induction false} FilterCountPermutation<T>(a: seq<T>, b: seq<T>, p: T -> bool)
    requires multiset(a) == multiset(b)
    ensures |Filter(a, p)| == |Filter(b, p)|
  {
    if a != [] {
      var j := MatchLast(a, b);
      FilterCountPermutation(a[..|a| - 1], b[..j] + b[j + 1..], p);
      FilterCountRemove(b, j, p);
    }
  }

  /** The last element of `a` occurs in any permutation `b` of `a`; removing it from both keeps them permutations. */
  lemma MatchLast<T>(a: seq<T>, b: seq<T>) returns (j: nat)
    requires a != [] && multiset(a) == multiset(b)
    ensures j < |b| && b[j] == a[|a| - 1]
    ensures multiset(a[..|a| - 1]) == multiset(b[..j] + b[j + 1..])
  {
    var init, last := a[..|a| - 1], a[|a| - 1];
    assert multiset(a) == multiset(init) + multiset{last} by { assert a == init + [last]; }
    assert last in multiset(b);
    j :| 0 <= j < |b| && b[j] == last;
    MultisetRemove(b, j);
  }

  /** `s.findIndex(p)`, with `None` for no match. */
  function FindIndex<T>(s: seq<T>, p: T -> bool): (r: Option<nat>)
    ensures r.Some? ==> r.value < |s| && p(s[r.value])
    ensures r.Some? ==> forall k :: 0 <= k < r.value ==> !p(s[k])
    ensures r.None? ==> forall k :: 0 <= k < |s| ==> !p(s[k])
  {
    if s == [] then None
    else if p(s[0]) then Some(0)
    else
      var r := FindIndex(s[1..], p);
      if r.Some? then Some(r.value + 1) else None
  }

  /** `s.find(p) || null`: the first element that satisfies `p`. */
  function Find<T>(s: seq<T>, p: T -> bool): (r: Option<T>)
    ensures r.Some? ==> p(r.value) && r.value in s
    ensures r.Some? ==> exists i :: 0 <= i < |s| && s[i] == r.value && forall k :: 0 <= k < i ==> !p(s[k])
    ensures r.None? ==> forall k :: 0 <= k < |s| ==> !p(s[k])
  {
    var i := FindIndex(s, p);
    if i.Some? then Some(s[i.value]) else None
  }
}
