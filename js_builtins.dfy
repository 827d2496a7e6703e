/**
 * The few JavaScript built-ins whose exact behaviour the routes depend on:
 * `String.prototype.trim`, `Array.prototype.slice`, `Math.ceil` of a quotient
 * and the `parseInt(q) || default` idiom for query parameters.
 */
module JsBuiltins {
  import opened Wrappers

  /** The characters `trim` removes: ECMAScript WhiteSpace and LineTerminator code points. */
  predicate IsJsWhitespace(c: char) {
    c in {'\t', '\n', '\U{000B}', '\U{000C}', '\r', ' ', '\U{00A0}', '\U{1680}',
          '\U{2000}', '\U{2001}', '\U{2002}', '\U{2003}', '\U{2004}', '\U{2005}',
          '\U{2006}', '\U{2007}', '\U{2008}', '\U{2009}', '\U{200A}', '\U{2028}',
          '\U{2029}', '\U{202F}', '\U{205F}', '\U{3000}', '\U{FEFF}'}
  }

  predicate AllWhitespace(s: string) {
    forall k :: 0 <= k < |s| ==> IsJsWhitespace(s[k])
  }

  /** The number of whitespace characters `s` starts with. */
  function LeadingWhitespace(s: string): (n: nat)
    ensures n <= |s|
    ensures forall k :: 0 <= k < n ==> IsJsWhitespace(s[k])
    ensures n < |s| ==> !IsJsWhitespace(s[n])
  {
    if |s| > 0 && IsJsWhitespace(s[0]) then LeadingWhitespace(s[1..]) + 1 else 0
  }

  /** The number of whitespace characters `s` ends with. */
  function TrailingWhitespace(s: string): (n: nat)
    ensures n <= |s|
    ensures forall k :: |s| - n <= k < |s| ==> IsJsWhitespace(s[k])
    ensures n < |s| ==> !IsJsWhitespace(s[|s| - 1 - n])
  {
    if |s| > 0 && IsJsWhitespace(s[|s| - 1]) then TrailingWhitespace(s[..|s| - 1]) + 1 else 0
  }

  /**
   * `s.trim()`: the infix of `s` left after dropping its leading and then its trailing
   * whitespace. Only whitespace is dropped on either side, and a non-empty result starts and
   * ends with a non-whitespace character, so no more whitespace could be dropped.
   */
  function Trim(s: string): (r: string)
    ensures var lead := LeadingWhitespace(s);
      && lead + |r| <= |s| && r == s[lead..lead + |r|]
      && (forall k :: 0 <= k < lead ==> IsJsWhitespace(s[k]))
      && (forall k :: lead + |r| <= k < |s| ==> IsJsWhitespace(s[k]))
    ensures r != [] ==> !IsJsWhitespace(r[0]) && !IsJsWhitespace(r[|r| - 1])
  {
    var lead := LeadingWhitespace(s);
    var trail := TrailingWhitespace(s[lead..]);
    TrailingAfter(s, lead, trail);
    s[lead..|s| - trail]
  }

  /** The trailing whitespace of a suffix of `s` is trailing whitespace of `s` itself. */
  lemma TrailingAfter(s: string, lead: nat, trail: nat)
    requires lead <= |s| && trail == TrailingWhitespace(s[lead..])
    ensures forall k :: |s| - trail <= k < |s| ==> IsJsWhitespace(s[k])
    ensures trail < |s| - lead ==> !IsJsWhitespace(s[|s| - 1 - trail])
  {
    var t := s[lead..];
    forall k | |s| - trail <= k < |s| ensures IsJsWhitespace(s[k]) {
      assert s[k] == t[k - lead];
    }
    if trail < |t| {
      assert s[|s| - 1 - trail] == t[|t| - 1 - trail];
    }
  }

  /** A string trims to the empty string exactly when it consists of whitespace only. */
  lemma TrimEmptyIff(s: string)
    ensures Trim(s) == [] <==> AllWhitespace(s)
  {
    if AllWhitespace(s) {
      assert LeadingWhitespace(s) == |s|;
    }
  }

  /** Trimming an already trimmed string changes nothing (the schema's `trim: true` re-trims on save). */
  lemma TrimIdempotent(s: string)
    ensures Trim(Trim(s)) == Trim(s)
  {
    var r := Trim(s);
    if r != [] {
      assert LeadingWhitespace(r) == 0;
      assert TrailingWhitespace(r) == 0;
      assert r[0..][..|r| - 0] == r;
    }
  }

  /** How `slice` turns a possibly negative argument into a position in a sequence of length `len`. */
  function RelativeIndex(i: int, len: nat): (r: nat)
    ensures r <= len
    ensures 0 <= i ==> r == if i < len then i else len
    ensures i < 0 ==> r == if len + i < 0 then 0 else len + i
  {
    if i < 0 then (if len + i < 0 then 0 else len + i) else if i < len then i else len
  }

  function Min(a: int, b: int): int { if a < b then a else b }

  /** `s.slice(start, end)`; negative arguments count from the end. */
  function Slice<T>(s: seq<T>, start: int, end: int): (r: seq<T>)
    ensures |r| <= |s|
    ensures 0 <= start <= end ==> r == s[Min(start, |s|)..Min(end, |s|)] && |r| <= end - start
  {
    var lo := RelativeIndex(start, |s|);
    var hi := RelativeIndex(end, |s|);
    if lo < hi then s[lo..hi] else []
  }

  /** A slice of `len` positions from any start, even a negative one, has at most `len` elements. */
  lemma SliceWithin<T>(s: seq<T>, start: int, len: int)
    ensures len >= 0 ==> |Slice(s, start, start + len)| <= len
  {
  }

  /**
   * `Math.ceil(a / b)` for a non-zero divisor, computed on integers: Dafny's `/` rounds
   * down for a positive divisor, and ceil(a / b) = -floor(-a / b).
   */
  function CeilDiv(a: int, b: int): int
    requires b != 0
  {
    if b > 0 then -((-a) / b) else -(a / (-b))
  }

  /** For a positive divisor, `CeilDiv(a, b)` is the least `q` with `q * b >= a`. */
  lemma CeilDivBounds(a: int, b: int)
    requires b > 0
    ensures CeilDiv(a, b) * b >= a
    ensures CeilDiv(a, b) * b - b < a
  {
    var q := (-a) / b;
    var m := (-a) % b;
    assert -a == q * b + m && 0 <= m < b;
    assert CeilDiv(a, b) * b == -(q * b);
  }

  /** A request string's truthiness: absent (`undefined`/`null`) and `""` are falsy. */
  predicate Truthy(s: Option<string>) {
    s.Some? && s.value != ""
  }

  /** `parseInt(q) || d`: an absent or unparsable parameter (`None`) and zero both fall back to `d`. */
  function ParamOr(p: Option<int>, d: int): (r: int)
    ensures d != 0 ==> r != 0
    ensures p.Some? && p.value != 0 ==> r == p.value
  {
    if p.None? || p.value == 0 then d else p.value
  }
}
