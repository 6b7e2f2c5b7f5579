/** The JavaScript built-ins the wheel relies on, as pure functions:
    String.prototype.trim, Array.prototype.indexOf, Array.prototype.splice(i, 1)
    and the remainder operator `%` on numbers (taken over exact reals). */
module JsBuiltins {

  /** `null` / `undefined` (None) or a value (Some). */
  datatype Option<T> = None | Some(value: T)

  // ---------------------------------------------------------------------------
  // String.prototype.trim
  // ---------------------------------------------------------------------------

  /** The characters ECMAScript's trim removes: WhiteSpace (TAB, VT, FF, SP,
      NBSP, ZWNBSP and the Unicode "Zs" space separators) and LineTerminator
      (LF, CR, LS, PS). */
  predicate IsWhiteSpace(c: char)
  {
    c == '\t' || c == '\n' || c == '\U{B}' || c == '\U{C}' || c == '\r' || c == ' '
    || c == '\U{A0}' || c == '\U{1680}' || ('\U{2000}' <= c <= '\U{200A}')
    || c == '\U{2028}' || c == '\U{2029}' || c == '\U{202F}' || c == '\U{205F}'
    || c == '\U{3000}' || c == '\U{FEFF}'
  }

  predicate AllWhiteSpace(s: string)
  {
    forall k :: 0 <= k < |s| ==> IsWhiteSpace(s[k])
  }

  /** The first position at or after `i` that does not hold white space
      (or `|s|` when there is none). */
  function SkipLeading(s: string, i: nat): (j: nat)
    requires i <= |s|
    ensures i <= j <= |s|
    ensures forall k :: i <= k < j ==> IsWhiteSpace(s[k])
    ensures j < |s| ==> !IsWhiteSpace(s[j])
    decreases |s| - i
  {
    if i < |s| && IsWhiteSpace(s[i]) then SkipLeading(s, i + 1) else i
  }

  /** The end of `s[lo..j]` once its trailing white space is dropped. */
  function SkipTrailing(s: string, lo: nat, j: nat): (e: nat)
    requires lo <= j <= |s|
    ensures lo <= e <= j
    ensures forall k :: e <= k < j ==> IsWhiteSpace(s[k])
    ensures lo < e ==> !IsWhiteSpace(s[e - 1])
    decreases j
  {
    if lo < j && IsWhiteSpace(s[j - 1]) then SkipTrailing(s, lo, j - 1) else j
  }

  /** Where the trimmed text starts inside the original. */
  function TrimOffset(s: string): (start: nat)
    ensures start <= |s|
    ensures forall k :: 0 <= k < start ==> IsWhiteSpace(s[k])
  {
    SkipLeading(s, 0)
  }

  /** `s.trim()`: the contiguous piece of `s` left once white space is removed
      from both ends; it is empty exactly when `s` is all white space. */
  function Trim(s: string): (r: string)
    ensures TrimOffset(s) + |r| <= |s| && r == s[TrimOffset(s)..TrimOffset(s) + |r|]
    ensures forall k :: 0 <= k < TrimOffset(s) ==> IsWhiteSpace(s[k])
    ensures forall k :: TrimOffset(s) + |r| <= k < |s| ==> IsWhiteSpace(s[k])
    ensures r != [] ==> !IsWhiteSpace(r[0]) && !IsWhiteSpace(r[|r| - 1])
    ensures r == [] <==> AllWhiteSpace(s)
  {
    var start := SkipLeading(s, 0);
    var end := SkipTrailing(s, start, |s|);
    s[start..end]
  }

  /** Trimming twice is trimming once. */
  lemma TrimIdempotent(s: string)
    ensures Trim(Trim(s)) == Trim(s)
  {
    var r := Trim(s);
    if r != [] {
      assert SkipLeading(r, 0) == 0;
      assert SkipTrailing(r, 0, |r|) == |r|;
    }
  }

  /** Padding is dropped and blank text trims to nothing. */
  lemma TrimExamples()
    ensures Trim(" A ") == "A"
    ensures Trim("   ") == []
  {
    assert SkipLeading(" A ", 0) == 1;
    assert SkipTrailing(" A ", 1, 3) == 2;
    assert AllWhiteSpace("   ");
  }

  /** A one-character title is kept as it is unless that character is white
      space (then it trims to nothing, as the blank case above). */
  lemma TrimSingleLetter(c: char)
    ensures !IsWhiteSpace(c) ==> Trim([c]) == [c]
    ensures IsWhiteSpace(c) ==> Trim([c]) == []
  {
    if !IsWhiteSpace(c) {
      assert SkipLeading([c], 0) == 0;
      assert SkipTrailing([c], 0, 1) == 1;
    } else {
      assert AllWhiteSpace([c]);
    }
  }

  /** Which characters count as white space: among ASCII exactly TAB, LF, VT,
      FF, CR and SP; beyond ASCII e.g. NBSP, ZWNBSP, the ideographic space and
      the line and paragraph separators, but not NEL (U+0085), the zero-width
      space (U+200B) or the Mongolian vowel separator (U+180E). */
  lemma WhiteSpaceCharacters(c: char)
    ensures c < '\U{80}' ==> (IsWhiteSpace(c) <==> c in "\t\n\U{B}\U{C}\r ")
    ensures IsWhiteSpace('\U{A0}') && IsWhiteSpace('\U{FEFF}') && IsWhiteSpace('\U{3000}')
    ensures IsWhiteSpace('\U{2028}') && IsWhiteSpace('\U{2029}')
    ensures !IsWhiteSpace('\U{85}') && !IsWhiteSpace('\U{200B}') && !IsWhiteSpace('\U{180E}')
  {
  }

  // ---------------------------------------------------------------------------
  // Array.prototype.indexOf and Array.prototype.splice(index, 1)
  // ---------------------------------------------------------------------------

  /** `s.indexOf(x)`: the position of the first element equal to `x`, or -1. */
  function IndexOf<T(==)>(s: seq<T>, x: T): (r: int)
    ensures -1 <= r < |s|
    ensures r == -1 <==> x !in s
    ensures 0 <= r ==> s[r] == x && x !in s[..r]
  {
    if |s| == 0 then -1
    else if s[0] == x then 0
    else
      var k := IndexOf(s[1..], x);
      assert s[1..][..if k < 0 then 0 else k] == s[1..if k < 0 then 1 else k + 1];
      if k == -1 then -1 else k + 1
  }

  /** `s.splice(index, 1)` for a non-negative index: the element at `index` is
      taken out and the later ones move down by one; an index past the end
      removes nothing. */
  function RemoveAt<T>(s: seq<T>, index: nat): (r: seq<T>)
    ensures index < |s| ==> |r| == |s| - 1
    ensures index < |s| ==> forall k :: 0 <= k < index ==> r[k] == s[k]
    ensures index < |s| ==> forall k :: index <= k < |r| ==> r[k] == s[k + 1]
    ensures |s| <= index ==> r == s
  {
    if index < |s| then s[..index] + s[index + 1..] else s
  }

  /** Removing a position removes exactly one copy of the element there and
      keeps every other element. */
  lemma RemoveAtMultiset<T>(s: seq<T>, index: nat)
    requires index < |s|
    ensures multiset(RemoveAt(s, index)) == multiset(s) - multiset{s[index]}
  {
    assert s == s[..index] + [s[index]] + s[index + 1..];
  }

  /** Removing the first occurrence of `x` (what `splice(indexOf(x), 1)`
      does) drops one copy of `x` and leaves every other copy in place. */
  lemma RemoveFirstOccurrence<T>(s: seq<T>, x: T)
    requires x in s
    ensures multiset(RemoveAt(s, IndexOf(s, x))) == multiset(s) - multiset{x}
    ensures multiset(RemoveAt(s, IndexOf(s, x)))[x] == multiset(s)[x] - 1
  {
    RemoveAtMultiset(s, IndexOf(s, x));
  }

  // ---------------------------------------------------------------------------
  // Math.min, Math.pow(x, 3) and the remainder operator `%` on numbers
  // ---------------------------------------------------------------------------

  /** `Math.min(a, b)`. */
  function Min(a: real, b: real): (m: real)
    ensures m <= a && m <= b
    ensures m == a || m == b
  {
    if a <= b then a else b
  }

  /** `Math.pow(x, 3)`: it fixes 0 and 1 and keeps the sign of `x`. */
  function Cube(x: real): (r: real)
    ensures x == 0.0 ==> r == 0.0
    ensures x == 1.0 ==> r == 1.0
    ensures 0.0 < x ==> 0.0 < r
    ensures x < 0.0 ==> r < 0.0
  {
    x * x * x
  }

  /** Cubing is strictly increasing on the non-negative reals. */
  lemma CubeStrictlyIncreasing(x: real, y: real)
    requires 0.0 <= x < y
    ensures Cube(x) < Cube(y)
  {
    var s := y * y + x * y + x * x;
    assert y * y * y - x * x * x == (y - x) * s;
    assert 0.0 < y * y && 0.0 <= x * y && 0.0 <= x * x;
    assert 0.0 < (y - x) * s;
  }

  /** Rounds toward zero, as the `%` operator's implied quotient does. */
  function Trunc(x: real): (t: int)
    ensures 0.0 <= x ==> t as real <= x < t as real + 1.0
    ensures x < 0.0 ==> t as real - 1.0 < x <= t as real
  {
    if x >= 0.0 then x.Floor else -((-x).Floor)
  }

  /** Real division by a positive number and the bounds `Floor` gives. */
  lemma FloorDivBounds(x: real, b: real)
    requires b > 0.0
    ensures ((x / b).Floor as real) * b <= x
    ensures x < ((x / b).Floor as real + 1.0) * b
  {
    var q := x / b;
    var f := q.Floor as real;
    assert x == q * b;
    assert f <= q < f + 1.0;
    var d := f + 1.0 - q;
    MulRightStrict(0.0, d, b);
    assert d * b == f * b + b - q * b;
    MulRight(f, q, b);
    assert (f + 1.0) * b == f * b + b;
  }

  /** `x` lies in the `(x / a).Floor`-th stretch of length `a`. */
  lemma FloorDivSegment(x: real, a: real)
    requires 0.0 < a
    ensures ((x / a).Floor as real) * a <= x < ((x / a).Floor as real) * a + a
  {
    FloorDivBounds(x, a);
    var f := (x / a).Floor as real;
    assert (f + 1.0) * a == f * a + a;
  }

  /** Multiplying by a non-negative number keeps an inequality. */
  lemma MulRight(a: real, b: real, c: real)
    requires a <= b && 0.0 <= c
    ensures a * c <= b * c
  {
    assert 0.0 <= (b - a) * c;
  }

  /** Multiplying by a positive number keeps a strict inequality. */
  lemma MulRightStrict(a: real, b: real, c: real)
    requires a < b && 0.0 < c
    ensures a * c < b * c
  {
    assert 0.0 < (b - a) * c;
  }

  /** If `x` lies in [0, n * a), then `x / a` rounds down to a position in [0, n). */
  lemma FloorDivBelow(x: real, a: real, n: nat)
    requires 0.0 < a && 0.0 <= x < a * n as real
    ensures 0 <= (x / a).Floor < n
  {
    var q := x / a;
    assert x == q * a;
    if q < 0.0 {
      MulRightStrict(q, 0.0, a);
    }
    if q >= n as real {
      MulRight(n as real, q, a);
    }
  }

  /** `a % b` for a positive divisor: the result takes the sign of `a`, its
      magnitude is below `b`, and it differs from `a` by a whole multiple of `b`. */
  function Rem(a: real, b: real): (r: real)
    requires b > 0.0
    ensures 0.0 <= a ==> 0.0 <= r < b
    ensures a < 0.0 ==> -b < r <= 0.0
    ensures a - r == b * Trunc(a / b) as real
  {
    if a >= 0.0 then
      FloorDivBounds(a, b);
      a - b * (a / b).Floor as real
    else
      FloorDivBounds(-a, b);
      assert -a / b == -(a / b);
      a - b * Trunc(a / b) as real
  }

  /** Shifting a non-negative dividend by whole multiples of the divisor does
      not change the remainder, provided it stays non-negative. */
  lemma RemShift(a: real, b: real, m: int)
    requires b > 0.0 && 0.0 <= a && 0.0 <= a + b * m as real
    ensures Rem(a + b * m as real, b) == Rem(a, b)
  {
    var a' := a + b * m as real;
    assert a' / b == a / b + m as real;
    assert (a' / b).Floor == (a / b).Floor + m;
  }
}
