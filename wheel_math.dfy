/** The arithmetic of one spin: the random target angle, the eased rotation of
    each animation frame, the winner read off the final angle, and the text
    drawn on a segment. Angles are radians over exact reals. */
module WheelMath {
  import opened JsBuiltins

  /** `Math.PI`, as the exact decimal it prints as. */
  const PI: real := 3.141592653589793
  /** `2 * Math.PI`: one whole turn of the wheel. */
  const FullTurn: real := 2.0 * PI
  /** The fixed reference angle the winner is read at (top of the wheel). */
  const PointerAngle: real := 3.0 * PI / 2.0
  /** The bounds of the random number of turns, `minSpins` and `maxSpins`. */
  const MinSpins: real := 5.0
  const MaxSpins: real := 8.0
  /** Length of the spin animation in milliseconds. */
  const Duration: real := 4000.0
  /** Titles longer than `LabelMax` are drawn as their first `LabelKeep`
      characters and an ellipsis. */
  const LabelMax: nat := 20
  const LabelKeep: nat := 17

  // ---------------------------------------------------------------------------
  // Starting a spin
  // ---------------------------------------------------------------------------

  /** The target angle of a spin, from the value `random` of `Math.random()`:
      between five (inclusive) and eight (exclusive) whole turns. */
  function TotalRotation(random: real): (total: real)
    requires 0.0 <= random < 1.0
    ensures MinSpins * FullTurn <= total < MaxSpins * FullTurn
  {
    var spins := random * (MaxSpins - MinSpins) + MinSpins;
    spins * 2.0 * PI
  }

  // ---------------------------------------------------------------------------
  // One animation frame
  // ---------------------------------------------------------------------------

  /** The share of the animation done after `elapsed` milliseconds, clamped at
      1; it is 1 exactly once the whole duration has passed. */
  function Progress(elapsed: nat): (p: real)
    ensures 0.0 <= p <= 1.0
    ensures p == 1.0 <==> Duration <= elapsed as real
    ensures elapsed == 0 ==> p == 0.0
  {
    Min(elapsed as real / Duration, 1.0)
  }

  /** Progress never goes back as time passes. */
  lemma ProgressMonotone(e1: nat, e2: nat)
    requires e1 <= e2
    ensures Progress(e1) <= Progress(e2)
  {
  }

  /** The cubic ease-out curve: it maps [0, 1] into [0, 1], fixing both ends. */
  function EaseOut(p: real): (e: real)
    ensures 0.0 <= p <= 1.0 ==> 0.0 <= e <= 1.0
    ensures p == 0.0 ==> e == 0.0
    ensures p == 1.0 ==> e == 1.0
  {
    assert 0.0 <= p <= 1.0 ==> 0.0 <= Cube(1.0 - p) <= 1.0 by {
      if 0.0 <= p <= 1.0 && p != 1.0 {
        CubeStrictlyIncreasing(0.0, 1.0 - p);
      }
      if 0.0 <= p <= 1.0 && p != 0.0 {
        CubeStrictlyIncreasing(1.0 - p, 1.0);
      }
    }
    1.0 - Cube(1.0 - p)
  }

  /** The eased value rises strictly with progress: the wheel never stops or
      turns back before the end. */
  lemma EaseOutStrictlyIncreasing(p: real, q: real)
    requires 0.0 <= p < q <= 1.0
    ensures EaseOut(p) < EaseOut(q)
  {
    CubeStrictlyIncreasing(1.0 - q, 1.0 - p);
  }

  /** On [0, 1] the eased value is 1 only at the very end. */
  lemma EaseOutIsOneOnlyAtEnd(p: real)
    requires 0.0 <= p <= 1.0
    ensures EaseOut(p) == 1.0 <==> p == 1.0
  {
    if p < 1.0 {
      EaseOutStrictlyIncreasing(p, 1.0);
    }
  }

  /** The wheel's angle on the frame drawn `elapsed` milliseconds into a spin
      towards `total`: within [0, total], and exactly `total` once the
      duration has passed. */
  function FrameRotation(total: real, elapsed: nat): (r: real)
    ensures 0.0 <= total ==> 0.0 <= r <= total
    ensures Duration <= elapsed as real ==> r == total
  {
    var e := EaseOut(Progress(elapsed));
    assert 0.0 <= total ==> 0.0 <= total * e <= total by {
      if 0.0 <= total {
        assert 0.0 <= total * e;
        assert 0.0 <= total * (1.0 - e);
      }
    }
    total * e
  }

  /** Later frames never show the wheel turned less far. */
  lemma FrameRotationMonotone(total: real, e1: nat, e2: nat)
    requires 0.0 <= total && e1 <= e2
    ensures FrameRotation(total, e1) <= FrameRotation(total, e2)
  {
    ProgressMonotone(e1, e2);
    var p1, p2 := Progress(e1), Progress(e2);
    if p1 < p2 {
      EaseOutStrictlyIncreasing(p1, p2);
    }
    assert 0.0 <= total * (EaseOut(p2) - EaseOut(p1));
  }

  /** Before the duration has passed, a spin with a positive target has not
      reached it: the target is reached exactly when progress clamps to 1. */
  lemma FrameRotationBeforeEnd(total: real, elapsed: nat)
    requires 0.0 < total && (elapsed as real) < Duration
    ensures FrameRotation(total, elapsed) < total
  {
    var p := Progress(elapsed);
    EaseOutStrictlyIncreasing(p, 1.0);
    var e := EaseOut(p);
    assert FrameRotation(total, elapsed) == total * e;
    assert 0.0 < total * (1.0 - e);
    assert total * (1.0 - e) == total - total * e;
  }

  // ---------------------------------------------------------------------------
  // Reading the winner off the final angle
  // ---------------------------------------------------------------------------

  /** `rotation % (2 * Math.PI)`: keeps the sign of `rotation`, and differs
      from it by whole turns. */
  function NormalizedRotation(rotation: real): (n: real)
    ensures 0.0 <= rotation ==> 0.0 <= n < FullTurn
    ensures -FullTurn < n < FullTurn
    ensures rotation - n == FullTurn * Trunc(rotation / FullTurn) as real
  {
    Rem(rotation, FullTurn)
  }

  /** `(2 * Math.PI) / count`: the angle each of `count` segments spans. */
  function AnglePerSection(count: nat): (a: real)
    requires 1 <= count
    ensures 0.0 < a && a * count as real == FullTurn
  {
    FullTurn / count as real
  }

  /** The pointer's angle measured from the start of segment 0, reduced into
      one turn: `(pointerAngle - normalizedRotation + 2π) % 2π`. */
  function PointerOffset(rotation: real): (x: real)
    ensures 0.0 <= x < FullTurn
  {
    Rem(PointerAngle - NormalizedRotation(rotation) + FullTurn, FullTurn)
  }

  /** The index of the segment whose drawn arc holds the pointer angle:
      always a valid position. */
  function SelectedIndex(rotation: real, count: nat): (i: int)
    requires 1 <= count
    ensures 0 <= i < count
  {
    var x := PointerOffset(rotation);
    var a := AnglePerSection(count);
    FloorDivBelow(x, a, count);
    (x / a).Floor
  }

  /** The entry that wins: the selected index reflected through the list,
      also always a valid position. */
  function WinningIndex(rotation: real, count: nat): (w: int)
    requires 1 <= count
    ensures 0 <= w < count
    ensures w == count - 1 - SelectedIndex(rotation, count)
  {
    var s := SelectedIndex(rotation, count);
    ReflectIndex(s, count);
    (count - s - 1 + count) % count
  }

  /** For a position `s` below `n`, `(n - s - 1 + n) % n` is `n - 1 - s`. */
  lemma ReflectIndex(s: int, n: int)
    requires 0 <= s < n
    ensures (n - s - 1 + n) % n == n - 1 - s
  {
    var a := n - 1 - s;
    var q, r := (a + n) / n, (a + n) % n;
    assert a + n == n * q + r && 0 <= r < n;
    assert q == 1;
  }

  /** The pointer offset is the pointer angle less the rotation, up to whole
      turns `m`. */
  lemma PointerOffsetTurns(rotation: real) returns (m: int)
    ensures PointerOffset(rotation) == PointerAngle - rotation + FullTurn * m as real
  {
    var inner := PointerAngle - NormalizedRotation(rotation) + FullTurn;
    var t := Trunc(rotation / FullTurn);
    var f := Trunc(inner / FullTurn);
    m := t + 1 - f;
    assert FullTurn * m as real == FullTurn * t as real + FullTurn - FullTurn * f as real;
  }

  /** The pointer offset lies in the selected segment's stretch of angles. */
  lemma SelectedIndexSegment(rotation: real, count: nat)
    requires 1 <= count
    ensures var a, s := AnglePerSection(count), SelectedIndex(rotation, count) as real;
      s * a <= PointerOffset(rotation) < s * a + a
  {
    FloorDivSegment(PointerOffset(rotation), AnglePerSection(count));
  }

  /** `movies[winningIndex]` on the finishing frame: an entry of the list as
      it is at that moment, and the only entry when there is one. With every
      entry deleted mid-spin the lookup yields `undefined` (None). */
  function Winner(entries: seq<string>, rotation: real): (w: Option<string>)
    ensures w == None <==> entries == []
    ensures w.Some? ==> w.value in entries
    ensures |entries| == 1 ==> w == Some(entries[0])
  {
    if entries == [] then None
    else
      WinningIndexSingle(rotation);
      Some(entries[WinningIndex(rotation, |entries|)])
  }

  /** Under the drawing convention that segment `i` starts at angle
      `i * anglePerSection + rotation`, the selected segment's arc does contain
      the pointer angle, up to whole turns `m`. */
  lemma SelectedSegmentHoldsPointer(rotation: real, count: nat) returns (m: int)
    requires 1 <= count
    ensures var a, s := AnglePerSection(count), SelectedIndex(rotation, count) as real;
      s * a + rotation <= PointerAngle + FullTurn * m as real < s * a + a + rotation
  {
    m := PointerOffsetTurns(rotation);
    SelectedIndexSegment(rotation, count);
  }

  /** With a single entry the winner is always that entry. */
  lemma WinningIndexSingle(rotation: real)
    ensures WinningIndex(rotation, 1) == 0
  {
  }

  /** Turning the wheel by whole turns, in either direction, does not change
      the winner. */
  lemma WinningIndexFullTurns(rotation: real, count: nat, k: int)
    requires 1 <= count
    ensures SelectedIndex(rotation + FullTurn * k as real, count) == SelectedIndex(rotation, count)
    ensures WinningIndex(rotation + FullTurn * k as real, count) == WinningIndex(rotation, count)
  {
    var rotation' := rotation + FullTurn * k as real;
    var n, n' := NormalizedRotation(rotation), NormalizedRotation(rotation');
    var t, t' := Trunc(rotation / FullTurn), Trunc(rotation' / FullTurn);
    var inner := PointerAngle - n + FullTurn;
    var inner' := PointerAngle - n' + FullTurn;
    assert inner' == inner + FullTurn * (t' - t - k) as real;
    RemShift(inner, FullTurn, t' - t - k);
  }

  /** Four entries and the wheel at rest: segment 3 is selected and entry 0
      wins. */
  lemma FourEntriesAtRest()
    ensures SelectedIndex(0.0, 4) == 3
    ensures WinningIndex(0.0, 4) == 0
  {
    assert NormalizedRotation(0.0) == 0.0;
    assert PointerOffset(0.0) == PointerAngle;
    assert PointerAngle / AnglePerSection(4) == 3.0;
  }

  // ---------------------------------------------------------------------------
  // The text drawn on a segment
  // ---------------------------------------------------------------------------

  /** The label of a title: never more than 20 characters; a short title
      is drawn whole, a long one as its first 17 characters and "...". */
  function Label(title: string): (text: string)
    ensures |text| <= LabelMax
    ensures |title| <= LabelMax ==> text == title
    ensures LabelMax < |title| ==>
      (|text| == LabelMax && text[..LabelKeep] == title[..LabelKeep] && text[LabelKeep..] == "...")
  {
    if |title| > LabelMax then title[..LabelKeep] + "..." else title
  }

  /** A label is drawn as itself. */
  lemma LabelIdempotent(title: string)
    ensures Label(Label(title)) == Label(title)
  {
  }
}
