/**
  The numeric part of the overscroll stretch effect: the fixed tuning
  constants, the cubic ease-out curve, and the rule that turns one vertical
  scroll delta into a bounded increase of the stretch factor.

  Doubles are modelled as mathematical reals; the single-precision casts the
  controller makes when it writes the transform are not modelled.
*/
module StretchMath {

  /** Largest vertical stretch factor: 5% taller than at rest. */
  const MaxStretch: real := 1.05

  /** Stretch factor at rest. */
  const RestStretch: real := 1.0

  /** Pixels of drag per unit of stretch when the stretch has not started yet. */
  const ResistanceBase: real := 1000.0

  /** Extra resistance added as the eased progress approaches 1. */
  const ResistanceSlope: real := 18000.0

  /** Duration of the release animation and delay of the deferred reset. */
  const ReleaseDurationMs: nat := 350

  function Abs(x: real): (r: real)
    ensures r >= 0.0 && (r == x || r == -x)
  {
    if x < 0.0 then -x else x
  }

  /**
    The cubic ease-out curve 1 - (1 - p)^3. It agrees with the library form
    f^3 + 1 with f = p - 1, and runs from 0 at p = 0 to 1 at p = 1.
  */
  function EaseOutCubic(p: real): (r: real)
    ensures r == (p - 1.0) * (p - 1.0) * (p - 1.0) + 1.0
    ensures p == 0.0 ==> r == 0.0
    ensures p == 1.0 ==> r == 1.0
  {
    1.0 - (1.0 - p) * (1.0 - p) * (1.0 - p)
  }

  lemma CubeMonotone(a: real, b: real)
    requires 0.0 <= b <= a
    ensures 0.0 <= b * b * b <= a * a * a
  {
    assert 0.0 <= b * b <= a * b <= a * a;
    assert b * b * b <= a * a * b <= a * a * a;
  }

  lemma CubeStrictlyMonotone(a: real, b: real)
    requires 0.0 <= b < a
    ensures b * b * b < a * a * a
  {
    assert 0.0 <= b * b <= a * b <= a * a;
    assert 0.0 < a * a;
    assert b * b * b <= a * a * b < a * a * a;
  }

  /** The curve maps [0, 1] onto [0, 1], fixing both end points. */
  lemma EaseOutCubicRange(p: real)
    requires 0.0 <= p <= 1.0
    ensures 0.0 <= EaseOutCubic(p) <= 1.0
    ensures EaseOutCubic(0.0) == 0.0 && EaseOutCubic(1.0) == 1.0
  {
    CubeMonotone(1.0, 1.0 - p);
  }

  /** The curve is increasing on [0, 1]. */
  lemma EaseOutCubicMonotone(p: real, q: real)
    requires 0.0 <= p <= q <= 1.0
    ensures EaseOutCubic(p) <= EaseOutCubic(q)
    ensures p < q ==> EaseOutCubic(p) < EaseOutCubic(q)
  {
    CubeMonotone(1.0 - p, 1.0 - q);
    if p < q {
      CubeStrictlyMonotone(1.0 - p, 1.0 - q);
    }
  }

  /**
    How far the stretch factor has travelled from rest towards the maximum,
    as a fraction of the distance between them.
  */
  function Progress(stretch: real): (r: real)
    ensures r == (stretch - RestStretch) / (MaxStretch - RestStretch)
  {
    (stretch - 1.0) * (1.0 / (MaxStretch - 1.0))
  }

  lemma ProgressRange(stretch: real)
    requires RestStretch <= stretch <= MaxStretch
    ensures 0.0 <= Progress(stretch) <= 1.0
    ensures stretch == RestStretch ==> Progress(stretch) == 0.0
    ensures stretch == MaxStretch ==> Progress(stretch) == 1.0
  {
    assert 1.0 / (MaxStretch - 1.0) == 20.0;
  }

  /**
    The divisor of the increment: the further the stretch already is, the
    more drag one unit of stretch costs. It stays between 1000 and 19000, so
    the division never sees zero.
  */
  function Resistance(stretch: real): (r: real)
    requires RestStretch <= stretch <= MaxStretch
    ensures ResistanceBase <= r <= ResistanceBase + ResistanceSlope
  {
    ProgressRange(stretch);
    EaseOutCubicRange(Progress(stretch));
    ResistanceBase + EaseOutCubic(Progress(stretch)) * ResistanceSlope
  }

  /** Growth of the stretch factor for one vertical delta, before clamping. */
  function Increment(stretch: real, dy: real): (r: real)
    requires RestStretch <= stretch <= MaxStretch
    ensures 0.0 <= r <= Abs(dy) / ResistanceBase
    ensures dy != 0.0 <==> r > 0.0
  {
    var d := Resistance(stretch);
    assert Abs(dy) / d <= Abs(dy) / ResistanceBase by {
      DivideByLarger(Abs(dy), ResistanceBase, d);
    }
    Abs(dy) / d
  }

  lemma DivideByLarger(x: real, d1: real, d2: real)
    requires x >= 0.0 && 0.0 < d1 <= d2
    ensures 0.0 <= x / d2 <= x / d1
    ensures x > 0.0 && d1 < d2 ==> x / d2 < x / d1
  {
    var a, b := x / d1, x / d2;
    assert a * d1 == x && b * d2 == x;
    assert a * d1 <= a * d2;
    if x > 0.0 && d1 < d2 {
      assert a > 0.0;
      assert a * d1 < a * d2;
    }
  }

  lemma DivideLarger(x1: real, x2: real, d: real)
    requires 0.0 <= x1 <= x2 && 0.0 < d
    ensures x1 / d <= x2 / d
  {
    assert (x2 - x1) / d >= 0.0;
    assert x2 / d - x1 / d == (x2 - x1) / d;
  }

  /**
    The stretch factor after one accepted vertical delta: raised by the
    increment and capped at the maximum.
  */
  function NextStretch(stretch: real, dy: real): (r: real)
    requires RestStretch <= stretch <= MaxStretch
    ensures stretch <= r <= MaxStretch
    ensures stretch < MaxStretch && dy != 0.0 ==> stretch < r
    ensures stretch + Increment(stretch, dy) < MaxStretch ==> r == stretch + Increment(stretch, dy)
    ensures stretch + Increment(stretch, dy) >= MaxStretch ==> r == MaxStretch
  {
    var next := stretch + Increment(stretch, dy);
    if next >= MaxStretch then MaxStretch else next
  }

  /** Resistance grows strictly with the stretch already applied. */
  lemma ResistanceMonotone(s1: real, s2: real)
    requires RestStretch <= s1 <= s2 <= MaxStretch
    ensures Resistance(s1) <= Resistance(s2)
    ensures s1 < s2 ==> Resistance(s1) < Resistance(s2)
  {
    ProgressRange(s1);
    ProgressRange(s2);
    EaseOutCubicMonotone(Progress(s1), Progress(s2));
  }

  /** The same drag buys less stretch the further the content is stretched. */
  lemma IncrementShrinksWithStretch(s1: real, s2: real, dy: real)
    requires RestStretch <= s1 <= s2 <= MaxStretch
    ensures Increment(s2, dy) <= Increment(s1, dy)
    ensures s1 < s2 && dy != 0.0 ==> Increment(s2, dy) < Increment(s1, dy)
  {
    ResistanceMonotone(s1, s2);
    DivideByLarger(Abs(dy), Resistance(s1), Resistance(s2));
  }

  /** Only the size of the delta matters, not its direction. */
  lemma NextStretchIgnoresDirection(stretch: real, dy: real)
    requires RestStretch <= stretch <= MaxStretch
    ensures NextStretch(stretch, -dy) == NextStretch(stretch, dy)
  {
  }

  /** A longer drag never yields a smaller stretch. */
  lemma NextStretchMonotoneInDelta(stretch: real, dy1: real, dy2: real)
    requires RestStretch <= stretch <= MaxStretch
    requires Abs(dy1) <= Abs(dy2)
    ensures NextStretch(stretch, dy1) <= NextStretch(stretch, dy2)
  {
    DivideLarger(Abs(dy1), Abs(dy2), Resistance(stretch));
  }

  /** From rest, a delta of 10 stretches by exactly 1%. */
  lemma SmallDragFromRest()
    ensures NextStretch(RestStretch, 10.0) == 1.01
    ensures NextStretch(RestStretch, -10.0) == 1.01
  {
    ProgressRange(RestStretch);
  }

  /** From rest, a delta of 100 would give 1.1 and is capped at exactly 1.05. */
  lemma LargeDragFromRestClamps()
    ensures RestStretch + Increment(RestStretch, 100.0) == 1.1
    ensures NextStretch(RestStretch, 100.0) == MaxStretch
  {
    ProgressRange(RestStretch);
  }
}
