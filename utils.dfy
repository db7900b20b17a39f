/**
 * public/utils.js: scalar helpers and the polyline sampler. public/Stroke.js carries
 * word-for-word copies of lerp, ease_back and sample_spline at its bottom; the model
 * defines each once here, and only Stroke.js's differing multisample_spline gets its
 * own definition (in module Strokes).
 */
module Utils {
  import opened Wrappers
  import opened VectorLib
  import opened Randomness

  /** pos_neg_rand: one draw of Math.random() stretched onto [-1, 1). */
  function PosNegRand(draw: Draw): (r: real)
    ensures -1.0 <= r < 1.0
    ensures draw < 0.5 <==> r < 0.0
  {
    draw * 2.0 - 1.0
  }

  /** Linear interpolation from a (f = 0) to b (f = 1). */
  function Lerp(a: real, b: real, f: real): (r: real)
    ensures a == b ==> r == a
  {
    a + f * (b - a)
  }

  /** `Math.max(Math.min(val, max), min)`: the lower bound wins when the bounds cross. */
  function Clamp(val: real, min: real, max: real): (r: real)
    ensures r >= min
    ensures min <= max ==> r <= max
    ensures min <= val <= max ==> r == val
    ensures val < min ==> r == min
  {
    var upper := if val < max then val else max;
    if upper > min then upper else min
  }

  /** The back-ease curve, with `Math.pow(x - 1, k)` written out as products. */
  function EaseBack(x: real, overshoot: real): (r: real)
    ensures x == 0.0 ==> r == 0.0
    ensures x == 1.0 ==> r == 1.0
  {
    var t := x - 1.0;
    1.0 + (overshoot + 1.0) * (t * t * t) + overshoot * (t * t)
  }

  /** The linear remap of a dot product onto degrees: -1 becomes -180 and 1 becomes 0. */
  function DotProductToAngle(dot: real): (r: real)
    ensures dot == -1.0 ==> r == -180.0
    ensures dot == 1.0 ==> r == 0.0
    ensures r < 25.0 <==> dot < 115.0 / 90.0
  {
    var fac := (dot + 1.0) / 2.0;
    fac * 180.0 - 180.0
  }

  /**
   * The segment sample_spline interpolates on: `Math.min(Math.floor(fac * len), len - 2)`.
   * A negative index makes the source read `undefined.x` and throw.
   */
  function SplineIndex(len: nat, fac: real): (r: int)
    ensures r <= len - 2
    ensures r < len - 2 ==> r == (fac * len as real).Floor
  {
    var splinePos := fac * len as real;
    if splinePos.Floor < len - 2 then splinePos.Floor else len - 2
  }

  /**
   * sample_spline: the point a fraction `fac` along the polyline, or None where the
   * source throws (fewer than two points, or a negative fraction). The sub-position
   * `splinePos % 1` is only reached with splinePos >= 0, where JavaScript's remainder
   * is the fractional part.
   */
  function SampleSpline(spline: seq<Vec>, fac: real): (r: Option<Vec>)
    ensures r.Some? <==> |spline| >= 2 && fac >= 0.0
  {
    var splinePos := fac * |spline| as real;
    var i := SplineIndex(|spline|, fac);
    if i < 0 then None
    else
      var subPos := splinePos - splinePos.Floor as real;
      Some(Vec(Lerp(spline[i].x, spline[i + 1].x, subPos), Lerp(spline[i].y, spline[i + 1].y, subPos)))
  }

  /** `v` lies on the closed interval between a and b, whichever is smaller. */
  predicate Between(a: real, b: real, v: real)
  {
    (a <= v <= b) || (b <= v <= a)
  }

  /**
   * multisample_spline: `samples - 1` points at the fractions i / (samples - 1). The
   * whole call fails (None) exactly when some sample fails, which is when at least one
   * sample is taken from a polyline of fewer than two points.
   */
  method MultisampleSpline(spline: seq<Vec>, samples: int) returns (r: Option<seq<Vec>>)
    ensures r.None? <==> samples >= 2 && |spline| < 2
    ensures r.Some? ==> |r.value| == if samples >= 1 then samples - 1 else 0
    ensures r.Some? ==> forall i :: 0 <= i < |r.value| ==>
              SampleSpline(spline, i as real / (samples - 1) as real) == Some(r.value[i])
  {
    var newSpline: seq<Vec> := [];
    var sampleOffset := samples - 1;
    var i := 0;
    while i < sampleOffset
      invariant 0 <= i <= if sampleOffset >= 0 then sampleOffset else 0
      invariant i > 0 ==> |spline| >= 2
      invariant |newSpline| == i
      invariant forall k :: 0 <= k < i ==> SampleSpline(spline, k as real / sampleOffset as real) == Some(newSpline[k])
    {
      var splineFac := i as real / sampleOffset as real;
      MultisampleFractions(samples, i);
      var p := SampleSpline(spline, splineFac);
      if p.None? {
        return None;
      }
      newSpline := newSpline + [p.value];
      i := i + 1;
    }
    r := Some(newSpline);
  }

  /**
   * The direction entry i of get_directions_from_spline holds: the segment from point i
   * to point i + 1 divided by its length `magnitude`.
   */
  function SegmentDirection(from: Vec, to: Vec, magnitude: real): Vec
    requires magnitude != 0.0
  {
    VectorMath.Divided(VectorMath.Subtract(to, from), magnitude)
  }

  /** `magnitudes[i]` is the (non-zero) length of segment i of the polyline. */
  predicate SegmentLengths(spline: seq<Vec>, magnitudes: seq<real>)
  {
    |magnitudes| == |spline| - 1 &&
    forall i :: 0 <= i < |magnitudes| ==>
      IsMagnitude(VectorMath.Subtract(spline[i + 1], spline[i]), magnitudes[i]) && magnitudes[i] != 0.0
  }

  /**
   * get_directions_from_spline: one fresh unit vector per segment, then the last entry
   * pushed a second time, so the final two entries are the same object. For fewer than
   * two points the loop does not run and `directionList[-1]` is undefined, which is null
   * here.
   */
  method GetDirectionsFromSpline(spline: seq<Vec>, magnitudes: seq<real>) returns (r: seq<Vector2?>)
    requires |spline| >= 2 ==> SegmentLengths(spline, magnitudes)
    ensures |spline| < 2 ==> r == [null]
    ensures |spline| >= 2 ==> |r| == |spline|
    ensures |spline| >= 2 ==> r[|spline| - 1] == r[|spline| - 2]
    ensures |spline| >= 2 ==> forall i :: 0 <= i < |spline| - 1 ==>
              r[i] != null && fresh(r[i]) &&
              r[i].Value() == SegmentDirection(spline[i], spline[i + 1], magnitudes[i]) &&
              VectorMath.GetDotProduct(r[i].Value(), r[i].Value()) == 1.0
    ensures forall i, j :: 0 <= i < j < |r| - 1 ==> r[i] != r[j]
  {
    var directionList: seq<Vector2?> := [];
    var i := 0;
    while i < |spline| - 1
      invariant 0 <= i <= if |spline| >= 1 then |spline| - 1 else 0
      invariant |directionList| == i
      invariant forall k :: 0 <= k < i ==>
                  directionList[k] != null && fresh(directionList[k]) &&
                  directionList[k].Value() == SegmentDirection(spline[k], spline[k + 1], magnitudes[k]) &&
                  VectorMath.GetDotProduct(directionList[k].Value(), directionList[k].Value()) == 1.0
      invariant forall a, b :: 0 <= a < b < i ==> directionList[a] != directionList[b]
    {
      var sub := new Vector2(spline[i + 1].x - spline[i].x, spline[i + 1].y - spline[i].y);
      var norm := sub.GetNormalized(magnitudes[i]);
      directionList := directionList + [norm];
      i := i + 1;
    }
    if |directionList| == 0 {
      r := [null];
    } else {
      r := directionList + [directionList[|directionList| - 1]];
    }
  }

  // Properties of the helpers

  lemma LerpEnds(a: real, b: real)
    ensures Lerp(a, b, 0.0) == a
    ensures Lerp(a, b, 1.0) == b
  {
  }

  lemma StepNonNegative(a: real, b: real, f: real)
    requires 0.0 <= f && a <= b
    ensures 0.0 <= f * (b - a)
  {
  }

  lemma StepNonPositive(a: real, b: real, f: real)
    requires 0.0 <= f && b <= a
    ensures f * (b - a) <= 0.0
  {
  }

  lemma RestNonNegative(a: real, b: real, f: real)
    requires f <= 1.0 && a <= b
    ensures (1.0 - f) * (b - a) >= 0.0
  {
  }

  lemma RestNonPositive(a: real, b: real, f: real)
    requires f <= 1.0 && b <= a
    ensures (1.0 - f) * (b - a) <= 0.0
  {
  }

  /** For a fraction in [0, 1] the interpolated value lies between the two ends. */
  lemma LerpBetween(a: real, b: real, f: real)
    requires 0.0 <= f <= 1.0
    ensures Between(a, b, Lerp(a, b, f))
  {
    assert (1.0 - f) * (b - a) == (b - a) - f * (b - a);
    if a <= b {
      StepNonNegative(a, b, f);
      RestNonNegative(a, b, f);
    } else {
      StepNonPositive(a, b, f);
      RestNonPositive(a, b, f);
    }
  }

  /** With bounds in order, clamping twice is clamping once. */
  lemma ClampIdempotent(val: real, min: real, max: real)
    requires min <= max
    ensures Clamp(Clamp(val, min, max), min, max) == Clamp(val, min, max)
  {
  }

  /** The remap is strictly increasing. */
  lemma DotProductToAngleIncreasing(d1: real, d2: real)
    requires d1 < d2
    ensures DotProductToAngle(d1) < DotProductToAngle(d2)
  {
  }

  lemma ProductNonNegative(f: real, n: real)
    requires 0.0 <= f && 0.0 <= n
    ensures 0.0 <= f * n
  {
  }

  /** With at least two points and a non-negative fraction the segment index is in range. */
  lemma SplineIndexInRange(len: nat, fac: real)
    requires len >= 2 && fac >= 0.0
    ensures 0 <= SplineIndex(len, fac) <= len - 2
  {
    var n := len as real;
    ProductNonNegative(fac, n);
  }

  /** A one-point polyline clamps the index to -1, so sample_spline throws. */
  lemma SplineIndexOfOnePoint(fac: real)
    ensures SplineIndex(1, fac) < 0
  {
  }

  /** Fraction 0 gives the first point. */
  lemma SampleAtZero(spline: seq<Vec>)
    requires |spline| >= 2
    ensures SampleSpline(spline, 0.0) == Some(spline[0])
  {
    LerpEnds(spline[0].x, spline[1].x);
    LerpEnds(spline[0].y, spline[1].y);
  }

  /** Fraction 1 is clamped onto the last segment at sub-position 0: the second-to-last point. */
  lemma SampleAtOne(spline: seq<Vec>)
    requires |spline| >= 2
    ensures SampleSpline(spline, 1.0) == Some(spline[|spline| - 2])
  {
    var n := |spline|;
    assert (1.0 * n as real).Floor == n;
    LerpEnds(spline[n - 2].x, spline[n - 1].x);
    LerpEnds(spline[n - 2].y, spline[n - 1].y);
  }

  /** The point a fraction t of the way along segment i, from spline[i] to spline[i + 1]. */
  function SegmentPoint(spline: seq<Vec>, i: int, t: real): Vec
    requires 0 <= i < |spline| - 1
  {
    Vec(Lerp(spline[i].x, spline[i + 1].x, t), Lerp(spline[i].y, spline[i + 1].y, t))
  }

  /**
   * Every sample is a convex combination of two consecutive points: one shared
   * sub-position t in [0, 1) along some segment. Hence it also lies in the box that
   * segment spans.
   */
  lemma SampleBetweenNeighbours(spline: seq<Vec>, fac: real)
    requires |spline| >= 2 && fac >= 0.0
    ensures exists i, t :: 0 <= i < |spline| - 1 && 0.0 <= t < 1.0 &&
              SampleSpline(spline, fac) == Some(SegmentPoint(spline, i, t))
    ensures exists i :: 0 <= i < |spline| - 1 &&
              Between(spline[i].x, spline[i + 1].x, SampleSpline(spline, fac).value.x) &&
              Between(spline[i].y, spline[i + 1].y, SampleSpline(spline, fac).value.y)
  {
    var i := SplineIndex(|spline|, fac);
    SplineIndexInRange(|spline|, fac);
    var splinePos := fac * |spline| as real;
    var subPos := splinePos - splinePos.Floor as real;
    assert 0.0 <= subPos < 1.0;
    assert SampleSpline(spline, fac) == Some(SegmentPoint(spline, i, subPos));
    LerpBetween(spline[i].x, spline[i + 1].x, subPos);
    LerpBetween(spline[i].y, spline[i + 1].y, subPos);
  }

  /** All fractions multisample_spline uses are in [0, 1), so its first point is spline[0]. */
  lemma MultisampleFractions(samples: int, i: int)
    requires samples >= 2 && 0 <= i < samples - 1
    ensures 0.0 <= i as real / (samples - 1) as real < 1.0
  {
  }

  /** Every direction entry has length 1. */
  lemma SegmentDirectionIsUnit(from: Vec, to: Vec, magnitude: real)
    requires IsMagnitude(VectorMath.Subtract(to, from), magnitude) && magnitude != 0.0
    ensures VectorMath.GetDotProduct(SegmentDirection(from, to, magnitude), SegmentDirection(from, to, magnitude)) == 1.0
  {
    NormalizedIsUnit(VectorMath.Subtract(to, from), magnitude);
  }
}
