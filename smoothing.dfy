/**
 The parameter smoother of Lyapunov2D: every frame each of the eight numeric
 knobs moves a tenth of the way from its current value toward its target
 (`THREE.MathUtils.lerp(current, target, 0.1)`). Arithmetic is over the reals,
 so the float rounding of `lerp` is not modelled.
 */
module Smoothing {

  /** `THREE.MathUtils.lerp(x, y, t)`, which computes `(1 - t) * x + t * y`. */
  function Lerp(x: real, y: real, t: real): (r: real)
    ensures r - x == t * (y - x)
    ensures t == 0.0 ==> r == x
    ensures t == 1.0 ==> r == y
  {
    (1.0 - t) * x + t * y
  }

  /** The `lerpFactor` of the frame callback. */
  const LerpFactor: real := 0.1

  /**
   One frame of smoothing of one knob. The new value lies between the old
   value and the target, the distance to the target shrinks by exactly 0.9,
   and a knob already at its target stays there.
   */
  function Ease(current: real, target: real): (r: real)
    ensures r - target == 0.9 * (current - target)
    ensures current <= target ==> current <= r <= target
    ensures target <= current ==> target <= r <= current
    ensures current == target ==> r == current
  {
    Lerp(current, target, LerpFactor)
  }

  /** The eight smoothed knobs (`smoothValues.current`); rotation is in radians. */
  datatype Knobs = Knobs(
    zoom: real,
    displaceX: real,
    displaceY: real,
    white: real,
    black: real,
    lypMin: real,
    lypMax: real,
    rotation: real)

  /**
   One frame of smoothing of all eight knobs toward their targets: every
   knob's gap to its own target shrinks to 0.9 of what it was, so the knobs
   land on their targets in a frame exactly when they were already there.
   */
  function Approach(k: Knobs, t: Knobs): (r: Knobs)
    ensures r.zoom - t.zoom == 0.9 * (k.zoom - t.zoom)
    ensures r.displaceX - t.displaceX == 0.9 * (k.displaceX - t.displaceX)
    ensures r.displaceY - t.displaceY == 0.9 * (k.displaceY - t.displaceY)
    ensures r.white - t.white == 0.9 * (k.white - t.white)
    ensures r.black - t.black == 0.9 * (k.black - t.black)
    ensures r.lypMin - t.lypMin == 0.9 * (k.lypMin - t.lypMin)
    ensures r.lypMax - t.lypMax == 0.9 * (k.lypMax - t.lypMax)
    ensures r.rotation - t.rotation == 0.9 * (k.rotation - t.rotation)
    ensures r == t <==> k == t
  {
    Knobs(Ease(k.zoom, t.zoom), Ease(k.displaceX, t.displaceX), Ease(k.displaceY, t.displaceY),
          Ease(k.white, t.white), Ease(k.black, t.black),
          Ease(k.lypMin, t.lypMin), Ease(k.lypMax, t.lypMax), Ease(k.rotation, t.rotation))
  }

  /** Knobs that already equal their targets are a fixed point of the smoother. */
  lemma ApproachFixedPoint(t: Knobs)
    ensures Approach(t, t) == t
  {
  }

  /** b to the power n. */
  function Power(b: real, n: nat): real
  {
    if n == 0 then 1.0 else b * Power(b, n - 1)
  }

  /** The value of one knob after n frames with a constant target. */
  function Glide(v: real, target: real, n: nat): real
  {
    if n == 0 then v else Ease(Glide(v, target, n - 1), target)
  }

  /** After n frames the signed distance to the target is 0.9^n times the initial one. */
  lemma {:induction false} GlideGeometric(v: real, target: real, n: nat)
    ensures Glide(v, target, n) - target == Power(0.9, n) * (v - target)
  {
    if n > 0 {
      GlideGeometric(v, target, n - 1);
      assert Glide(v, target, n) - target == 0.9 * (Glide(v, target, n - 1) - target);
      assert 0.9 * (Power(0.9, n - 1) * (v - target)) == (0.9 * Power(0.9, n - 1)) * (v - target);
    }
  }

  /** 0.9^n lies in (0, 1]. */
  lemma {:induction false} PowerInUnit(n: nat)
    ensures 0.0 < Power(0.9, n) <= 1.0
  {
    if n > 0 {
      PowerInUnit(n - 1);
    }
  }

  /**
   With a constant target a knob never overshoots and never arrives: it stays
   on the starting side, no farther than at the start, and equals the target
   after n frames only if it started there.
   */
  lemma {:induction false} GlideConverges(v: real, target: real, n: nat)
    ensures v <= target ==> v <= Glide(v, target, n) <= target
    ensures target <= v ==> target <= Glide(v, target, n) <= v
    ensures Glide(v, target, n) == target <==> v == target
  {
    GlideGeometric(v, target, n);
    PowerInUnit(n);
    ScaledGapBetween(v, target, Glide(v, target, n), Power(0.9, n));
  }

  /**
   A value whose gap to the target is the starting gap scaled by a factor in
   (0, 1] lies between the start and the target, and is the target only if
   the start was.
   */
  lemma ScaledGapBetween(v: real, target: real, g: real, p: real)
    requires 0.0 < p <= 1.0 && g - target == p * (v - target)
    ensures v <= target ==> v <= g <= target
    ensures target <= v ==> target <= g <= v
    ensures g == target <==> v == target
  {
    var q := p * (v - target);
    if v > target {
      var e := v - target;
      ShrinkPositive(p, e);
      assert q == p * e;
    } else if v < target {
      var e := target - v;
      ShrinkPositive(p, e);
      assert q == -(p * e);
    }
  }

  /** A factor in (0, 1] maps a positive e into (0, e]. */
  lemma ShrinkPositive(p: real, e: real)
    requires 0.0 < p <= 1.0 && 0.0 < e
    ensures 0.0 < p * e <= e
  {
    assert e - p * e == (1.0 - p) * e;
  }

  /** All eight knobs after n frames with constant targets. */
  function Settle(k: Knobs, t: Knobs, n: nat): Knobs
  {
    if n == 0 then k else Approach(Settle(k, t, n - 1), t)
  }

  /** n frames of the whole smoother act on each knob independently, as n frames of that knob alone. */
  lemma {:induction false} SettleGlides(k: Knobs, t: Knobs, n: nat)
    ensures Settle(k, t, n) == Knobs(
      Glide(k.zoom, t.zoom, n), Glide(k.displaceX, t.displaceX, n), Glide(k.displaceY, t.displaceY, n),
      Glide(k.white, t.white, n), Glide(k.black, t.black, n),
      Glide(k.lypMin, t.lypMin, n), Glide(k.lypMax, t.lypMax, n), Glide(k.rotation, t.rotation, n))
  {
    if n > 0 {
      SettleGlides(k, t, n - 1);
    }
  }
}
