/** The arithmetic of one spin: the random target, the clamped progress, the quintic
    ease-out and the eased interpolation `animate` writes into `rotation`. */
module SpinMath {

  /** Turns added by a spin: 720 degrees plus up to 1080 more, scaled by the random draw `u`. */
  function SpinTarget(rotation: real, u: real): (target: real)
    requires 0.0 <= u < 1.0
    ensures 720.0 <= target - rotation < 1800.0
  {
    rotation + (720.0 + 1080.0 * u)
  }

  function Min(a: real, b: real): (m: real)
    ensures m <= a && m <= b && (m == a || m == b)
  {
    if a <= b then a else b
  }

  /** How far the spin is, as a fraction clamped at 1: `min(elapsed / duration, 1)`. */
  function Progress(elapsed: real, durationMs: real): (p: real)
    requires durationMs > 0.0
    ensures p <= 1.0
    ensures elapsed >= 0.0 ==> 0.0 <= p
    ensures p == 1.0 <==> elapsed >= durationMs
  {
    Min(elapsed / durationMs, 1.0)
  }

  /** `x` raised to the `k`-th power. */
  function Pow(x: real, k: nat): real {
    if k == 0 then 1.0 else x * Pow(x, k - 1)
  }

  /** `1 - (1 - t)^5`: fast at first, settling slowly (see `EaseEnds` and `EaseMonotone`). */
  function EaseOutQuint(t: real): real {
    1.0 - Pow(1.0 - t, 5)
  }

  /** A spin's rotation at eased fraction `e`, between where it started and its target. */
  function Interpolate(from: real, target: real, e: real): real {
    from + (target - from) * e
  }

  /** The rotation `animate` writes `elapsed` milliseconds into a spin from `from` to `target`. */
  function RotationAt(from: real, target: real, elapsed: real, durationMs: real): real
    requires durationMs > 0.0
  {
    Interpolate(from, target, EaseOutQuint(Progress(elapsed, durationMs)))
  }

  lemma MulMono(a: real, b: real, c: real, d: real)
    requires 0.0 <= a <= b && 0.0 <= c <= d
    ensures 0.0 <= a * c <= b * d
  {
    assert a * c <= b * c;
    assert b * c <= b * d;
  }

  /** Scaling by a fraction in `[0, 1]` stays between 0 and the distance scaled. */
  lemma ScaleBetween(d: real, e: real)
    requires 0.0 <= d && 0.0 <= e <= 1.0
    ensures 0.0 <= d * e <= d
  {
    MulMono(d, d, e, 1.0);
  }

  /** Powers keep the order of non-negative numbers. */
  lemma {:induction false} PowMono(x: real, y: real, k: nat)
    requires 0.0 <= x <= y
    ensures 0.0 <= Pow(x, k) <= Pow(y, k)
  {
    if k > 0 {
      PowMono(x, y, k - 1);
      MulMono(x, y, Pow(x, k - 1), Pow(y, k - 1));
    }
  }

  /** The easing fixes both ends of the unit interval and maps it into itself. */
  lemma EaseEnds(t: real)
    requires 0.0 <= t <= 1.0
    ensures EaseOutQuint(0.0) == 0.0 && EaseOutQuint(1.0) == 1.0
    ensures 0.0 <= EaseOutQuint(t) <= 1.0
  {
    PowMono(1.0 - t, 1.0, 5);
    assert Pow(1.0, 5) == 1.0;
    assert Pow(0.0, 5) == 0.0;
  }

  /** The easing never goes backwards on the unit interval. */
  lemma EaseMonotone(s: real, t: real)
    requires 0.0 <= s <= t <= 1.0
    ensures EaseOutQuint(s) <= EaseOutQuint(t)
  {
    PowMono(1.0 - t, 1.0 - s, 5);
  }

  /** Progress never goes backwards as time passes. */
  lemma ProgressMonotone(e1: real, e2: real, durationMs: real)
    requires durationMs > 0.0 && e1 <= e2
    ensures Progress(e1, durationMs) <= Progress(e2, durationMs)
  {
    assert e1 / durationMs <= e2 / durationMs;
  }

  /** Interpolating by a fraction in `[0, 1]` stays between the two ends, and moves forward
      as the fraction grows. */
  lemma InterpolateBetween(from: real, target: real, e1: real, e2: real)
    requires from <= target && 0.0 <= e1 <= e2 <= 1.0
    ensures from <= Interpolate(from, target, e1) <= Interpolate(from, target, e2) <= target
  {
    var d := target - from;
    ScaleBetween(d, e2);
    MulMono(d, d, e1, e2);
    var x1, x2 := d * e1, d * e2;
    assert Interpolate(from, target, e1) == from + x1;
    assert Interpolate(from, target, e2) == from + x2;
    assert 0.0 <= x1 <= x2 <= d;
  }

  /** Every rotation written during a spin lies between where the spin started and its target. */
  lemma RotationBetween(from: real, target: real, elapsed: real, durationMs: real)
    requires durationMs > 0.0 && from <= target && elapsed >= 0.0
    ensures from <= RotationAt(from, target, elapsed, durationMs) <= target
  {
    var p := Progress(elapsed, durationMs);
    EaseEnds(p);
    InterpolateBetween(from, target, EaseOutQuint(p), EaseOutQuint(p));
  }

  /** Later frames of one spin never show the wheel turned back. */
  lemma RotationMonotone(from: real, target: real, e1: real, e2: real, durationMs: real)
    requires durationMs > 0.0 && from <= target && 0.0 <= e1 <= e2
    ensures RotationAt(from, target, e1, durationMs) <= RotationAt(from, target, e2, durationMs)
  {
    var p1, p2 := Progress(e1, durationMs), Progress(e2, durationMs);
    ProgressMonotone(e1, e2, durationMs);
    EaseMonotone(p1, p2);
    EaseEnds(p1);
    EaseEnds(p2);
    InterpolateBetween(from, target, EaseOutQuint(p1), EaseOutQuint(p2));
  }

  /** The first frame of a spin shows the wheel where the spin started. */
  lemma RotationAtStart(from: real, target: real, durationMs: real)
    requires durationMs > 0.0
    ensures RotationAt(from, target, 0.0, durationMs) == from
  {
    EaseEnds(0.0);
  }

  /** Once the whole duration has passed, the eased rotation is the target itself. */
  lemma RotationAtEnd(from: real, target: real, elapsed: real, durationMs: real)
    requires durationMs > 0.0 && elapsed >= durationMs
    ensures RotationAt(from, target, elapsed, durationMs) == target
  {
    EaseEnds(1.0);
  }
}
