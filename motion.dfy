/**
 * The per-frame motion: exponential smoothing of the icon's position towards
 * its target, rotation from the remaining horizontal gap, the vertical bob and
 * the shadow, all from one sine value of the scroll fraction.
 */
module Motion {
  import opened Viewport
  import opened RealArith

  /** A value of `sin(scrollFraction * π * 12)`; the sine itself is not modelled. */
  type Sine = s: real | -1.0 <= s <= 1.0

  /** Smoothing rate per frame: faster on mobile. */
  function LerpFactor(width: int): (k: real)
    ensures 0.0 < k < 1.0
  {
    if IsMobile(width) then 0.1 else 0.08
  }

  /** Height of the vertical bob in pixels. */
  function Amplitude(width: int): real {
    if IsMobile(width) then 50.0 else 80.0
  }

  function Abs(x: real): real {
    if x < 0.0 then -x else x
  }

  /** The vertical target: 40% down the viewport, offset by the bob. */
  function TargetY(innerHeight: int, width: int, s: Sine): (y: real)
    ensures var centre := innerHeight as real * 0.4;
            centre - Amplitude(width) <= y <= centre + Amplitude(width)
    ensures s == 0.0 ==> y == innerHeight as real * 0.4
  {
    var amp := Amplitude(width);
    MulUnit(amp, Abs(s));
    assert s * amp == Abs(s) * amp || s * amp == -(Abs(s) * amp);
    innerHeight as real * 0.4 + s * amp
  }

  /** One smoothing step of `current` towards `target` at rate `k`: the gap
      shrinks by the factor `1 - k` and the value never passes the target. */
  function Smooth(current: real, target: real, k: real): (r: real)
    requires 0.0 < k < 1.0
    ensures target - r == (1.0 - k) * (target - current)
    ensures current <= target ==> current <= r <= target
    ensures target <= current ==> target <= r <= current
    ensures r == target <==> current == target
  {
    var r := current + (target - current) * k;
    SmoothGap(current, target, k, r);
    r
  }

  lemma SmoothGap(current: real, target: real, k: real, r: real)
    requires 0.0 < k < 1.0
    requires r == current + (target - current) * k
    ensures target - r == (1.0 - k) * (target - current)
    ensures current <= target ==> current <= r <= target
    ensures target <= current ==> target <= r <= current
    ensures r == target <==> current == target
  {
    var g := target - current;
    var gk := g * k;
    assert r == current + gk;
    assert target - r == (1.0 - k) * g;
    if current <= target {
      MulUnit(g, k);
      assert 0.0 <= gk <= g;
    } else {
      MulUnitNeg(g, k);
    }
    if g == 0.0 {
      assert g * k == 0.0;
    } else if g > 0.0 {
      MulNonneg(1.0 - k, g);
      assert (1.0 - k) * g != 0.0;
      assert r != target;
    } else {
      MulNonneg(1.0 - k, -g);
      assert (1.0 - k) * g != 0.0;
      assert r != target;
    }
  }

  /** The rotation added in one frame: proportional to the gap that remains
      after the smoothing step. */
  function RotationDelta(targetX: real, currentX: real): real {
    (targetX - currentX) * 0.8
  }

  /** Width of the shadow: 0.6 when the icon is at the middle of its bob, up to 1.0 at either peak. */
  function ShadowScale(s: Sine): (r: real)
    ensures 0.6 <= r <= 1.0
    ensures r == 0.6 <==> s == 0.0
    ensures r == 1.0 <==> Abs(s) == 1.0
  {
    0.6 + Abs(s) * 0.4
  }

  /** The shadow's opacity grows with its width. */
  function ShadowOpacity(scale: real): (o: real)
    ensures 0.6 <= scale <= 1.0 ==> 0.48 <= o <= 0.6
  {
    0.3 + scale * 0.3
  }

  /** The shadow depends on the sine's magnitude only, and a wider shadow is also a darker one, within [0.48, 0.6]. */
  lemma ShadowBounds(s1: Sine, s2: Sine)
    requires Abs(s1) <= Abs(s2)
    ensures ShadowScale(s1) == ShadowScale(-s1)
    ensures ShadowScale(s1) <= ShadowScale(s2)
    ensures ShadowOpacity(ShadowScale(s1)) <= ShadowOpacity(ShadowScale(s2))
    ensures 0.48 <= ShadowOpacity(ShadowScale(s1)) <= 0.6
  {
  }

  /** The rotation step uses the gap after smoothing: `0.8 (1 - k)` times the
      gap before it, so the icon turns in the direction it moves and turns
      less as it settles. */
  lemma RotationFollowsMotion(current: real, target: real, k: real)
    requires 0.0 < k < 1.0
    ensures RotationDelta(target, Smooth(current, target, k)) == 0.8 * (1.0 - k) * (target - current)
    ensures current < target ==> RotationDelta(target, Smooth(current, target, k)) > 0.0
    ensures target < current ==> RotationDelta(target, Smooth(current, target, k)) < 0.0
  {
    var gap := target - current;
    assert target - Smooth(current, target, k) == (1.0 - k) * gap;
    if current < target {
      MulNonneg(1.0 - k, gap);
      assert (1.0 - k) * gap != 0.0;
    } else if target < current {
      MulNonneg(1.0 - k, -gap);
      assert (1.0 - k) * gap != 0.0;
    }
  }

  function Pow(x: real, n: nat): real {
    if n == 0 then 1.0 else x * Pow(x, n - 1)
  }

  /** The position after `n` frames with a fixed target. */
  function SmoothSteps(current: real, target: real, k: real, n: nat): real
    requires 0.0 < k < 1.0
    decreases n
  {
    if n == 0 then current else SmoothSteps(Smooth(current, target, k), target, k, n - 1)
  }

  lemma {:induction false} PowUnit(x: real, n: nat)
    requires 0.0 < x < 1.0
    ensures 0.0 < Pow(x, n) <= 1.0
    ensures n > 0 ==> Pow(x, n) < 1.0
  {
    if n > 0 {
      PowUnit(x, n - 1);
      MulUnit(x, Pow(x, n - 1));
      MulNonneg(x, Pow(x, n - 1));
      assert x * Pow(x, n - 1) != 0.0;
    }
  }

  /** With a fixed target, `n` frames leave the gap `(1 - k)^n` times the
      original: pure exponential decay, the position staying between where it
      started and the target. */
  lemma {:induction false} SmoothStepsDecay(current: real, target: real, k: real, n: nat)
    requires 0.0 < k < 1.0
    ensures target - SmoothSteps(current, target, k, n) == Pow(1.0 - k, n) * (target - current)
    ensures current <= target ==> current <= SmoothSteps(current, target, k, n) <= target
    ensures target <= current ==> target <= SmoothSteps(current, target, k, n) <= current
    decreases n
  {
    if n > 0 {
      var next := Smooth(current, target, k);
      SmoothStepsDecay(next, target, k, n - 1);
      calc {
        target - SmoothSteps(current, target, k, n);
        Pow(1.0 - k, n - 1) * (target - next);
        Pow(1.0 - k, n - 1) * ((1.0 - k) * (target - current));
        Pow(1.0 - k, n) * (target - current);
      }
    }
  }

  /** Every frame with a fixed target strictly narrows a non-zero gap: after
      one or more frames the icon is closer to the target than it started. */
  lemma SmoothStepsCloser(current: real, target: real, k: real, n: nat)
    requires 0.0 < k < 1.0
    requires n >= 1 && current != target
    ensures Abs(target - SmoothSteps(current, target, k, n)) < Abs(target - current)
  {
    SmoothStepsDecay(current, target, k, n);
    PowUnit(1.0 - k, n);
    ScaledGapSmaller(Pow(1.0 - k, n), target - current);
  }

  /** Scaling a non-zero gap by a factor in (0, 1) shrinks its magnitude. */
  lemma ScaledGapSmaller(p: real, g: real)
    requires 0.0 < p < 1.0 && g != 0.0
    ensures Abs(p * g) < Abs(g)
  {
    if g > 0.0 {
      MulShrink(g, p);
      assert p * g == g * p;
    } else {
      MulShrink(-g, p);
      assert p * g == -((-g) * p);
    }
  }
}
