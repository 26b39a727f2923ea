/**
 * The horizontal target for a scroll fraction: find the segment of the path
 * that contains the fraction, ease the position within it, and interpolate
 * between the segment's two x values.
 */
module PathSampler {
  import opened Waypoints
  import opened RealArith

  datatype Option<T> = None | Some(value: T)

  function Cube(x: real): real {
    x * x * x
  }

  /** Piecewise-cubic ease-in/out: `4t³` below one half, `1 - (2 - 2t)³ / 2` from one half on. */
  function Ease(t: real): real {
    if t < 0.5 then 4.0 * Cube(t) else 1.0 - Cube(-2.0 * t + 2.0) / 2.0
  }

  /** Linear interpolation from `a` (at 0) to `b` (at 1). */
  function Lerp(a: real, b: real, e: real): real {
    a + (b - a) * e
  }

  /** Segment `i` runs from waypoint `i` to waypoint `i + 1`, both ends included. */
  predicate InSegment(wps: seq<Waypoint>, i: int, pct: real) {
    0 <= i < |wps| - 1 && wps[i].scroll <= pct <= wps[i + 1].scroll
  }

  /** The eased position on the segment from `a` to `b`. */
  function SegmentX(a: Waypoint, b: Waypoint, pct: real): real
    requires a.scroll < b.scroll
  {
    Lerp(a.x, b.x, Ease((pct - a.scroll) / (b.scroll - a.scroll)))
  }

  /** The first segment at or after `from` that contains `pct`, if any. */
  function FindSegment(wps: seq<Waypoint>, pct: real, from: nat): (r: Option<nat>)
    requires from <= |wps|
    ensures r.Some? ==> from <= r.value && InSegment(wps, r.value, pct)
    ensures forall j :: from <= j && (r.None? || j < r.value) ==> !InSegment(wps, j, pct)
    decreases |wps| - from
  {
    if from + 1 >= |wps| then None
    else if InSegment(wps, from, pct) then Some(from)
    else FindSegment(wps, pct, from + 1)
  }

  /** The horizontal target: eased along the first segment containing `pct`,
      or the last waypoint's x when no segment does. */
  function XForScroll(wps: seq<Waypoint>, pct: real): real
    requires |wps| >= 1 && Increasing(wps)
  {
    match FindSegment(wps, pct, 0)
    case Some(i) => SegmentX(wps[i], wps[i + 1], pct)
    case None => wps[|wps| - 1].x
  }

  /** The linear search of the source, with its early return. */
  method GetXForScroll(wps: seq<Waypoint>, pct: real) returns (x: real)
    requires |wps| >= 1 && Increasing(wps)
    ensures x == XForScroll(wps, pct)
  {
    var i := 0;
    while i < |wps| - 1
      invariant 0 <= i <= |wps| - 1
      invariant forall j :: 0 <= j < i ==> !InSegment(wps, j, pct)
    {
      var a := wps[i];
      var b := wps[i + 1];
      if pct >= a.scroll && pct <= b.scroll {
        var t := (pct - a.scroll) / (b.scroll - a.scroll);
        var eased := Ease(t);
        FirstSegmentIs(wps, pct, i);
        return Lerp(a.x, b.x, eased);
      }
      i := i + 1;
    }
    return wps[|wps| - 1].x;
  }

  // ----- the easing curve -----

  /** The curve starts at 0, ends at 1, and both branches give one half at t = 1/2. */
  lemma EaseEndpoints()
    ensures Ease(0.0) == 0.0 && Ease(1.0) == 1.0
    ensures Ease(0.5) == 0.5 && 4.0 * Cube(0.5) == 0.5
  {
    assert Cube(0.0) == 0.0;
    assert Cube(0.5) == 0.125;
    assert Cube(1.0) == 1.0;
    assert Cube(2.0) == 8.0;
  }

  lemma CubeMonotone(x: real, y: real)
    requires 0.0 <= x <= y
    ensures 0.0 <= Cube(x) <= Cube(y)
  {
    assert x * x <= y * y by {
      assert x * x <= x * y;
      assert x * y <= y * y;
    }
    assert x * x * x <= y * y * x;
    assert y * y * x <= y * y * y;
  }

  /** On [0, 1] the curve stays within [0, 1]. */
  lemma EaseRange(t: real)
    requires 0.0 <= t <= 1.0
    ensures 0.0 <= Ease(t) <= 1.0
  {
    if t < 0.5 {
      CubeMonotone(t, 0.5);
    } else {
      CubeMonotone(-2.0 * t + 2.0, 1.0);
    }
  }

  /** The curve never decreases on [0, 1]. */
  lemma EaseMonotone(t1: real, t2: real)
    requires 0.0 <= t1 <= t2 <= 1.0
    ensures Ease(t1) <= Ease(t2)
  {
    if t2 < 0.5 {
      CubeMonotone(t1, t2);
    } else if 0.5 <= t1 {
      CubeMonotone(-2.0 * t2 + 2.0, -2.0 * t1 + 2.0);
    } else {
      CubeMonotone(t1, 0.5);
      CubeMonotone(-2.0 * t2 + 2.0, 1.0);
    }
  }

  /** Ease-out mirrors ease-in: the curve is point-symmetric about (1/2, 1/2). */
  lemma EaseSymmetric(t: real)
    ensures Ease(1.0 - t) == 1.0 - Ease(t)
  {
    if t < 0.5 {
      assert -2.0 * (1.0 - t) + 2.0 == 2.0 * t;
      assert Cube(2.0 * t) == 8.0 * Cube(t);
    } else if t > 0.5 {
      assert -2.0 * t + 2.0 == 2.0 * (1.0 - t);
      assert Cube(2.0 * (1.0 - t)) == 8.0 * Cube(1.0 - t);
    }
  }

  // ----- one segment -----

  lemma LerpBetween(a: real, b: real, e: real)
    requires 0.0 <= e <= 1.0
    ensures a <= b ==> a <= Lerp(a, b, e) <= b
    ensures b <= a ==> b <= Lerp(a, b, e) <= a
  {
    var d := b - a;
    var de := d * e;
    assert Lerp(a, b, e) == a + de;
    if 0.0 <= d {
      MulUnit(d, e);
    } else {
      MulUnit(-d, e);
      assert (-d) * e == -de;
    }
  }

  lemma LocalParameterInUnit(a: Waypoint, b: Waypoint, pct: real)
    requires a.scroll < b.scroll
    requires a.scroll <= pct <= b.scroll
    ensures 0.0 <= (pct - a.scroll) / (b.scroll - a.scroll) <= 1.0
  {
    DivUnit(pct - a.scroll, b.scroll - a.scroll);
  }

  /** A segment starts at its first waypoint's x and ends at its second's, so
      neighbouring segments agree where they meet. */
  lemma SegmentEndpoints(a: Waypoint, b: Waypoint)
    requires a.scroll < b.scroll
    ensures SegmentX(a, b, a.scroll) == a.x
    ensures SegmentX(a, b, b.scroll) == b.x
  {
    assert (a.scroll - a.scroll) / (b.scroll - a.scroll) == 0.0;
    assert (b.scroll - a.scroll) / (b.scroll - a.scroll) == 1.0;
    EaseEndpoints();
  }

  /** Inside a segment the eased position lies between the segment's two x values. */
  lemma SegmentBetween(a: Waypoint, b: Waypoint, pct: real)
    requires a.scroll < b.scroll
    requires a.scroll <= pct <= b.scroll
    ensures a.x <= b.x ==> a.x <= SegmentX(a, b, pct) <= b.x
    ensures b.x <= a.x ==> b.x <= SegmentX(a, b, pct) <= a.x
  {
    var t := (pct - a.scroll) / (b.scroll - a.scroll);
    LocalParameterInUnit(a, b, pct);
    EaseRange(t);
    LerpBetween(a.x, b.x, Ease(t));
  }

  lemma LerpMonotone(a: real, b: real, e1: real, e2: real)
    requires e1 <= e2
    ensures a <= b ==> Lerp(a, b, e1) <= Lerp(a, b, e2)
    ensures b <= a ==> Lerp(a, b, e2) <= Lerp(a, b, e1)
  {
    if a <= b {
      MulLe(b - a, e1, e2);
    } else {
      MulLe(a - b, e1, e2);
      assert (b - a) * e1 == -((a - b) * e1);
      assert (b - a) * e2 == -((a - b) * e2);
    }
  }

  /** Inside a segment the icon moves one way only: towards the segment's end. */
  lemma SegmentMonotone(a: Waypoint, b: Waypoint, p1: real, p2: real)
    requires a.scroll < b.scroll
    requires a.scroll <= p1 <= p2 <= b.scroll
    ensures a.x <= b.x ==> SegmentX(a, b, p1) <= SegmentX(a, b, p2)
    ensures b.x <= a.x ==> SegmentX(a, b, p2) <= SegmentX(a, b, p1)
  {
    var d := b.scroll - a.scroll;
    var t1 := (p1 - a.scroll) / d;
    var t2 := (p2 - a.scroll) / d;
    LocalParameterInUnit(a, b, p1);
    LocalParameterInUnit(a, b, p2);
    DivLe(p1 - a.scroll, p2 - a.scroll, d);
    EaseMonotone(t1, t2);
    LerpMonotone(a.x, b.x, Ease(t1), Ease(t2));
  }

  // ----- the whole path -----

  lemma FirstSegmentIs(wps: seq<Waypoint>, pct: real, i: nat)
    requires InSegment(wps, i, pct)
    requires forall j :: 0 <= j < i ==> !InSegment(wps, j, pct)
    ensures FindSegment(wps, pct, 0) == Some(i)
  {
  }

  /** At every waypoint's own fraction the sampled x is that waypoint's x. */
  lemma XAtWaypoint(wps: seq<Waypoint>, i: nat)
    requires WellFormed(wps)
    requires i < |wps|
    ensures XForScroll(wps, wps[i].scroll) == wps[i].x
  {
    var p := wps[i].scroll;
    if i == 0 {
      FirstSegmentIs(wps, p, 0);
      SegmentEndpoints(wps[0], wps[1]);
    } else {
      forall j | 0 <= j < i - 1
        ensures !InSegment(wps, j, p)
      {
        IncreasingPairwise(wps, j + 1, i);
      }
      FirstSegmentIs(wps, p, i - 1);
      SegmentEndpoints(wps[i - 1], wps[i]);
    }
  }

  /** A fraction below 0 or above 1 falls in no segment: the sampler clamps to the end. */
  lemma XOutsideUnit(wps: seq<Waypoint>, pct: real)
    requires WellFormed(wps)
    requires pct < 0.0 || pct > 1.0
    ensures FindSegment(wps, pct, 0) == None
    ensures XForScroll(wps, pct) == wps[|wps| - 1].x
  {
    forall j | 0 <= j < |wps| - 1
      ensures !InSegment(wps, j, pct)
    {
      ScrollWithinUnit(wps, j);
      ScrollWithinUnit(wps, j + 1);
    }
  }

  lemma {:induction false} CoveredFrom(wps: seq<Waypoint>, pct: real, from: nat)
    requires Increasing(wps)
    requires from < |wps| - 1
    requires wps[from].scroll <= pct <= wps[|wps| - 1].scroll
    ensures FindSegment(wps, pct, from).Some?
    decreases |wps| - from
  {
    if !InSegment(wps, from, pct) {
      assert pct > wps[from + 1].scroll;
      CoveredFrom(wps, pct, from + 1);
    }
  }

  /** Every fraction in [0, 1] falls in some segment, and the sampled x lies
      between that segment's two x values. */
  lemma XWithinSegment(wps: seq<Waypoint>, pct: real)
    requires WellFormed(wps)
    requires 0.0 <= pct <= 1.0
    ensures FindSegment(wps, pct, 0).Some?
    ensures var i := FindSegment(wps, pct, 0).value;
            var x := XForScroll(wps, pct);
            (wps[i].x <= wps[i + 1].x ==> wps[i].x <= x <= wps[i + 1].x) &&
            (wps[i + 1].x <= wps[i].x ==> wps[i + 1].x <= x <= wps[i].x)
  {
    CoveredFrom(wps, pct, 0);
    var i := FindSegment(wps, pct, 0).value;
    SegmentBetween(wps[i], wps[i + 1], pct);
  }

  // ----- the path built for a viewport -----

  /** At the top of the page the icon's target is off-screen left. */
  lemma StartsOffscreen(width: int)
    ensures XForScroll(BuildWaypoints(width), 0.0) == OffscreenStart(width)
  {
    XAtWaypoint(BuildWaypoints(width), 0);
  }

  /** At the bottom of the page the icon's target is off-screen right. */
  lemma EndsOffscreen(width: int)
    ensures XForScroll(BuildWaypoints(width), 1.0) == OffscreenEnd(width)
  {
    XAtWaypoint(BuildWaypoints(width), 11);
  }
}
