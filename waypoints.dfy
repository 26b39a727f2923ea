/**
 * The control points of the icon's horizontal path, rebuilt from the viewport
 * width on every resize.
 */
module Waypoints {
  import opened Viewport

  /** A control point: at scroll fraction `scroll` the icon's target is `x` pixels. */
  datatype Waypoint = Waypoint(scroll: real, x: real)

  /** Inset from the viewport edges: 10px on mobile, 60px on desktop. */
  function Margin(width: int): real {
    if IsMobile(width) then 10.0 else 60.0
  }

  function LeftEdge(width: int): real {
    Margin(width)
  }

  /** The rightmost position that keeps the whole icon inside the margin. */
  function RightEdge(width: int): real {
    width as real - BallSize(width) - Margin(width)
  }

  /** Just left of the viewport, where the path starts. */
  function OffscreenStart(width: int): real {
    -BallSize(width) - 20.0
  }

  /** Just right of the viewport, where the path ends. */
  function OffscreenEnd(width: int): real {
    width as real + 20.0
  }

  /** Consecutive scroll fractions strictly increase. */
  predicate Increasing(wps: seq<Waypoint>) {
    forall i :: 0 <= i < |wps| - 1 ==> wps[i].scroll < wps[i + 1].scroll
  }

  /** A path over the whole scroll range: it starts at fraction 0, ends at 1
      and its fractions strictly increase. */
  predicate WellFormed(wps: seq<Waypoint>) {
    && |wps| >= 2
    && wps[0].scroll == 0.0
    && wps[|wps| - 1].scroll == 1.0
    && Increasing(wps)
  }

  /** The fixed 12-point path: off-screen left, ten alternating stops at the
      left and right edges (left first), off-screen right. */
  function BuildWaypoints(width: int): (r: seq<Waypoint>)
    ensures |r| == 12 && WellFormed(r)
    ensures r[0].x == OffscreenStart(width) && r[11].x == OffscreenEnd(width)
    ensures forall i :: 1 <= i <= 10 ==>
              r[i].x == if i % 2 == 1 then LeftEdge(width) else RightEdge(width)
  {
    var leftEdge := LeftEdge(width);
    var rightEdge := RightEdge(width);
    [ Waypoint(0.0, OffscreenStart(width)),
      Waypoint(0.04, leftEdge),
      Waypoint(0.12, rightEdge),
      Waypoint(0.22, leftEdge),
      Waypoint(0.32, rightEdge),
      Waypoint(0.42, leftEdge),
      Waypoint(0.52, rightEdge),
      Waypoint(0.62, leftEdge),
      Waypoint(0.72, rightEdge),
      Waypoint(0.82, leftEdge),
      Waypoint(0.92, rightEdge),
      Waypoint(1.0, OffscreenEnd(width)) ]
  }

  /** Strictly increasing neighbours make the whole sequence strictly sorted. */
  lemma {:induction false} IncreasingPairwise(wps: seq<Waypoint>, i: int, j: int)
    requires Increasing(wps)
    requires 0 <= i < j < |wps|
    ensures wps[i].scroll < wps[j].scroll
    decreases j - i
  {
    if i + 1 < j {
      IncreasingPairwise(wps, i + 1, j);
    }
  }

  /** Every fraction of a well-formed path lies in [0, 1], interior ones strictly inside. */
  lemma ScrollWithinUnit(wps: seq<Waypoint>, i: int)
    requires WellFormed(wps)
    requires 0 <= i < |wps|
    ensures 0.0 <= wps[i].scroll <= 1.0
    ensures 0 < i < |wps| - 1 ==> 0.0 < wps[i].scroll < 1.0
  {
    if 0 < i {
      IncreasingPairwise(wps, 0, i);
    }
    if i < |wps| - 1 {
      IncreasingPairwise(wps, i, |wps| - 1);
    }
  }
}
