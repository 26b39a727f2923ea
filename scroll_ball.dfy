/**
 * The animation's state, which the scroll handler, the resize handler and the
 * frame callback update in place, as one object.
 */
module ScrollBall {
  import opened Viewport
  import opened Waypoints
  import opened PathSampler
  import opened Motion
  import opened Lifecycle

  /** The values written to the page each frame: the icon's translation, the
      graphic's rotation in degrees, and the shadow's width and opacity. */
  datatype Render = Render(translateX: real, translateY: real, rotation: real,
                           shadowScale: real, shadowOpacity: real)

  class TennisBall {
    var waypoints: seq<Waypoint>
    var currentX: real
    var currentY: real
    var currentRotation: real
    var targetX: real
    var targetY: real
    var ballActive: bool
    var rafRunning: bool
    /** Frame callbacks requested from the host and not yet run. */
    var framesPending: nat

    /** The two flags and the callback queue as a value. */
    function Loop(): LoopState
      reads this
    {
      LoopState(rafRunning, ballActive, framesPending)
    }

    /** The path covers the whole scroll range, and a running loop always has a
        callback queued. */
    predicate Valid()
      reads this
    {
      WellFormed(waypoints) && Inv(Loop())
    }

    /** Page load: everything at rest, the path built for the current width, and
        one scroll check for a page that opens already scrolled. */
    constructor (win: Window)
      ensures Valid()
      ensures waypoints == BuildWaypoints(win.innerWidth)
      ensures currentX == 0.0 && currentY == 0.0 && currentRotation == 0.0
      ensures targetX == 0.0 && targetY == 0.0
      ensures Loop() == Scroll(Idle, ScrollPct(win))
    {
      ballActive := false;
      currentX, currentY, currentRotation := 0.0, 0.0, 0.0;
      targetX, targetY := 0.0, 0.0;
      waypoints := BuildWaypoints(win.innerWidth);
      rafRunning := false;
      framesPending := 0;
      new;
      OnScroll(win);
    }

    /** A resize replaces the whole path; nothing else changes. */
    method Resize(width: int)
      requires Valid()
      modifies this
      ensures Valid()
      ensures waypoints == BuildWaypoints(width)
      ensures Loop() == old(Loop())
      ensures currentX == old(currentX) && currentY == old(currentY)
      ensures currentRotation == old(currentRotation)
      ensures targetX == old(targetX) && targetY == old(targetY)
    {
      waypoints := BuildWaypoints(width);
    }

    /** One frame. `sine` stands for `sin(scrollFraction * π * 12)`. Returns
        what is drawn and whether another frame was requested. */
    method AnimateBall(win: Window, sine: Sine) returns (render: Render, reschedule: bool)
      requires Valid()
      requires framesPending >= 1
      modifies this
      ensures Valid()
      ensures Loop() == Tick(old(Loop()), ScrollPct(win))
      ensures reschedule == ballActive
      ensures waypoints == old(waypoints)
      ensures targetX == XForScroll(waypoints, ScrollPct(win))
      ensures targetY == TargetY(win.innerHeight, win.innerWidth, sine)
      ensures currentX == Smooth(old(currentX), targetX, LerpFactor(win.innerWidth))
      ensures currentY == Smooth(old(currentY), targetY, LerpFactor(win.innerWidth))
      ensures currentRotation == old(currentRotation) + RotationDelta(targetX, currentX)
      ensures render == Render(currentX, currentY, currentRotation,
                               ShadowScale(sine), ShadowOpacity(ShadowScale(sine)))
    {
      framesPending := framesPending - 1;
      var scrollPct := ScrollPct(win);

      if InTickBand(scrollPct) {
        if !ballActive {
          ballActive := true;
        }
      } else {
        if ballActive {
          ballActive := false;
        }
      }

      targetX := GetXForScroll(waypoints, scrollPct);

      var amplitude := Amplitude(win.innerWidth);
      var centreY := win.innerHeight as real * 0.4;
      targetY := centreY + sine * amplitude;

      var lerp := LerpFactor(win.innerWidth);
      currentX := currentX + (targetX - currentX) * lerp;
      currentY := currentY + (targetY - currentY) * lerp;

      var scrollDelta := targetX - currentX;
      currentRotation := currentRotation + scrollDelta * 0.8;

      var shadowScale := ShadowScale(sine);
      render := Render(currentX, currentY, currentRotation, shadowScale, ShadowOpacity(shadowScale));

      if ballActive {
        framesPending := framesPending + 1;
        reschedule := true;
      } else {
        rafRunning := false;
        reschedule := false;
      }
    }

    /** Request a frame unless the loop is already running. */
    method StartBallAnimation()
      requires Valid()
      modifies this
      ensures Valid()
      ensures Loop() == Start(old(Loop()))
      ensures old(rafRunning) ==> framesPending == old(framesPending)
      ensures waypoints == old(waypoints)
      ensures currentX == old(currentX) && currentY == old(currentY)
      ensures currentRotation == old(currentRotation)
      ensures targetX == old(targetX) && targetY == old(targetY)
    {
      if !rafRunning {
        rafRunning := true;
        framesPending := framesPending + 1;
      }
    }

    /** A scroll event: keep the loop going inside the scroll band, stop it
        and hide the icon outside. */
    method OnScroll(win: Window)
      requires Valid()
      modifies this
      ensures Valid()
      ensures Loop() == Scroll(old(Loop()), ScrollPct(win))
      ensures waypoints == old(waypoints)
      ensures currentX == old(currentX) && currentY == old(currentY)
      ensures currentRotation == old(currentRotation)
      ensures targetX == old(targetX) && targetY == old(targetY)
    {
      var scrollPct := ScrollPct(win);
      if InScrollBand(scrollPct) {
        StartBallAnimation();
      } else {
        rafRunning := false;
        ballActive := false;
      }
    }
  }

  /** A 1024px-wide desktop window, 2000px of document and 800px of viewport,
      scrolled 100px: the fraction 1/12 lies on the segment from 0.04 to 0.12,
      which runs from the left edge (60) to the right edge (916), and the
      fraction is inside the tick band, so a scroll there shows the icon. */
  lemma DesktopScenario()
    ensures var wps := BuildWaypoints(1024);
            var pct := ScrollPct(Window(1024, 800, 2000, 100.0));
            && pct == 1.0 / 12.0
            && FindSegment(wps, pct, 0) == Some(1)
            && 60.0 <= XForScroll(wps, pct) <= 916.0
            && InTickBand(pct)
            && Frame(Idle, FrameInput(true, pct)) == LoopState(true, true, 1)
  {
    var wps := BuildWaypoints(1024);
    var pct := 1.0 / 12.0;
    assert !InSegment(wps, 0, pct);
    FirstSegmentIs(wps, pct, 1);
    SegmentBetween(wps[1], wps[2], pct);
    ScrollInShows(Idle, pct);
  }
}
