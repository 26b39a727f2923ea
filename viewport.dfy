/**
 * The host window as the animation reads it: viewport size, total document
 * height and the vertical scroll offset, and the quantities derived from them
 * (device class, icon size, scroll fraction).
 */
module Viewport {

  /** One reading of the window: `innerWidth`, `innerHeight`,
      `document.body.scrollHeight` (whole CSS pixels) and `scrollY`. */
  datatype Window = Window(innerWidth: int, innerHeight: int, scrollHeight: int, scrollY: real)

  /** Widths below this many pixels are treated as a mobile device. */
  const MobileBreakpoint: int := 769

  predicate IsMobile(width: int) {
    width < MobileBreakpoint
  }

  /** The icon's size in pixels, used to keep it inside the viewport. */
  function BallSize(width: int): (r: real)
    ensures r == 34.0 || r == 48.0
    ensures r == 34.0 <==> width < MobileBreakpoint
  {
    if IsMobile(width) then 34.0 else 48.0
  }

  /** How far the page can scroll: `scrollHeight - innerHeight`, never below 0. */
  function MaxScroll(win: Window): nat {
    if win.scrollHeight - win.innerHeight > 0 then win.scrollHeight - win.innerHeight else 0
  }

  /** The divisor of the scroll fraction: the scrollable height, but at least 1
      so that a page shorter than its viewport does not divide by zero. */
  function PageHeight(win: Window): (r: real)
    ensures r >= 1.0
    ensures r >= (win.scrollHeight - win.innerHeight) as real
    ensures r == 1.0 || r == (win.scrollHeight - win.innerHeight) as real
  {
    var d := win.scrollHeight - win.innerHeight;
    if 1 < d then d as real else 1.0
  }

  /** The scroll fraction shared by the scroll handler and the frame tick. */
  function ScrollPct(win: Window): (pct: real)
    ensures 0.0 <= win.scrollY <= MaxScroll(win) as real ==> 0.0 <= pct <= 1.0
    ensures win.scrollY < 0.0 <==> pct < 0.0
    ensures MaxScroll(win) > 0 && win.scrollY == MaxScroll(win) as real ==> pct == 1.0
    ensures win.scrollY == 0.0 ==> pct == 0.0
  {
    win.scrollY / PageHeight(win)
  }
}
