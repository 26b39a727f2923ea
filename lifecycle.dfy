/**
 * The two flags that decide whether the icon is shown and whether the frame
 * loop runs, with the host's queue of requested frame callbacks made explicit.
 */
module Lifecycle {

  /** `running` is `rafRunning`, `active` is `ballActive`, and `pending` counts
      the frame callbacks requested from the host and not yet run. */
  datatype LoopState = LoopState(running: bool, active: bool, pending: nat)

  /** Nothing shown, nothing running, nothing queued: the state on page load. */
  const Idle: LoopState := LoopState(false, false, 0)

  /** The band in which a scroll event keeps the loop alive. */
  predicate InScrollBand(pct: real) {
    0.02 < pct < 0.96
  }

  /** The narrower band in which a frame shows the icon. */
  predicate InTickBand(pct: real) {
    0.03 < pct < 0.95
  }

  /** The loop keeps itself running only where a scroll event would too. */
  lemma TickBandInsideScrollBand(pct: real)
    ensures InTickBand(pct) ==> InScrollBand(pct)
  {
  }

  /** No lost wake-up: while the loop counts as running, a callback is queued. */
  predicate Inv(st: LoopState) {
    st.running ==> st.pending >= 1
  }

  /** Start the loop: request a frame only if none is running already. */
  function Start(st: LoopState): (r: LoopState)
    ensures r.running && r.active == st.active
    ensures r.pending == if st.running then st.pending else st.pending + 1
    ensures Inv(st) ==> Inv(r)
  {
    if !st.running then st.(running := true, pending := st.pending + 1) else st
  }

  /** A scroll event: inside the scroll band keep the loop going, outside it
      stop the loop and hide the icon. A callback already queued stays queued. */
  function Scroll(st: LoopState, pct: real): (r: LoopState)
    ensures InScrollBand(pct) ==> r == Start(st)
    ensures !InScrollBand(pct) ==> !r.running && !r.active && r.pending == st.pending
    ensures r.pending <= st.pending + 1
    ensures st.running ==> r.pending == st.pending
    ensures Inv(st) ==> Inv(r)
  {
    if InScrollBand(pct) then Start(st) else st.(running := false, active := false)
  }

  /** One frame callback: it is consumed, the icon is shown exactly when the
      fraction is in the tick band, and a new callback is requested exactly
      when the icon is shown; otherwise the loop is marked stopped. */
  function Tick(st: LoopState, pct: real): (r: LoopState)
    requires st.pending >= 1
    ensures r.active <==> InTickBand(pct)
    ensures r.pending == st.pending - 1 + (if r.active then 1 else 0)
    ensures r.active ==> r.running == st.running
    ensures !r.active ==> !r.running
    ensures Inv(st) ==> Inv(r)
  {
    if InTickBand(pct) then st.(active := true)
    else st.(active := false, running := false, pending := st.pending - 1)
  }

  /** Run `n` of the queued callbacks, all seeing the same scroll fraction. */
  function RunTicks(st: LoopState, pct: real, n: nat): LoopState
    requires n <= st.pending
    decreases n
  {
    if n == 0 then st else RunTicks(Tick(st, pct), pct, n - 1)
  }

  /** What the host delivers in one rendering frame: at most one scroll event
      (scroll events are coalesced per frame), then the callbacks queued so far,
      all seeing the same scroll fraction. */
  datatype FrameInput = FrameInput(scrolled: bool, pct: real)

  function Frame(st: LoopState, f: FrameInput): LoopState {
    var s := if f.scrolled then Scroll(st, f.pct) else st;
    RunTicks(s, f.pct, s.pending)
  }

  function Frames(st: LoopState, fs: seq<FrameInput>): LoopState
    decreases |fs|
  {
    if fs == [] then st else Frames(Frame(st, fs[0]), fs[1..])
  }

  /** Between frames the loop runs exactly when the icon is shown, and then
      exactly one callback is queued: the loop never doubles up. */
  predicate Settled(st: LoopState) {
    st.running == st.active && st.pending == (if st.running then 1 else 0)
  }

  /** A frame from a settled state ends settled, showing the icon exactly when
      the fraction is in the tick band and the loop was, or was made, running.
      Within the frame, too, at most one callback is queued: the scroll event
      adds one only when none was. */
  lemma FrameSettles(st: LoopState, f: FrameInput)
    requires Settled(st)
    ensures (if f.scrolled then Scroll(st, f.pct) else st).pending <= 1
    ensures Settled(Frame(st, f))
    ensures Frame(st, f).active <==> InTickBand(f.pct) && (st.running || f.scrolled)
  {
    var s := if f.scrolled then Scroll(st, f.pct) else st;
    assert s.pending <= 1;
    if s.pending == 1 {
      TickBandInsideScrollBand(f.pct);
      assert RunTicks(s, f.pct, 1) == Tick(s, f.pct);
    }
  }

  /** However many frames pass, the loop is settled at the end of every one of
      them: between frames it runs exactly when the icon is shown, with one
      callback queued then and none otherwise. Since every frame starts
      settled, `FrameSettles` bounds the queue by one inside each frame too.
      Within a frame the loop may still run while the icon is hidden: a scroll
      out of the scroll band, or into the gap between the two bands, leaves
      one callback that runs with the icon hidden and then stops. */
  lemma {:induction false} FramesSettle(st: LoopState, fs: seq<FrameInput>)
    requires Settled(st)
    ensures forall i :: 0 <= i <= |fs| ==> Settled(Frames(st, fs[..i]))
    ensures Settled(Frames(st, fs))
    ensures Frames(st, fs).pending <= 1
    decreases |fs|
  {
    assert fs[..|fs|] == fs;
    if fs != [] {
      var st' := Frame(st, fs[0]);
      FrameSettles(st, fs[0]);
      FramesSettle(st', fs[1..]);
      forall i | 0 <= i <= |fs|
        ensures Settled(Frames(st, fs[..i]))
      {
        if i > 0 {
          assert fs[..i][0] == fs[0];
          assert fs[..i][1..] == fs[1..][..i - 1];
          assert Frames(st, fs[..i]) == Frames(st', fs[1..][..i - 1]);
        }
      }
    }
  }

  /** The scroll check at page load leaves at most one callback queued, and
      from the end of the first frame on the loop is settled: at the end of
      every later frame at most one callback is queued, and the loop runs
      exactly when the icon is shown. */
  lemma {:induction false} LoadThenFrames(p0: real, fs: seq<FrameInput>)
    requires |fs| >= 1
    ensures Scroll(Idle, p0).pending <= 1
    ensures Settled(Frames(Scroll(Idle, p0), fs))
    ensures Frames(Scroll(Idle, p0), fs).pending <= 1
  {
    var s0 := Scroll(Idle, p0);
    var f := fs[0];
    var s1 := if f.scrolled then Scroll(s0, f.pct) else s0;
    assert s1.pending <= 1;
    if s1.pending == 1 {
      TickBandInsideScrollBand(f.pct);
      assert RunTicks(s1, f.pct, 1) == Tick(s1, f.pct);
    }
    assert Settled(Frame(s0, f));
    FramesSettle(Frame(s0, f), fs[1..]);
  }

  /** A scroll into the band between the two bands ((0.02, 0.03] or
      [0.95, 0.96)) queues one callback, that one frame hides the icon and
      stops the loop, and the frames after it without a scroll event do
      nothing, at whatever fraction they see. */
  lemma HysteresisRunsOneTick(st: LoopState, pct: real)
    requires Settled(st)
    requires InScrollBand(pct) && !InTickBand(pct)
    ensures Scroll(st, pct).pending == 1
    ensures Tick(Scroll(st, pct), pct) == Idle
    ensures Frame(st, FrameInput(true, pct)) == Idle
    ensures Frame(Idle, FrameInput(false, pct)) == Idle
    ensures forall fs: seq<FrameInput> ::
              (forall i :: 0 <= i < |fs| ==> !fs[i].scrolled) ==> Frames(Idle, fs) == Idle
  {
    assert Scroll(st, pct) == LoopState(true, st.active, 1);
    assert RunTicks(Scroll(st, pct), pct, 1) == Tick(Scroll(st, pct), pct);
    forall fs: seq<FrameInput> | forall i :: 0 <= i < |fs| ==> !fs[i].scrolled
      ensures Frames(Idle, fs) == Idle
    {
      QuietFramesStayIdle(fs);
    }
  }

  /** Without a scroll event nothing starts the loop: from rest, frames that
      see no scroll event run nothing and leave everything at rest. */
  lemma {:induction false} QuietFramesStayIdle(fs: seq<FrameInput>)
    requires forall i :: 0 <= i < |fs| ==> !fs[i].scrolled
    ensures Frames(Idle, fs) == Idle
    decreases |fs|
  {
    if fs != [] {
      assert Frame(Idle, fs[0]) == Idle;
      assert forall i :: 0 <= i < |fs[1..]| ==> fs[1..][i] == fs[i + 1];
      QuietFramesStayIdle(fs[1..]);
    }
  }

  /** A scroll out of the scroll band stops everything within the frame. */
  lemma ScrollOutStops(st: LoopState, pct: real)
    requires Settled(st)
    requires !InScrollBand(pct)
    ensures Frame(st, FrameInput(true, pct)) == Idle
  {
    TickBandInsideScrollBand(pct);
    assert Scroll(st, pct) == LoopState(false, false, st.pending);
    if st.pending == 1 {
      assert Tick(Scroll(st, pct), pct) == Idle;
      assert RunTicks(Scroll(st, pct), pct, 1) == Tick(Scroll(st, pct), pct);
    }
  }

  /** A scroll into the tick band shows the icon and keeps one callback queued. */
  lemma ScrollInShows(st: LoopState, pct: real)
    requires Settled(st)
    requires InTickBand(pct)
    ensures Frame(st, FrameInput(true, pct)) == LoopState(true, true, 1)
  {
    TickBandInsideScrollBand(pct);
    assert Scroll(st, pct) == LoopState(true, st.active, 1);
    assert RunTicks(Scroll(st, pct), pct, 1) == Tick(Scroll(st, pct), pct);
  }

  /** The only guard against a second callback is `running`, which a scroll
      out of the band clears while the queued callback is still waiting: when
      two scroll events (out of the band, then back in) reach the handler
      before the next frame, two callbacks end up queued. */
  lemma TwoScrollsBetweenFramesQueueTwo()
    ensures Scroll(Scroll(Scroll(Idle, 0.5), 0.99), 0.5) == LoopState(true, false, 2)
  {
  }

  /** One continuous scroll, one scroll event per frame: from the top to
      0.05, to the middle, to 0.99, back to the middle and back to the top. */
  const DownAndBack: seq<FrameInput> := [
    FrameInput(true, 0.0), FrameInput(true, 0.05), FrameInput(true, 0.5),
    FrameInput(true, 0.99), FrameInput(true, 0.5), FrameInput(true, 0.0)]

  /** Along that scroll the icon is hidden, shown, shown, hidden, shown and
      hidden after the successive frames, with one callback queued exactly
      while it is shown, and the page ends where it started, idle. */
  lemma DownAndBackScenario()
    ensures Frames(Idle, DownAndBack[..1]) == Idle
    ensures Frames(Idle, DownAndBack[..2]) == LoopState(true, true, 1)
    ensures Frames(Idle, DownAndBack[..3]) == LoopState(true, true, 1)
    ensures Frames(Idle, DownAndBack[..4]) == Idle
    ensures Frames(Idle, DownAndBack[..5]) == LoopState(true, true, 1)
    ensures Frames(Idle, DownAndBack) == Idle
  {
    var shown := LoopState(true, true, 1);
    ScrollOutStops(Idle, 0.0);
    ScrollInShows(Idle, 0.05);
    ScrollInShows(shown, 0.5);
    ScrollOutStops(shown, 0.99);
    ScrollOutStops(shown, 0.0);
    FramesPrefix(Idle, DownAndBack, 1);
    FramesPrefix(Idle, DownAndBack, 2);
    FramesPrefix(Idle, DownAndBack, 3);
    FramesPrefix(Idle, DownAndBack, 4);
    FramesPrefix(Idle, DownAndBack, 5);
    FramesPrefix(Idle, DownAndBack, 6);
  }

  /** Running a prefix one frame longer is running one more frame. */
  lemma {:induction false} FramesPrefix(st: LoopState, fs: seq<FrameInput>, i: nat)
    requires 1 <= i <= |fs|
    ensures Frames(st, fs[..i]) == Frame(Frames(st, fs[..i - 1]), fs[i - 1])
    decreases i
  {
    assert fs[..i][0] == fs[0];
    if i == 1 {
      assert fs[..1][1..] == [];
    } else {
      FramesPrefix(Frame(st, fs[0]), fs[1..], i - 1);
      assert fs[..i][1..] == fs[1..][..i - 1];
      assert fs[..i - 1][0] == fs[0];
      assert fs[..i - 1][1..] == fs[1..][..i - 2];
    }
  }
}
