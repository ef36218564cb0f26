/**
 * The comet overlay of components/CometEffect.tsx: a point flies once along a
 * diagonal fixed at mount, leaving a tapered trail held in a bounded FIFO, then
 * the frozen trail fades out and the component stops rendering.
 *
 * Drawing is modelled as the list of strokes a pass makes (endpoints, alpha,
 * width) and whether the head's glow and core are drawn; arithmetic is exact.
 */
module Comet {
  import opened Wrappers

  /** Flight time in milliseconds. */
  const DURATION: real := 2600.0
  /** Capacity of the trail buffer. */
  const TRAIL_MAX: nat := 55
  /** The raw progress at which the easing stops accelerating (and its eased value there). */
  const LAUNCH: real := 0.4
  /** The fade multiplier in hundredths: its start value and its decrement per fade call. */
  const FADE_START: int := 100
  const FADE_STEP: int := 6
  /** The fade call on which the multiplier first drops to 0 or below. */
  const FADE_CALLS: nat := 17

  datatype Point = Point(x: real, y: real)
  datatype Trajectory = Trajectory(start: Point, end: Point)

  /** One trail segment as stroked: endpoints, stroke alpha and line width. */
  datatype Stroke = Stroke(from: Point, to: Point, alpha: real, width: real)

  /**
   * What one drawing pass leaves on the canvas: a cleared surface, or the
   * strokes drawn under a global alpha, with the head's glow and core at
   * `head` when they are drawn.
   */
  datatype Picture = Cleared | Scene(strokes: seq<Stroke>, globalAlpha: real, head: Option<Point>)

  datatype Phase = Flying | Fading | Finished

  /** The path, from the window size read at mount: it enters top-left and leaves bottom-right. */
  function TrajectoryFor(w: real, h: real): (path: Trajectory)
    ensures 0.0 <= w ==> 0.0 <= path.start.x <= path.end.x <= w
    ensures 0.0 <= h ==> 0.0 <= path.start.y <= path.end.y <= h
    ensures 0.0 < w ==> path.start.x < path.end.x
    ensures 0.0 < h ==> path.start.y < path.end.y
  {
    Trajectory(Point(w * 0.02, h * 0.05), Point(w * 0.85, h * 0.78))
  }

  /** `Math.min(elapsed / DURATION, 1)`: time progress, capped at 1. */
  function Progress(elapsed: real): (raw: real)
    ensures raw <= 1.0
    ensures 0.0 <= elapsed ==> 0.0 <= raw
    ensures raw == 1.0 <==> elapsed >= DURATION
    ensures elapsed < DURATION ==> raw * DURATION == elapsed
  {
    if elapsed / DURATION < 1.0 then elapsed / DURATION else 1.0
  }

  /** Accelerate quadratically up to LAUNCH, then coast at constant rate. */
  function Ease(raw: real): (p: real)
    ensures LAUNCH <= raw ==> p == raw
  {
    if raw < LAUNCH then (raw / LAUNCH) * (raw / LAUNCH) * LAUNCH
    else LAUNCH + (raw - LAUNCH) * (1.0 / 0.6) * 0.6
  }

  lemma MulMono(a: real, b: real, c: real)
    requires 0.0 <= c && a <= b
    ensures a * c <= b * c
  {
  }

  lemma SquareMono(u: real, v: real)
    requires 0.0 <= u <= v
    ensures u * u <= v * v
  {
  }

  /** The two branches of the easing meet at LAUNCH, and the ends are fixed. */
  lemma EaseFixedPoints()
    ensures Ease(0.0) == 0.0 && Ease(1.0) == 1.0 && Ease(LAUNCH) == LAUNCH
    ensures (LAUNCH / LAUNCH) * (LAUNCH / LAUNCH) * LAUNCH == LAUNCH
  {
  }

  /** During the launch the eased progress lags behind time progress. */
  lemma {:induction false} EaseLaunchBelowRaw(raw: real)
    requires 0.0 <= raw <= LAUNCH
    ensures 0.0 <= Ease(raw) <= raw
  {
    if raw < LAUNCH {
      var u := raw / LAUNCH;
      assert 0.0 <= u <= 1.0;
      MulMono(u, 1.0, u);
      assert u * u <= u;
      MulMono(u * u, u, LAUNCH);
      assert Ease(raw) == u * u * LAUNCH;
      assert u * LAUNCH == raw;
    }
  }

  /** On the unit interval the eased progress stays in the unit interval. */
  lemma EaseInUnit(raw: real)
    requires 0.0 <= raw <= 1.0
    ensures 0.0 <= Ease(raw) <= 1.0
  {
    if raw < LAUNCH {
      EaseLaunchBelowRaw(raw);
    }
  }

  /** Eased progress never decreases as time progress grows. */
  lemma EaseMonotone(a: real, b: real)
    requires 0.0 <= a <= b
    ensures Ease(a) <= Ease(b)
  {
    if b < LAUNCH {
      var u, v := a / LAUNCH, b / LAUNCH;
      assert 0.0 <= u <= v;
      SquareMono(u, v);
      MulMono(u * u, v * v, LAUNCH);
    } else if a < LAUNCH {
      EaseLaunchBelowRaw(a);
    }
  }

  /** The head at eased progress `p`, interpolated linearly along the path. */
  function Head(path: Trajectory, p: real): (pt: Point)
    ensures p == 0.0 ==> pt == path.start
    ensures p == 1.0 ==> pt == path.end
  {
    Point(path.start.x + (path.end.x - path.start.x) * p,
          path.start.y + (path.end.y - path.start.y) * p)
  }

  ghost predicate Between(a: real, x: real, b: real) {
    (a <= x <= b) || (b <= x <= a)
  }

  /** `pt` lies on the closed segment from the path's start to its end. */
  ghost predicate OnSegment(path: Trajectory, pt: Point) {
    && Between(path.start.x, pt.x, path.end.x)
    && Between(path.start.y, pt.y, path.end.y)
    && (pt.x - path.start.x) * (path.end.y - path.start.y)
       == (pt.y - path.start.y) * (path.end.x - path.start.x)
  }

  lemma ScaledWithin(d: real, p: real)
    requires 0.0 <= p <= 1.0
    ensures Between(0.0, d * p, d)
  {
  }

  /** Every head position of the flight lies on the segment from start to end. */
  lemma {:induction false} HeadOnSegment(path: Trajectory, p: real)
    requires 0.0 <= p <= 1.0
    ensures OnSegment(path, Head(path, p))
  {
    var dx, dy := path.end.x - path.start.x, path.end.y - path.start.y;
    var pt := Head(path, p);
    assert pt.x == path.start.x + dx * p && pt.y == path.start.y + dy * p;
    ScaledWithin(dx, p);
    ScaledWithin(dy, p);
    assert (dx * p) * dy == (dy * p) * dx;
  }

  /** The frame whose time progress has reached 1 puts the head exactly on the end point. */
  lemma HeadAtArrival(path: Trajectory, elapsed: real)
    requires elapsed >= DURATION
    ensures Head(path, Ease(Progress(elapsed))) == path.end
  {
  }

  /**
   * The trail buffer's contents after `history` was appended point by point:
   * the most recent min(|history|, TRAIL_MAX) points, in insertion order.
   */
  function Recent(history: seq<Point>): (trail: seq<Point>)
    ensures |trail| <= TRAIL_MAX && |trail| <= |history|
    ensures |trail| == |history| || |trail| == TRAIL_MAX
  {
    if |history| <= TRAIL_MAX then history else history[|history| - TRAIL_MAX..]
  }

  /** The trail is exactly the newest positions of the history, in order. */
  lemma RecentIsSuffix(history: seq<Point>)
    ensures Recent(history) == history[|history| - |Recent(history)|..]
  {
  }

  /** `push` followed by `shift` when over capacity keeps the buffer equal to the recent history. */
  lemma PushShiftKeepsRecent(history: seq<Point>, pt: Point)
    ensures var pushed := Recent(history) + [pt];
            Recent(history + [pt]) == if |pushed| > TRAIL_MAX then pushed[1..] else pushed
  {
  }

  /** The fade multiplier, in hundredths, after `calls` fade calls. */
  function FadeLevel(calls: nat): int {
    FADE_START - FADE_STEP * calls
  }

  /** The multiplier stays positive for 16 calls and drops to 0 or below on the 17th. */
  lemma FadeEndsOnSeventeenthCall(calls: nat)
    ensures FadeLevel(calls) > 0 <==> calls < FADE_CALLS
  {
  }

  /** Segment `i` of a trail: from point i-1 to point i, tapered by `i / |trail|`. */
  function SegmentAt(trail: seq<Point>, i: nat): (s: Stroke)
    requires 1 <= i < |trail|
    ensures s.from == trail[i - 1] && s.to == trail[i]
    ensures s.width * |trail| as real == 3.5 * i as real
    ensures s.alpha * (|trail| * |trail|) as real == 0.7 * (i * i) as real
  {
    var n := |trail| as real;
    var ratio := i as real / n;
    assert ratio * n == i as real;
    assert (ratio * ratio * 0.7) * (n * n) == 0.7 * ((ratio * n) * (ratio * n));
    Stroke(trail[i - 1], trail[i], ratio * ratio * 0.7, ratio * 3.5)
  }

  /** `strokes` are the segments drawn for `trail`, oldest first. */
  ghost predicate DrawsTrail(strokes: seq<Stroke>, trail: seq<Point>) {
    && |strokes| == (if trail == [] then 0 else |trail| - 1)
    && forall k :: 0 <= k < |strokes| ==> strokes[k] == SegmentAt(trail, k + 1)
  }

  /** Every segment is strictly fainter than 0.7 and thinner than 3.5, and not invisible. */
  lemma SegmentBounds(trail: seq<Point>, i: nat)
    requires 1 <= i < |trail|
    ensures 0.0 < SegmentAt(trail, i).alpha < 0.7
    ensures 0.0 < SegmentAt(trail, i).width < 3.5
  {
    var r := i as real / |trail| as real;
    assert 0.0 < r < 1.0;
    MulMono(r, 1.0, r);
    assert r * r <= r;
  }

  /** Newer segments are strictly more opaque and strictly wider than older ones. */
  lemma SegmentsTaper(trail: seq<Point>, i: nat, j: nat)
    requires 1 <= i < j < |trail|
    ensures SegmentAt(trail, i).alpha < SegmentAt(trail, j).alpha
    ensures SegmentAt(trail, i).width < SegmentAt(trail, j).width
  {
  }

  /** The drawing loop over a trail: one stroke per consecutive pair of points. */
  method TrailStrokes(trail: seq<Point>) returns (strokes: seq<Stroke>)
    ensures DrawsTrail(strokes, trail)
  {
    strokes := [];
    var i := 1;
    while i < |trail|
      invariant trail == [] ==> i == 1
      invariant trail != [] ==> 1 <= i <= |trail|
      invariant |strokes| == i - 1
      invariant forall k :: 0 <= k < |strokes| ==> strokes[k] == SegmentAt(trail, k + 1)
    {
      var ratio := i as real / |trail| as real;
      strokes := strokes + [Stroke(trail[i - 1], trail[i], ratio * ratio * 0.7, ratio * 3.5)];
      i := i + 1;
    }
  }

  /** The comet's effect state: what the frame closures share across frames. */
  class CometEffect {
    /** Window size read once at mount, and the path derived from it; never recomputed. */
    const width: real
    const height: real
    const path: Trajectory
    /** Whether the canvas yielded a 2D context; without one nothing is scheduled. */
    const hasContext: bool

    var startTs: Option<real>
    var trail: seq<Point>
    var phase: Phase
    /** `fadeAlpha`, in hundredths. */
    var fadeLevel: int
    var lastTrail: seq<Point>
    /** The frame callback whose id is kept in `rafId` is scheduled. */
    var framePending: bool
    /** A fade callback is scheduled; its id is never stored, so nothing cancels it. */
    var fadePending: bool
    /** The 2D context's `globalAlpha`. */
    var globalAlpha: real
    /** The React `done` state. */
    var done: bool
    var mounted: bool

    /** Every head position appended to the trail, oldest first. */
    ghost var history: seq<Point>
    /** Fade calls made so far. */
    ghost var fadeCalls: nat

    ghost predicate Consistent()
      reads this
    {
      && trail == Recent(history)
      && globalAlpha == 1.0
      && (framePending ==> phase == Flying)
      && (phase == Flying ==> fadeCalls == 0 && !fadePending)
      && (phase == Fading ==> fadeCalls < FADE_CALLS && lastTrail == trail && !framePending)
      && (phase == Finished ==> fadeCalls == FADE_CALLS && !fadePending && !framePending)
      && (phase != Flying ==> fadeLevel == FadeLevel(fadeCalls))
      && (done ==> phase == Finished)
      && (phase == Finished && mounted ==> done)
    }

    ghost predicate Valid()
      reads this
    {
      Consistent() && (phase == Fading ==> 1 <= fadeCalls && fadePending)
    }

    /** What the component renders: its canvas, or nothing once done. */
    function RendersCanvas(): (r: bool)
      reads this
      ensures Valid() && !r ==> phase == Finished
      ensures Valid() && phase == Finished && mounted ==> !r
    {
      !done
    }

    /** Mount: read the window size, fix the path and, given a context, request the first frame. */
    constructor (w: real, h: real, hasContext: bool)
      ensures Valid()
      ensures width == w && height == h && path == TrajectoryFor(w, h)
      ensures this.hasContext == hasContext && framePending == hasContext && !fadePending
      ensures phase == Flying && trail == [] && history == [] && startTs == None
      ensures mounted && RendersCanvas()
    {
      width, height := w, h;
      path := TrajectoryFor(w, h);
      this.hasContext := hasContext;
      startTs := None;
      trail := [];
      phase := Flying;
      fadeLevel := FADE_START;
      lastTrail := [];
      framePending := hasContext;
      fadePending := false;
      globalAlpha := 1.0;
      done := false;
      mounted := true;
      history := [];
      fadeCalls := 0;
    }

    /**
     * `frame(ts)`: a frame callback fires, if one is scheduled. Returns the
     * pictures drawn during the callback: the flight picture, followed by the
     * first fade picture when time progress reached 1.
     */
    method OnFrame(ts: real) returns (drawn: seq<Picture>)
      requires Valid()
      modifies this
      ensures Valid()
      ensures !old(framePending) ==> drawn == [] && unchanged(this)
      ensures old(framePending) ==>
        var start := if old(startTs) == None || old(startTs) == Some(0.0) then ts else old(startTs).value;
        var raw := Progress(ts - start);
        var head := Head(path, Ease(raw));
        && startTs == Some(start)
        && history == old(history) + [head]
        && |drawn| == (if raw < 1.0 then 1 else 2)
        && drawn[0].Scene? && DrawsTrail(drawn[0].strokes, trail)
        && drawn[0].globalAlpha == 1.0 && drawn[0].head == Some(head)
        && (raw < 1.0 ==> phase == Flying && framePending && fadeCalls == 0)
        && (raw == 1.0 ==>
              && phase == Fading && !framePending && fadePending
              && lastTrail == trail && fadeCalls == 1 && fadeLevel == FADE_START - FADE_STEP
              && drawn[1].Scene? && DrawsTrail(drawn[1].strokes, lastTrail)
              && drawn[1].globalAlpha == fadeLevel as real / 100.0 && drawn[1].head == None)
      ensures mounted == old(mounted) && done == old(done)
    {
      if !framePending {
        drawn := [];
        return;
      }
      framePending := false;
      var raw, head, pic := Fly(ts);
      drawn := [pic];
      if raw < 1.0 {
        framePending := true;
      } else {
        var fadePic := StartFade();
        drawn := drawn + [fadePic];
      }
    }

    /** The flight part of `frame(ts)`: fix the start, place the head, append it to the trail, draw. */
    method Fly(ts: real) returns (raw: real, head: Point, pic: Picture)
      requires Consistent() && phase == Flying
      modifies this`startTs, this`trail, this`history
      ensures Consistent()
      ensures var start := if old(startTs) == None || old(startTs) == Some(0.0) then ts else old(startTs).value;
              startTs == Some(start) && raw == Progress(ts - start)
      ensures head == Head(path, Ease(raw)) && history == old(history) + [head]
      ensures pic.Scene? && DrawsTrail(pic.strokes, trail)
      ensures pic.globalAlpha == 1.0 && pic.head == Some(head)
    {
      if startTs == None || startTs == Some(0.0) {
        startTs := Some(ts);
      }
      var elapsed := ts - startTs.value;
      raw := Progress(elapsed);
      var p := Ease(raw);
      head := Head(path, p);

      PushShiftKeepsRecent(history, head);
      trail := trail + [head];
      if |trail| > TRAIL_MAX {
        trail := trail[1..];
      }
      history := history + [head];

      var strokes := TrailStrokes(trail);
      pic := Scene(strokes, globalAlpha, Some(head));
    }

    /** The `raw >= 1` branch of `frame`: snapshot the trail, set the multiplier to 1, and run the first fade call at once. */
    method StartFade() returns (pic: Picture)
      requires Consistent() && phase == Flying && !framePending
      modifies this`fadeLevel, this`lastTrail, this`phase, this`fadeCalls, this`done, this`fadePending, this`globalAlpha
      ensures Valid()
      ensures phase == Fading && lastTrail == trail && fadePending
      ensures fadeCalls == 1 && fadeLevel == FADE_START - FADE_STEP
      ensures pic.Scene? && DrawsTrail(pic.strokes, lastTrail)
      ensures pic.globalAlpha == fadeLevel as real / 100.0 && pic.head == None
      ensures done == old(done)
    {
      fadeLevel := FADE_START;
      lastTrail := trail;
      phase := Fading;
      pic := Fade();
    }

    /** `fadeFrame()`: lower the multiplier, then either clear and finish or redraw the frozen trail. */
    method Fade() returns (pic: Picture)
      requires Consistent() && phase == Fading
      modifies this`fadeLevel, this`fadeCalls, this`done, this`phase, this`fadePending, this`globalAlpha
      ensures Valid()
      ensures fadeCalls == old(fadeCalls) + 1 && fadeLevel == FadeLevel(fadeCalls)
      ensures fadeLevel <= 0 ==>
        pic == Cleared && phase == Finished && !fadePending && done == (old(done) || mounted)
      ensures fadeLevel > 0 ==>
        && pic.Scene? && DrawsTrail(pic.strokes, lastTrail)
        && pic.globalAlpha == fadeLevel as real / 100.0 && pic.head == None
        && phase == Fading && fadePending && done == old(done)
      ensures phase == Finished <==> fadeCalls == FADE_CALLS
    {
      fadeLevel := fadeLevel - FADE_STEP;
      fadeCalls := fadeCalls + 1;
      FadeEndsOnSeventeenthCall(fadeCalls);
      if fadeLevel <= 0 {
        pic := Cleared;
        if mounted {
          done := true;
        }
        phase := Finished;
        fadePending := false;
        return;
      }
      globalAlpha := fadeLevel as real / 100.0;
      var strokes := TrailStrokes(lastTrail);
      pic := Scene(strokes, globalAlpha, None);
      globalAlpha := 1.0;
      fadePending := true;
    }

    /** A fade callback fires, if one is scheduled. */
    method OnFadeFrame() returns (drawn: seq<Picture>)
      requires Valid()
      modifies this
      ensures Valid()
      ensures !old(fadePending) ==> drawn == [] && unchanged(this)
      ensures old(fadePending) ==>
        && |drawn| == 1 && fadeCalls == old(fadeCalls) + 1
        && fadeLevel == old(fadeLevel) - FADE_STEP
        && (phase == Finished <==> fadeCalls == FADE_CALLS)
        && (phase == Finished ==> drawn[0] == Cleared && !fadePending && (mounted ==> !RendersCanvas()))
        && (phase == Fading ==>
              && drawn[0].Scene? && DrawsTrail(drawn[0].strokes, lastTrail)
              && drawn[0].globalAlpha == fadeLevel as real / 100.0 && drawn[0].head == None
              && fadePending)
      ensures trail == old(trail) && lastTrail == old(lastTrail) && history == old(history)
      ensures framePending == old(framePending) && mounted == old(mounted) && startTs == old(startTs)
      ensures !mounted ==> done == old(done)
    {
      if !fadePending {
        drawn := [];
        return;
      }
      var pic := Fade();
      drawn := [pic];
    }

    /** Unmount cleanup: `cancelAnimationFrame(rafId)` cancels a pending flight frame only. */
    method Unmount()
      requires Valid()
      modifies this`framePending, this`mounted
      ensures Valid()
      ensures !framePending && !mounted
      ensures fadePending == old(fadePending)
    {
      framePending := false;
      mounted := false;
    }
  }
}
