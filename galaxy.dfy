/**
 * The frame-loop controller of components/Galaxy.tsx, i.e. the JavaScript
 * around the shaders: a self-throttled animation loop gated by visibility, a
 * one-shot ready signal right after the first render, a drawing surface sized
 * to 0.75 of its container, and an ordered teardown.
 *
 * Calls into the browser and the WebGL renderer are entries of an effect log;
 * the shader uniforms the controller writes are plain fields.
 */
module Galaxy {
  import opened Wrappers

  /** Minimum time between two loop renders, in milliseconds: 45 frames a second. */
  const FRAME_INTERVAL: real := 1000.0 / 45.0

  /** A call the controller makes into the browser or the renderer. */
  datatype Effect =
    | AddResizeListener
    | RemoveResizeListener
    | SetSize(width: nat, height: nat)
    | Render
    | Ready
    | AppendCanvas
    | RemoveCanvas
    | RequestFrame(id: nat)
    | CancelFrame(id: nat)
    | Observe
    | Disconnect
    | LoseContext

  /** The `uResolution` uniform: width, height and aspect ratio; no ratio when the height is 0. */
  datatype Resolution = Resolution(width: nat, height: nat, aspect: Option<real>)

  /**
   * The surface size for a container dimension: 0.75 of it, truncated to whole
   * pixels by the canvas's integer size attribute.
   */
  function ScaledSize(css: nat): (px: nat)
    ensures px <= css
  {
    (css * 3) / 4
  }

  /** The surface dimension is 0.75 of the container's, rounded down to a whole pixel. */
  lemma ScaledSizeIsThreeQuarters(css: nat)
    ensures ScaledSize(css) as real <= 0.75 * css as real < ScaledSize(css) as real + 1.0
  {
  }

  /** The resolution uniform for a surface: its size, and its aspect ratio when that is finite. */
  function ResolutionOf(w: nat, h: nat): (r: Resolution)
    ensures r.width == w && r.height == h
    ensures r.aspect.Some? <==> h > 0
    ensures r.aspect.Some? ==> r.aspect.value * h as real == w as real
  {
    Resolution(w, h, if h > 0 then Some(w as real / h as real) else None)
  }

  /** `uTime` and `uStarSpeed` for a frame timestamp: seconds, and the star-scroll phase derived from them. */
  function TimeUniforms(t: real, starSpeed: real): (u: (real, real))
    ensures u.0 * 1000.0 == t
    ensures u.1 * 10.0 == u.0 * starSpeed
  {
    (t * 0.001, (t * 0.001 * starSpeed) / 10.0)
  }

  /** Render timestamps in order, each at least one frame interval after every earlier one. */
  ghost predicate Spaced(times: seq<real>) {
    forall i, j :: 0 <= i < j < |times| ==> times[i] + FRAME_INTERVAL <= times[j]
  }

  /**
   * The throttle bound: n spaced renders span at least n - 1 frame intervals,
   * so a window of length L holds at most L / FRAME_INTERVAL + 1 of them.
   */
  lemma {:induction false} SpacedSpan(times: seq<real>)
    requires Spaced(times) && |times| > 0
    ensures (|times| - 1) as real * FRAME_INTERVAL <= times[|times| - 1] - times[0]
  {
    if |times| > 1 {
      var front := times[..|times| - 1];
      assert Spaced(front) by {
        forall i, j | 0 <= i < j < |front| ensures front[i] + FRAME_INTERVAL <= front[j] {
          assert front[i] == times[i] && front[j] == times[j];
        }
      }
      SpacedSpan(front);
      assert times[|times| - 2] + FRAME_INTERVAL <= times[|times| - 1];
    }
  }

  /** The state the effect's closures share, from mount to teardown. */
  class GalaxyRenderer {
    /** Props read once by the effect; later prop changes never reach it. */
    const disableAnimation: bool
    const starSpeed: real
    const hasOnReady: bool

    /** The pending frame request, if any. */
    var animateId: Option<nat>
    /** The id the next `requestAnimationFrame` returns. */
    var nextId: nat
    var lastFrame: real
    var uTime: real
    var uStarSpeed: real
    var uResolution: Resolution
    var hasProgram: bool
    var canvasWidth: nat
    var canvasHeight: nat
    var listening: bool
    var observing: bool
    var attached: bool
    var contextLost: bool
    var effects: seq<Effect>

    /** Timestamps of the renders done by the loop. */
    ghost var renderTimes: seq<real>

    ghost predicate Valid()
      reads this
    {
      && hasProgram
      && Spaced(renderTimes)
      && (renderTimes == [] ==> lastFrame == 0.0)
      && (renderTimes != [] ==> lastFrame == renderTimes[|renderTimes| - 1] && renderTimes[0] >= FRAME_INTERVAL)
      && (contextLost ==> animateId == None && !listening && !observing && !attached)
    }

    /**
     * The effect body at mount: listen for resizes, size the surface, create
     * the program, render once, signal ready, attach the canvas, start the
     * loop and observe the container.
     */
    constructor Mount(containerWidth: nat, containerHeight: nat, disableAnimation: bool, starSpeed: real, hasOnReady: bool)
      ensures Valid()
      ensures this.disableAnimation == disableAnimation && this.starSpeed == starSpeed && this.hasOnReady == hasOnReady
      ensures canvasWidth == ScaledSize(containerWidth) && canvasHeight == ScaledSize(containerHeight)
      ensures uResolution == ResolutionOf(canvasWidth, canvasHeight)
      ensures uTime == 0.0 && uStarSpeed == starSpeed
      ensures animateId == Some(1) && nextId == 2 && lastFrame == 0.0 && renderTimes == []
      ensures listening && observing && attached && !contextLost
      ensures effects == [AddResizeListener] + [SetSize(canvasWidth, canvasHeight)] + [Render]
                         + (if hasOnReady then [Ready] else [])
                         + [AppendCanvas] + [RequestFrame(1)] + [Observe]
    {
      this.disableAnimation := disableAnimation;
      this.starSpeed := starSpeed;
      this.hasOnReady := hasOnReady;
      hasProgram := false;
      canvasWidth, canvasHeight := 0, 0;
      uTime, uStarSpeed := 0.0, starSpeed;
      uResolution := ResolutionOf(0, 0);
      lastFrame := 0.0;
      renderTimes := [];
      // startLoop() with no frame pending: the first request gets id 1.
      animateId, nextId := Some(1), 2;
      listening, observing, attached, contextLost := true, true, true, false;
      effects := [AddResizeListener];
      new;
      // The mount's own resize runs before the program exists, so it only
      // sizes the surface; the program then reads uResolution off that surface.
      Resize(containerWidth, containerHeight);
      hasProgram := true;
      uResolution := ResolutionOf(canvasWidth, canvasHeight);
      effects := effects + [Render] + (if hasOnReady then [Ready] else []) + [AppendCanvas] + [RequestFrame(1)] + [Observe];
    }

    /** `resize()`: size the surface to the container; update `uResolution` only once the program exists. */
    method Resize(containerWidth: nat, containerHeight: nat)
      modifies this`canvasWidth, this`canvasHeight, this`uResolution, this`effects
      ensures canvasWidth == ScaledSize(containerWidth) && canvasHeight == ScaledSize(containerHeight)
      ensures effects == old(effects) + [SetSize(canvasWidth, canvasHeight)]
      ensures hasProgram ==> uResolution == ResolutionOf(canvasWidth, canvasHeight)
      ensures !hasProgram ==> uResolution == old(uResolution)
    {
      canvasWidth, canvasHeight := ScaledSize(containerWidth), ScaledSize(containerHeight);
      effects := effects + [SetSize(canvasWidth, canvasHeight)];
      if hasProgram {
        uResolution := ResolutionOf(canvasWidth, canvasHeight);
      }
    }

    /** `startLoop()`: request a frame only when none is pending. */
    method StartLoop()
      requires !contextLost
      modifies this`animateId, this`nextId, this`effects
      ensures old(animateId) == None ==>
        && animateId == Some(old(nextId)) && nextId == old(nextId) + 1
        && effects == old(effects) + [RequestFrame(old(nextId))]
      ensures old(animateId).Some? ==>
        animateId == old(animateId) && nextId == old(nextId) && effects == old(effects)
    {
      if animateId == None {
        animateId := Some(nextId);
        effects := effects + [RequestFrame(nextId)];
        nextId := nextId + 1;
      }
    }

    /** `stopLoop()`: cancel the pending frame, if any, and forget it. */
    method StopLoop()
      modifies this`animateId, this`effects
      ensures animateId == None
      ensures old(animateId).Some? ==> effects == old(effects) + [CancelFrame(old(animateId).value)]
      ensures old(animateId) == None ==> effects == old(effects)
    {
      if animateId.Some? {
        effects := effects + [CancelFrame(animateId.value)];
        animateId := None;
      }
    }

    /** What `update(t)` does to the state: re-request first, then render only if a frame interval has passed. */
    twostate predicate Updated(t: real)
      reads this
    {
      && animateId == Some(old(nextId)) && nextId == old(nextId) + 1
      && (t - old(lastFrame) < FRAME_INTERVAL ==>
            && effects == old(effects) + [RequestFrame(old(nextId))]
            && lastFrame == old(lastFrame) && renderTimes == old(renderTimes)
            && uTime == old(uTime) && uStarSpeed == old(uStarSpeed))
      && (t - old(lastFrame) >= FRAME_INTERVAL ==>
            && effects == old(effects) + [RequestFrame(old(nextId)), Render]
            && lastFrame == t && renderTimes == old(renderTimes) + [t]
            && (disableAnimation ==> uTime == old(uTime) && uStarSpeed == old(uStarSpeed))
            && (!disableAnimation ==> (uTime, uStarSpeed) == TimeUniforms(t, starSpeed)))
    }

    /** `update(t)`, run when the pending frame fires. */
    method Update(t: real)
      requires Valid() && animateId.Some?
      modifies this`animateId, this`nextId, this`effects, this`lastFrame, this`uTime, this`uStarSpeed, this`renderTimes
      ensures Valid() && Updated(t)
    {
      animateId := Some(nextId);
      effects := effects + [RequestFrame(nextId)];
      nextId := nextId + 1;
      if t - lastFrame < FRAME_INTERVAL {
        return;
      }
      lastFrame := t;
      if !disableAnimation {
        uTime, uStarSpeed := TimeUniforms(t, starSpeed).0, TimeUniforms(t, starSpeed).1;
      }
      effects := effects + [Render];
      renderTimes := renderTimes + [t];
    }

    /** The browser fires an animation frame at time `t`: only a pending request runs `update`. */
    method OnAnimationFrame(t: real)
      requires Valid()
      modifies this`animateId, this`nextId, this`effects, this`lastFrame, this`uTime, this`uStarSpeed, this`renderTimes
      ensures Valid()
      ensures old(animateId) == None ==> unchanged(this)
      ensures old(animateId).Some? ==> Updated(t)
      ensures canvasWidth == old(canvasWidth) && canvasHeight == old(canvasHeight) && uResolution == old(uResolution)
    {
      if animateId.Some? {
        Update(t);
      }
    }

    /**
     * The intersection observer reports the container: start the loop when
     * visible, stop it when not. The callback reads only the first entry of
     * each batch, so `isIntersecting` is that entry's flag.
     */
    method OnIntersection(isIntersecting: bool)
      requires Valid()
      modifies this`animateId, this`nextId, this`effects
      ensures Valid()
      ensures !old(observing) ==> unchanged(this)
      ensures old(observing) && isIntersecting && old(animateId) == None ==>
        && animateId == Some(old(nextId)) && nextId == old(nextId) + 1
        && effects == old(effects) + [RequestFrame(old(nextId))]
      ensures old(observing) && isIntersecting && old(animateId).Some? ==> unchanged(this)
      ensures old(observing) && !isIntersecting ==> animateId == None && nextId == old(nextId)
      ensures old(observing) && !isIntersecting && old(animateId) == None ==> unchanged(this)
      ensures old(observing) && !isIntersecting && old(animateId).Some? ==>
        effects == old(effects) + [CancelFrame(old(animateId).value)]
    {
      if observing {
        if isIntersecting {
          StartLoop();
        } else {
          StopLoop();
        }
      }
    }

    /** The window fires `resize` with the container's current size: only a registered listener reacts. */
    method OnWindowResize(containerWidth: nat, containerHeight: nat)
      requires Valid()
      modifies this`canvasWidth, this`canvasHeight, this`uResolution, this`effects
      ensures Valid()
      ensures !old(listening) ==> unchanged(this)
      ensures old(listening) ==>
        && canvasWidth == ScaledSize(containerWidth) && canvasHeight == ScaledSize(containerHeight)
        && uResolution == ResolutionOf(canvasWidth, canvasHeight)
        && effects == old(effects) + [SetSize(canvasWidth, canvasHeight)]
    {
      if listening {
        Resize(containerWidth, containerHeight);
      }
    }

    /**
     * The effect's cleanup, run once at unmount: disconnect the observer, stop
     * the loop, remove the resize listener, detach the canvas, lose the context.
     */
    method Teardown()
      requires Valid() && !contextLost
      modifies this`observing, this`animateId, this`effects, this`listening, this`attached, this`contextLost
      ensures Valid()
      ensures !observing && animateId == None && !listening && !attached && contextLost
      ensures effects == old(effects) + [Disconnect]
                         + (if old(animateId).Some? then [CancelFrame(old(animateId).value)] else [])
                         + [RemoveResizeListener] + [RemoveCanvas] + [LoseContext]
    {
      observing := false;
      effects := effects + [Disconnect];
      ghost var cancel := if animateId.Some? then [CancelFrame(animateId.value)] else [];
      StopLoop();
      assert effects == old(effects) + [Disconnect] + cancel;
      listening := false;
      effects := effects + [RemoveResizeListener];
      attached := false;
      effects := effects + [RemoveCanvas];
      contextLost := true;
      effects := effects + [LoseContext];
    }
  }
}
