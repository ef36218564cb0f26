/**
 * The stateful logic of app/page.tsx: the cycling "Also into" text, the
 * one-way galaxy-ready latch that gates the comet overlay, the section
 * fade-in and nav highlight driven by an intersection observer, and the
 * scaling of the website-preview frame. Timer expiries and observer callbacks
 * are events delivered by the caller.
 */
module Page {
  import opened Wrappers

  const INTERESTS: seq<string> := ["Space Travel", "Guitar", "Ancient Aliens", "Stand-up Comedy", "Darts"]

  /** The interest shown after the current one. */
  function NextInterest(i: nat): (j: nat)
    ensures j < |INTERESTS|
    ensures i + 1 < |INTERESTS| ==> j == i + 1
    ensures i + 1 == |INTERESTS| ==> j == 0
  {
    (i + 1) % |INTERESTS|
  }

  /** The index after `swaps` swaps from the initial index 0. */
  function IndexAfter(swaps: nat): (i: nat)
    ensures i < |INTERESTS|
  {
    if swaps == 0 then 0 else NextInterest(IndexAfter(swaps - 1))
  }

  /** The text cycles through all five interests in order, wrapping around. */
  lemma {:induction false} IndexAfterIsRemainder(swaps: nat)
    ensures IndexAfter(swaps) == swaps % |INTERESTS|
  {
    if swaps > 0 {
      IndexAfterIsRemainder(swaps - 1);
    }
  }

  /** `CyclingInterests`: an interval hides the text, and a timeout 400 ms later shows the next one. */
  class CyclingInterests {
    var index: nat
    var visible: bool
    /** The 2800 ms interval is registered. */
    var ticking: bool
    /** 400 ms timeouts scheduled and not yet fired; nothing ever cancels them. */
    var pendingSwaps: nat
    var mounted: bool
    /** Swaps applied to the state so far. */
    ghost var swaps: nat

    ghost predicate Valid()
      reads this
    {
      index == IndexAfter(swaps) && (ticking ==> mounted)
    }

    /** The text rendered: `INTERESTS[index]`. */
    function Shown(): (text: string)
      reads this
      requires Valid()
      ensures text in INTERESTS
    {
      INTERESTS[index]
    }

    constructor ()
      ensures Valid()
      ensures index == 0 && visible && ticking && pendingSwaps == 0 && mounted
    {
      index, visible, ticking, pendingSwaps, mounted := 0, true, true, 0, true;
      swaps := 0;
    }

    /** The interval fires: hide the text and schedule the swap. */
    method OnIntervalTick()
      requires Valid()
      modifies this
      ensures Valid()
      ensures !old(ticking) ==> unchanged(this)
      ensures old(ticking) ==>
        !visible && index == old(index) && pendingSwaps == old(pendingSwaps) + 1 && ticking && mounted
    {
      if ticking {
        visible := false;
        pendingSwaps := pendingSwaps + 1;
      }
    }

    /** A swap timeout fires: advance the index and show it, unless the component is gone. */
    method OnSwapTimeout()
      requires Valid()
      modifies this
      ensures Valid()
      ensures old(pendingSwaps) == 0 ==> unchanged(this)
      ensures old(pendingSwaps) > 0 ==> pendingSwaps == old(pendingSwaps) - 1
      ensures old(pendingSwaps) > 0 && old(mounted) ==> index == NextInterest(old(index)) && visible
      ensures old(pendingSwaps) > 0 && !old(mounted) ==> index == old(index) && visible == old(visible)
      ensures ticking == old(ticking) && mounted == old(mounted)
    {
      if pendingSwaps > 0 {
        pendingSwaps := pendingSwaps - 1;
        if mounted {
          index := NextInterest(index);
          swaps := swaps + 1;
          visible := true;
        }
      }
    }

    /** Cleanup clears the interval only; a pending swap timeout still fires later. */
    method Unmount()
      requires Valid()
      modifies this
      ensures Valid()
      ensures !ticking && !mounted
      ensures pendingSwaps == old(pendingSwaps) && index == old(index) && visible == old(visible)
    {
      ticking := false;
      mounted := false;
    }
  }

  /** Delay from the galaxy's first frame to the comet overlay, in milliseconds. */
  const COMET_DELAY: real := 1200.0
  const NAV_SECTIONS: seq<string> := ["intro", "work", "connect"]

  /** `Array.prototype.indexOf`: the first position of `x` in `s`, or -1. */
  function IndexOf(s: seq<string>, x: string): (r: int)
    ensures -1 <= r < |s|
    ensures r == -1 <==> x !in s
    ensures 0 <= r ==> s[r] == x && x !in s[..r]
  {
    if s == [] then -1
    else if s[0] == x then 0
    else
      var k := IndexOf(s[1..], x);
      if k == -1 then -1 else k + 1
  }

  /** The class of a hero element: opaque exactly when the galaxy is ready. */
  function HeroOpacity(galaxyReady: bool): (cls: string)
    ensures cls == "opacity-100" <==> galaxyReady
  {
    if galaxyReady then "opacity-100" else "opacity-0"
  }

  /** A nav button's class: highlighted or muted. */
  datatype NavStyle = Active | Idle

  /** An intersection-observer entry: its target's id and whether it intersects. */
  datatype Entry = Entry(targetId: string, isIntersecting: bool)

  /**
   * The nav buttons after highlighting button `idx`: each present button gets
   * the active class iff its position is `idx`; missing buttons stay missing.
   */
  function Highlighted(slots: seq<Option<NavStyle>>, idx: int): (r: seq<Option<NavStyle>>)
    ensures |r| == |slots|
    ensures forall i :: 0 <= i < |r| ==> (r[i].None? <==> slots[i].None?)
    ensures forall i :: 0 <= i < |r| ==> (r[i] == Some(Active) <==> slots[i].Some? && i == idx)
  {
    seq(|slots|, i requires 0 <= i < |slots| =>
      if slots[i].None? then None else Some(if i == idx then Active else Idle))
  }

  /** At most one button is active, and none when the section is not in the nav (`idx == -1`). */
  lemma AtMostOneActive(slots: seq<Option<NavStyle>>, idx: int, i: nat, j: nat)
    requires i < |slots| && j < |slots|
    requires Highlighted(slots, idx)[i] == Some(Active) && Highlighted(slots, idx)[j] == Some(Active)
    ensures i == j && idx == i
  {
  }

  /** Highlighting depends only on which buttons exist, so the last highlight wins. */
  lemma HighlightLastWins(slots: seq<Option<NavStyle>>, a: int, b: int)
    ensures Highlighted(Highlighted(slots, a), b) == Highlighted(slots, b)
  {
  }

  /** The target id of the last intersecting entry, if any. */
  function LastIntersecting(entries: seq<Entry>): Option<string> {
    if entries == [] then None
    else if entries[|entries| - 1].isIntersecting then Some(entries[|entries| - 1].targetId)
    else LastIntersecting(entries[..|entries| - 1])
  }

  /** The nav buttons after `entries`: highlighted for the last intersecting section, if any. */
  function NavAfter(before: seq<Option<NavStyle>>, entries: seq<Entry>): seq<Option<NavStyle>> {
    match LastIntersecting(entries)
    case None => before
    case Some(id) => Highlighted(before, IndexOf(NAV_SECTIONS, id))
  }

  /** The ids of the intersecting entries. */
  function IntersectingIds(entries: seq<Entry>): set<string> {
    set e | e in entries && e.isIntersecting :: e.targetId
  }

  /** One more entry: an intersecting one adds its id and re-highlights; any other changes nothing. */
  lemma NavAfterStep(before: seq<Option<NavStyle>>, entries: seq<Entry>, e: Entry)
    ensures NavAfter(before, entries + [e]) ==
      if e.isIntersecting then Highlighted(NavAfter(before, entries), IndexOf(NAV_SECTIONS, e.targetId))
      else NavAfter(before, entries)
    ensures IntersectingIds(entries + [e]) ==
      IntersectingIds(entries) + (if e.isIntersecting then {e.targetId} else {})
  {
  }

  /** The nav-button loop: set each present button's class for the highlighted index. */
  method HighlightNav(buttons: array<Option<NavStyle>>, idx: int)
    modifies buttons
    ensures buttons[..] == Highlighted(old(buttons[..]), idx)
  {
    ghost var before := buttons[..];
    var i := 0;
    while i < buttons.Length
      invariant 0 <= i <= buttons.Length
      invariant forall k :: 0 <= k < i ==> buttons[k] == Highlighted(before, idx)[k]
      invariant forall k :: i <= k < buttons.Length ==> buttons[k] == before[k]
    {
      if buttons[i].Some? {
        buttons[i] := Some(if i == idx then Active else Idle);
      }
      i := i + 1;
    }
  }

  /** `Home`: the galaxy-ready latch, the delayed comet, and the section observer. */
  class Home {
    var galaxyReady: bool
    var showComet: bool
    /** The pending 1200 ms comet timeout, as its due time. */
    var cometDue: Option<real>
    var observing: bool
    /** The page is mounted; React drops state updates once it is not. */
    var mounted: bool
    /** Ids of sections that gained `animate-fade-in-up`. */
    var fadedIn: set<string>
    /** The nav buttons' classes, by position; None where the ref holds null. */
    const nav: array<Option<NavStyle>>
    ghost var readyAt: real
    ghost var shownAt: real

    ghost predicate Valid()
      reads this
    {
      && (showComet ==> galaxyReady && readyAt + COMET_DELAY <= shownAt)
      && (cometDue.Some? ==> galaxyReady && !showComet && cometDue.value == readyAt + COMET_DELAY)
      && (cometDue.Some? ==> mounted)
      && (observing ==> mounted)
      && nav.Length == |NAV_SECTIONS|
    }

    /** Whether the page renders the comet overlay. */
    function RendersComet(): (r: bool)
      reads this
      ensures Valid() && r ==> galaxyReady && HeroOpacity(galaxyReady) == "opacity-100"
    {
      showComet
    }

    constructor ()
      ensures Valid() && fresh(nav)
      ensures !galaxyReady && !showComet && cometDue == None && observing && mounted && fadedIn == {}
      ensures nav[..] == [Some(Idle), Some(Idle), Some(Idle)]
    {
      galaxyReady, showComet, cometDue, observing, mounted, fadedIn := false, false, None, true, true, {};
      nav := new Option<NavStyle>[3](_ => Some(Idle));
      readyAt, shownAt := 0.0, 0.0;
      new;
      assert nav[..] == [nav[0], nav[1], nav[2]];
    }

    /**
     * `handleGalaxyReady` at time `now`: while mounted, latch ready and, the
     * first time, schedule the comet; after unmount the update is dropped.
     */
    method HandleGalaxyReady(now: real)
      requires Valid()
      modifies this
      ensures Valid()
      ensures !old(mounted) || old(galaxyReady) ==> unchanged(this)
      ensures old(mounted) ==> galaxyReady && HeroOpacity(galaxyReady) == "opacity-100"
      ensures old(mounted) && !old(galaxyReady) ==> cometDue == Some(now + COMET_DELAY) && !showComet
      ensures fadedIn == old(fadedIn) && observing == old(observing) && mounted == old(mounted)
    {
      if mounted && !galaxyReady {
        galaxyReady := true;
        readyAt := now;
        cometDue := Some(now + COMET_DELAY);
      }
    }

    /** Time reaches `now`: the comet timeout fires when it is due. */
    method OnTimersDue(now: real)
      requires Valid()
      modifies this
      ensures Valid()
      ensures galaxyReady == old(galaxyReady) && (old(showComet) ==> showComet)
      ensures old(cometDue).Some? && old(cometDue).value <= now ==> showComet && cometDue == None
      ensures !(old(cometDue).Some? && old(cometDue).value <= now) ==> unchanged(this)
      ensures !old(mounted) ==> unchanged(this)
      ensures observing == old(observing) && mounted == old(mounted) && fadedIn == old(fadedIn)
      ensures RendersComet() ==> galaxyReady && HeroOpacity(galaxyReady) == "opacity-100"
    {
      if cometDue.Some? && cometDue.value <= now {
        showComet := true;
        shownAt := now;
        cometDue := None;
      }
    }

    /** The section observer reports `entries`, in order. */
    method OnSectionEntries(entries: seq<Entry>)
      requires Valid()
      modifies this`fadedIn, nav
      ensures Valid()
      ensures !observing ==> fadedIn == old(fadedIn) && nav[..] == old(nav[..])
      ensures observing ==> fadedIn == old(fadedIn) + IntersectingIds(entries)
      ensures observing ==> nav[..] == NavAfter(old(nav[..]), entries)
    {
      if !observing {
        return;
      }
      ghost var before := nav[..];
      var i := 0;
      while i < |entries|
        invariant 0 <= i <= |entries|
        invariant fadedIn == old(fadedIn) + IntersectingIds(entries[..i])
        invariant nav[..] == NavAfter(before, entries[..i])
      {
        var entry := entries[i];
        assert entries[..i + 1] == entries[..i] + [entry];
        NavAfterStep(before, entries[..i], entry);
        if entry.isIntersecting {
          fadedIn := fadedIn + {entry.targetId};
          HighlightNav(nav, IndexOf(NAV_SECTIONS, entry.targetId));
        }
        i := i + 1;
      }
      assert entries[..i] == entries;
    }

    /** Unmount cleanup: clear the pending comet timeout and disconnect the observer. */
    method Unmount()
      requires Valid()
      modifies this
      ensures Valid()
      ensures cometDue == None && !observing && !mounted
      ensures galaxyReady == old(galaxyReady) && showComet == old(showComet) && fadedIn == old(fadedIn)
    {
      cometDue := None;
      observing := false;
      mounted := false;
    }
  }

  const IFRAME_WIDTH: real := 1920.0
  const IFRAME_HEIGHT: real := 1200.0
  /** Width of the preview thumbnail, in pixels. */
  const THUMBNAIL_WIDTH: real := 256.0

  /** `updateScale`: the largest scale at which the 1920x1200 frame fits the container. */
  function ModalScale(w: real, h: real): (s: real)
    ensures s * IFRAME_WIDTH <= w && s * IFRAME_HEIGHT <= h
    ensures s * IFRAME_WIDTH == w || s * IFRAME_HEIGHT == h
  {
    var sw, sh := w / IFRAME_WIDTH, h / IFRAME_HEIGHT;
    if sw <= sh then sw else sh
  }

  /** `thumbnailScale`: the frame scaled to the thumbnail's width. */
  function ThumbnailScale(): (s: real)
    ensures s * IFRAME_WIDTH == THUMBNAIL_WIDTH
  {
    THUMBNAIL_WIDTH / IFRAME_WIDTH
  }

  /** `IframePreview`: the modal's scale follows its container while the modal is open. */
  class IframePreview {
    var isOpen: bool
    var modalScale: real
    /** The container's resize observer is connected. */
    var observing: bool

    /** The observer is connected exactly while the modal is open. */
    ghost predicate Valid()
      reads this
    {
      observing == isOpen
    }

    constructor ()
      ensures Valid()
      ensures !isOpen && modalScale == 0.5 && !observing
    {
      isOpen, modalScale, observing := false, 0.5, false;
    }

    /** Open the modal over a container of `w` by `h`: scale at once, then observe the container. */
    method Open(w: real, h: real)
      requires Valid()
      modifies this
      ensures Valid() && isOpen && observing
      ensures !old(isOpen) ==> modalScale == ModalScale(w, h)
      ensures old(isOpen) ==> unchanged(this)
    {
      if !isOpen {
        isOpen := true;
        modalScale := ModalScale(w, h);
        observing := true;
      }
    }

    /** The container is resized to `w` by `h`. */
    method OnContainerResize(w: real, h: real)
      requires Valid()
      modifies this
      ensures Valid()
      ensures observing ==> modalScale == ModalScale(w, h)
      ensures !old(observing) ==> unchanged(this)
      ensures isOpen == old(isOpen) && observing == old(observing)
    {
      if observing {
        modalScale := ModalScale(w, h);
      }
    }

    /** Close the modal: the observer is disconnected; the last scale is kept. */
    method Close()
      modifies this
      ensures Valid() && !isOpen && !observing && modalScale == old(modalScale)
    {
      isOpen := false;
      observing := false;
    }
  }
}
