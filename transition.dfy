/**
 * The level-transition controller of the map component
 * (components/MapFrame.tsx): the `isZooming` / `isIframeReady` state, the
 * `prevActiveIdRef` and `timeoutRef` refs, and the browser's pending zoom
 * timers. The effect runs whenever `activeId` changes; before it runs, the
 * cleanup of the previous run cancels the timer held in `timeoutRef`.
 */
module Transition {
  import opened Types
  import opened LocationTree
  import MapView

  /** Duration of the zoom-in, in milliseconds; time itself is not modelled, only the timer firing. */
  const ZoomDelayMs := 1500

  /**
   * The controller's state. `timeoutRef` holds the id of the last timer set
   * (it is not cleared by the cleanup, so it may name a cancelled timer);
   * `pending` holds the timers the browser will still fire; timer ids are
   * handed out from `nextTimer` on.
   */
  datatype Frame = Frame(
    prevId: Id,
    isZooming: bool,
    isIframeReady: bool,
    timeoutRef: Option<nat>,
    pending: set<nat>,
    nextTimer: nat)

  /** `if (timeoutRef.current) window.clearTimeout(timeoutRef.current)`: the ref itself keeps its value. */
  function ClearTimeout(f: Frame): (r: Frame)
    ensures r == f.(pending := r.pending)
    ensures f.timeoutRef.Some? ==> f.timeoutRef.value !in r.pending
    ensures r.pending <= f.pending
    ensures f.pending - r.pending <= (if f.timeoutRef.Some? then {f.timeoutRef.value} else {})
  {
    match f.timeoutRef
    case None => f
    case Some(timer) => f.(pending := f.pending - {timer})
  }

  /**
   * One run of the effect for the new `activeId`: an unknown previous id is
   * only recorded; country to below-country starts the zoom and arms a fresh
   * timer; reaching the country clears both flags; any other move shows the
   * map only when no zoom is under way.
   */
  function EffectRun(t: Table, f: Frame, activeId: Id): (r: Frame)
    requires activeId in Index(t)
    ensures r.prevId == activeId
    ensures r.pending <= f.pending + {f.nextTimer}
    ensures f.nextTimer <= r.nextTimer <= f.nextTimer + 1
  {
    if f.prevId !in Index(t) then f.(prevId := activeId)
    else
      var prevLevel := Index(t)[f.prevId].level;
      var level := Index(t)[activeId].level;
      var g :=
        if prevLevel == Country && level != Country then
          var c := ClearTimeout(f);
          c.(isZooming := true, isIframeReady := false,
             timeoutRef := Some(c.nextTimer), pending := c.pending + {c.nextTimer},
             nextTimer := c.nextTimer + 1)
        else if level == Country then
          ClearTimeout(f).(isZooming := false, isIframeReady := false)
        else if !f.isZooming then f.(isIframeReady := true)
        else f;
      g.(prevId := activeId)
  }

  /** The component's first render: both flags false, the ref set to `activeId`, then the effect's first run. */
  function MountFrame(t: Table, activeId: Id): (r: Frame)
    requires activeId in Index(t)
    ensures r.prevId == activeId && !r.isZooming && r.pending == {} && r.nextTimer == 1
    ensures r.isIframeReady <==> Index(t)[activeId].level != Country
  {
    EffectRun(t, Frame(activeId, false, false, None, {}, 1), activeId)
  }

  /** A render with a new `activeId`: the previous run's cleanup, then the effect; an unchanged id runs nothing. */
  function NavigateFrame(t: Table, f: Frame, activeId: Id): (r: Frame)
    requires activeId in Index(t)
    ensures r.prevId == activeId
    ensures activeId == f.prevId ==> r == f
    ensures r.pending <= f.pending + {f.nextTimer} && r.nextTimer >= f.nextTimer
  {
    if activeId == f.prevId then f else EffectRun(t, ClearTimeout(f), activeId)
  }

  /** The zoom timer's callback: the zoom ends, the map is shown and the ref is emptied. */
  function FireFrame(f: Frame, timer: nat): (r: Frame)
    requires timer in f.pending
    ensures timer !in r.pending && r.pending < f.pending
    ensures !r.isZooming && r.isIframeReady && r.timeoutRef.None?
    ensures r.prevId == f.prevId && r.nextTimer == f.nextTimer
  {
    f.(isZooming := false, isIframeReady := true, timeoutRef := None, pending := f.pending - {timer})
  }

  /**
   * What holds between events: the two flags are never both set, both are
   * clear at the country level and exactly one is set below it, and a timer
   * is pending only during a zoom, and then it is the one the ref names.
   */
  ghost predicate FrameOk(t: Table, f: Frame)
  {
    && f.prevId in Index(t)
    && !(f.isZooming && f.isIframeReady)
    && (Index(t)[f.prevId].level == Country ==> !f.isZooming && !f.isIframeReady)
    && (Index(t)[f.prevId].level != Country ==> f.isZooming || f.isIframeReady)
    && (f.pending != {} ==> f.isZooming && f.timeoutRef.Some? && f.pending == {f.timeoutRef.value})
  }

  /** At most one timer is pending at any time. */
  lemma AtMostOneTimer(t: Table, f: Frame)
    requires FrameOk(t, f)
    ensures |f.pending| <= 1
    ensures f.pending != {} ==> Index(t)[f.prevId].level != Country
  {
  }

  /** The first render leaves the controller consistent with the location it starts on. */
  lemma MountOk(t: Table, activeId: Id)
    requires activeId in Index(t)
    ensures FrameOk(t, MountFrame(t, activeId))
    ensures MountFrame(t, activeId).prevId == activeId
    ensures MountFrame(t, activeId).pending == {}
  {
  }

  /** Every navigation keeps the invariant and records the new id. */
  lemma NavigateOk(t: Table, f: Frame, activeId: Id)
    requires FrameOk(t, f) && activeId in Index(t)
    ensures FrameOk(t, NavigateFrame(t, f, activeId))
    ensures NavigateFrame(t, f, activeId).prevId == activeId
  {
  }

  /** The timer firing keeps the invariant and leaves nothing pending. */
  lemma FireOk(t: Table, f: Frame, timer: nat)
    requires FrameOk(t, f) && timer in f.pending
    ensures FrameOk(t, FireFrame(f, timer))
    ensures FireFrame(f, timer).pending == {}
  {
  }

  /**
   * Zoom-in: leaving the country starts the zoom and arms exactly one fresh
   * timer; when that timer fires the zoom is over and the map is shown.
   */
  lemma ZoomInThenFire(t: Table, f: Frame, activeId: Id)
    requires FrameOk(t, f) && activeId in Index(t)
    requires Index(t)[f.prevId].level == Country && Index(t)[activeId].level != Country
    ensures var g := NavigateFrame(t, f, activeId);
      && g.isZooming && !g.isIframeReady
      && g.timeoutRef == Some(f.nextTimer) && g.pending == {f.nextTimer}
      && var h := FireFrame(g, f.nextTimer);
         !h.isZooming && h.isIframeReady && h.pending == {} && h.prevId == activeId
  {
    assert f.pending == {};
  }

  /** Zoom-out: reaching the country clears both flags at once and leaves no timer pending. */
  lemma ZoomOutIsImmediate(t: Table, f: Frame, activeId: Id)
    requires FrameOk(t, f) && activeId in Index(t) && Index(t)[activeId].level == Country
    ensures var g := NavigateFrame(t, f, activeId);
      !g.isZooming && !g.isIframeReady && g.pending == {}
  {
  }

  /** Out of a zoom, a move between locations below the country keeps the map shown. */
  lemma LateralMoveWhenSettled(t: Table, f: Frame, activeId: Id)
    requires FrameOk(t, f) && activeId in Index(t) && !f.isZooming
    requires Index(t)[f.prevId].level != Country && Index(t)[activeId].level != Country
    ensures var g := NavigateFrame(t, f, activeId);
      !g.isZooming && g.isIframeReady && g.pending == {}
  {
  }

  /** A zoom whose timer has been cancelled: nothing but a zoom-out can end it. */
  predicate Stalled(f: Frame)
  {
    f.isZooming && f.pending == {}
  }

  /**
   * A move below the country level while a zoom is under way cancels the
   * zoom's timer and leaves the zoom on: the controller is stalled, and the
   * map draws no pins.
   */
  lemma LateralMoveDuringZoomStalls(t: Table, f: Frame, activeId: Id)
    requires WellFormed(t) && FrameOk(t, f) && activeId in Index(t) && activeId != f.prevId
    requires f.isZooming && Index(t)[activeId].level != Country
    ensures Stalled(NavigateFrame(t, f, activeId))
    ensures MapView.VisiblePins(t, activeId, NavigateFrame(t, f, activeId).isZooming) == []
  {
    assert f.timeoutRef.Some? ==> f.timeoutRef.value !in ClearTimeout(f).pending;
  }

  /** One move below the country level keeps a stall, whether or not the id changes. */
  lemma StallStep(t: Table, f: Frame, activeId: Id)
    requires FrameOk(t, f) && Stalled(f) && activeId in Index(t) && Index(t)[activeId].level != Country
    ensures FrameOk(t, NavigateFrame(t, f, activeId)) && Stalled(NavigateFrame(t, f, activeId))
  {
    NavigateOk(t, f, activeId);
  }

  /** The controller after the map has been shown each of `ids` in turn. */
  function NavigateAll(t: Table, f: Frame, ids: seq<Id>): (r: Frame)
    requires forall id :: id in ids ==> id in Index(t)
    ensures ids != [] ==> r.prevId == ids[|ids| - 1]
    ensures ids == [] ==> r == f
    decreases |ids|
  {
    if ids == [] then f
    else
      assert forall id :: id in ids[1..] ==> id in ids;
      NavigateAll(t, NavigateFrame(t, f, ids[0]), ids[1..])
  }

  /** Once stalled, any run of moves below the country level stays stalled, with no pins and no pending timer. */
  lemma {:induction false} StallPersists(t: Table, f: Frame, ids: seq<Id>)
    requires FrameOk(t, f) && Stalled(f)
    requires forall id :: id in ids ==> id in Index(t) && Index(t)[id].level != Country
    ensures FrameOk(t, NavigateAll(t, f, ids)) && Stalled(NavigateAll(t, f, ids))
    decreases |ids|
  {
    if ids != [] {
      assert ids[0] in ids;
      var g := NavigateFrame(t, f, ids[0]);
      StallStep(t, f, ids[0]);
      assert forall id :: id in ids[1..] ==> id in ids;
      assert NavigateAll(t, f, ids) == NavigateAll(t, g, ids[1..]);
      StallPersists(t, g, ids[1..]);
    }
  }

  /**
   * The map component's transition state as the component holds it: React
   * state, refs and the browser's pending timers, updated step by step.
   */
  class MapFrame {
    /** The `LOCATIONS` table the component reads. */
    const locations: Table
    /** `prevActiveIdRef.current` */
    var prevActiveId: Id
    var isZooming: bool
    var isIframeReady: bool
    /** `timeoutRef.current` */
    var timeoutRef: Option<nat>
    /** Timers armed and neither cleared nor fired yet. */
    var pending: set<nat>
    var nextTimer: nat

    function State(): Frame
      reads this
    {
      Frame(prevActiveId, isZooming, isIframeReady, timeoutRef, pending, nextTimer)
    }

    ghost predicate Valid()
      reads this
    {
      FrameOk(locations, State())
    }

    /** First render with `activeId`, followed by the effect's first run. */
    constructor (locations: Table, activeId: Id)
      requires activeId in Index(locations)
      ensures this.locations == locations
      ensures Valid() && State() == MountFrame(locations, activeId)
    {
      this.locations := locations;
      prevActiveId := activeId;
      isZooming, isIframeReady := false, false;
      timeoutRef, pending, nextTimer := None, {}, 1;
      new;
      RunEffect(activeId);
      MountOk(locations, activeId);
    }

    /** The effect's cleanup and the explicit clears: cancel the timer the ref names, if any. */
    method ClearPendingTimeout()
      modifies this`pending
      ensures State() == ClearTimeout(old(State()))
    {
      if timeoutRef.Some? {
        pending := pending - {timeoutRef.value};
      }
    }

    /** The effect body for the new `activeId`, branch by branch. */
    method RunEffect(activeId: Id)
      requires activeId in Index(locations)
      modifies this
      ensures State() == EffectRun(locations, old(State()), activeId)
    {
      var index := Index(locations);
      if prevActiveId !in index {
        prevActiveId := activeId;
        return;
      }
      var prevLevel := index[prevActiveId].level;
      var level := index[activeId].level;
      if prevLevel == Country && level != Country {
        isZooming := true;
        isIframeReady := false;
        ClearPendingTimeout();
        timeoutRef := Some(nextTimer);
        pending := pending + {nextTimer};
        nextTimer := nextTimer + 1;
      } else if level == Country {
        ClearPendingTimeout();
        isZooming := false;
        isIframeReady := false;
      } else if !isZooming {
        isIframeReady := true;
      }
      prevActiveId := activeId;
    }

    /** A render with `activeId`: when it differs from the last one, the cleanup runs and then the effect. */
    method Navigate(activeId: Id)
      requires Valid() && activeId in Index(locations)
      modifies this
      ensures Valid()
      ensures State() == NavigateFrame(locations, old(State()), activeId)
    {
      ghost var before := State();
      if activeId != prevActiveId {
        ClearPendingTimeout();
        RunEffect(activeId);
      }
      NavigateOk(locations, before, activeId);
    }

    /** The browser fires the pending zoom timer. */
    method FireTimer(timer: nat)
      requires Valid() && timer in pending
      modifies this
      ensures Valid()
      ensures State() == FireFrame(old(State()), timer)
    {
      ghost var before := State();
      isZooming := false;
      isIframeReady := true;
      timeoutRef := None;
      pending := pending - {timer};
      FireOk(locations, before, timer);
    }
  }
}
