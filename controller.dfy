/**
  The overscroll stretch controller as the object it is: four fields updated
  in place by the gesture handlers, the release and the deferred reset. Each
  method is specified by the matching transition function of module
  ControllerState, whose lemmas carry the controller's promises.

  The composition visual is held as a value in the field `visual`; the
  animation groups handed to the compositor and the resets scheduled on the
  UI timer are recorded in ghost fields.
*/
module StretchEdgeEffect {
  import opened StretchMath
  import ControllerState

  /** A scroll-gesture update: its delta is fixed, its two flags are settable. */
  class ScrollGestureEventArgs {
    const deltaX: real
    const deltaY: real
    var handled: bool
    var shouldEndScrollGesture: bool

    constructor (deltaX: real, deltaY: real, handled: bool)
      ensures this.deltaX == deltaX && this.deltaY == deltaY
      ensures this.handled == handled && !shouldEndScrollGesture
    {
      this.deltaX := deltaX;
      this.deltaY := deltaY;
      this.handled := handled;
      shouldEndScrollGesture := false;
    }

    function Flags(): ControllerState.GestureFlags
      reads this
    {
      ControllerState.GestureFlags(handled, shouldEndScrollGesture)
    }
  }

  class StretchEdgeEffectController {
    var stretchY: real
    var isStretched: bool
    var isReleasing: bool
    var stretchedBottom: bool
    var visual: ControllerState.Visual
    ghost var started: seq<ControllerState.AnimationGroup>
    ghost var pendingResets: nat

    ghost function Snapshot(): ControllerState.State
      reads this
    {
      ControllerState.State(stretchY, isStretched, isReleasing, stretchedBottom, visual, started, pendingResets)
    }

    ghost predicate Valid()
      reads this
    {
      ControllerState.Inv(Snapshot())
    }

    constructor (child: ControllerState.Visual)
      ensures Valid() && Snapshot() == ControllerState.Initial(child)
    {
      stretchY := RestStretch;
      isStretched := false;
      isReleasing := false;
      stretchedBottom := false;
      visual := child;
      started := [];
      pendingResets := 0;
    }

    /** A scroll-gesture update; one already handled elsewhere forces a release. */
    method OnScrollGesture(e: ScrollGestureEventArgs)
      requires Valid()
      modifies this, e
      ensures Valid()
      ensures (Snapshot(), e.Flags()) == ControllerState.OnScrollGesture(old(Snapshot()), e.deltaY, old(e.Flags()))
    {
      if e.handled {
        ReleaseStretch();
        ControllerState.ReleasePreservesInv(old(Snapshot()));
        return;
      }
      StretchVertically(e);
      ControllerState.StretchPreservesInv(old(Snapshot()), e.deltaY, old(e.Flags()));
    }

    /** The end of a scroll gesture always asks for a release. */
    method OnScrollGestureEnded()
      requires Valid()
      modifies this
      ensures Valid()
      ensures Snapshot() == ControllerState.OnScrollGestureEnded(old(Snapshot()))
    {
      ReleaseStretch();
      ControllerState.ReleasePreservesInv(old(Snapshot()));
    }

    /** Turns one vertical delta into an eased, capped increase of the stretch factor. */
    method StretchVertically(e: ScrollGestureEventArgs)
      requires RestStretch <= stretchY <= MaxStretch
      modifies this, e
      ensures (Snapshot(), e.Flags()) == ControllerState.Stretch(old(Snapshot()), e.deltaY, old(e.Flags()))
    {
      if isReleasing {
        return;
      }
      if e.deltaY == 0.0 {
        return;
      }
      var ease := EaseOutCubic((stretchY - 1.0) * (1.0 / (MaxStretch - 1.0)));
      assert ResistanceBase + ease * ResistanceSlope == Resistance(stretchY);
      stretchY := stretchY + Abs(e.deltaY) / (ResistanceBase + ease * ResistanceSlope);
      if stretchY >= MaxStretch {
        stretchY := MaxStretch;
      }
      e.handled := true;
      e.shouldEndScrollGesture := true;
      stretchedBottom := e.deltaY >= 0.0;
      ApplyStretchTransform(stretchY);
    }

    /** Puts the controller back at rest; the edge flag is kept. */
    method ResetStretch()
      modifies this
      ensures Snapshot() == ControllerState.Reset(old(Snapshot()))
    {
      stretchY := RestStretch;
      isStretched := false;
      isReleasing := false;
    }

    /** Writes pivot, scale and (for the bottom edge) offset for factor `value`. */
    method ApplyStretchTransform(value: real)
      modifies this
      ensures Snapshot() == ControllerState.ApplyStretch(old(Snapshot()), value)
    {
      isStretched := true;
      visual := visual.(centerPoint := ControllerState.Zero3, scale := ControllerState.Vec3(1.0, value, 1.0));
      if stretchedBottom {
        visual := visual.(offset := ControllerState.Vec3(0.0, -(visual.height * (value - 1.0)), 0.0));
      }
    }

    /**
      Starts the release animation group and schedules the deferred reset,
      unless not stretched or already releasing.
    */
    method ReleaseStretch()
      modifies this
      ensures Snapshot() == ControllerState.Release(old(Snapshot()))
    {
      if !isStretched {
        return;
      }
      if isReleasing {
        return;
      }
      isReleasing := true;
      ghost var group := [ControllerState.KeyFrameAnimation(
        ControllerState.ScaleProperty, visual.scale, ControllerState.One3, ReleaseDurationMs)];
      if stretchedBottom {
        group := group + [ControllerState.KeyFrameAnimation(
          ControllerState.OffsetProperty, visual.offset, ControllerState.Zero3, ReleaseDurationMs)];
      }
      assert group == ControllerState.ReleaseGroup(visual, stretchedBottom);
      started := started + [group];
      pendingResets := pendingResets + 1;
    }

    /** The UI timer runs the reset that a release scheduled. */
    method TimerFires()
      requires Valid() && pendingResets > 0
      modifies this
      ensures Valid()
      ensures Snapshot() == ControllerState.TimerFires(old(Snapshot()))
    {
      pendingResets := pendingResets - 1;
      ResetStretch();
      ControllerState.TimerFiresPreservesInv(old(Snapshot()));
    }
  }

  /** One full gesture cycle, using only the controller's specifications. */
  method GestureCycle(child: ControllerState.Visual)
  {
    var c := new StretchEdgeEffectController(child);
    var e := new ScrollGestureEventArgs(0.0, 10.0, false);
    c.OnScrollGesture(e);
    SmallDragFromRest();
    assert c.stretchY == 1.01 && e.handled && e.shouldEndScrollGesture;
    c.OnScrollGestureEnded();
    c.OnScrollGestureEnded();
    assert |c.started| == 1 && c.pendingResets == 1;
    c.TimerFires();
    assert c.stretchY == RestStretch && !c.isStretched && !c.isReleasing && c.stretchedBottom;
  }
}
