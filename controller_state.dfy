/**
  The stretch controller's state as a value, and one transition function per
  thing that can happen to it: a scroll-gesture update, a gesture end, and
  the deferred reset firing. The class in module StretchEdgeEffect updates
  its fields in place and is specified by these functions; the lemmas here
  state what the controller promises about them.
*/
module ControllerState {
  import opened StretchMath

  datatype Vec3 = Vec3(x: real, y: real, z: real)

  const Zero3: Vec3 := Vec3(0.0, 0.0, 0.0)
  const One3: Vec3 := Vec3(1.0, 1.0, 1.0)

  /**
    The properties of the decorated child's composition visual that the
    controller reads or writes. `height` is the visual's vertical size.
  */
  datatype Visual = Visual(centerPoint: Vec3, scale: Vec3, offset: Vec3, height: real)

  datatype AnimatedProperty = ScaleProperty | OffsetProperty

  /**
    A request to the compositor: animate `target` from `from` to `to` over
    `durationMs` along the cubic ease-out curve.
  */
  datatype KeyFrameAnimation = KeyFrameAnimation(target: AnimatedProperty, from: Vec3, to: Vec3, durationMs: nat)

  type AnimationGroup = seq<KeyFrameAnimation>

  /** The flags of a scroll-gesture update that handlers may set. */
  datatype GestureFlags = GestureFlags(handled: bool, shouldEndScrollGesture: bool)

  /**
    The controller's four fields, the visual it writes, the animation groups
    it has handed to the compositor (oldest first) and the number of deferred
    resets scheduled but not yet run.
  */
  datatype State = State(
    stretchY: real,
    isStretched: bool,
    isReleasing: bool,
    stretchedBottom: bool,
    visual: Visual,
    started: seq<AnimationGroup>,
    pendingResets: nat)

  datatype Phase = Idle | Stretching | Releasing

  function PhaseOf(s: State): Phase
  {
    if !s.isStretched then Idle else if s.isReleasing then Releasing else Stretching
  }

  /** The state the controller is constructed in, for a given visual. */
  function Initial(v: Visual): (r: State)
    ensures PhaseOf(r) == Idle && !r.isReleasing && !r.stretchedBottom
    ensures r.stretchY == RestStretch && r.visual == v
    ensures r.started == [] && r.pendingResets == 0
  {
    State(RestStretch, false, false, false, v, [], 0)
  }

  /** The vertical offset that keeps bottom-stretched content attached to the bottom edge. */
  function BottomOffset(height: real, factor: real): Vec3
  {
    Vec3(0.0, -(height * (factor - 1.0)), 0.0)
  }

  /**
    The controller's invariant: the factor stays in [1, 1.05]; releasing
    implies stretched; the controller is stretched exactly when the factor is
    above rest; exactly one
    reset is pending while releasing and none otherwise; and while actively
    stretching, the visual shows the current factor.
  */
  ghost predicate Inv(s: State)
  {
    && RestStretch <= s.stretchY <= MaxStretch
    && (s.isReleasing ==> s.isStretched)
    && (!s.isStretched ==> s.stretchY == RestStretch)
    && (s.isStretched ==> s.stretchY > RestStretch)
    && s.pendingResets == (if s.isReleasing then 1 else 0)
    && (PhaseOf(s) == Stretching ==>
          && s.visual.centerPoint == Zero3
          && s.visual.scale == Vec3(1.0, s.stretchY, 1.0)
          && (s.stretchedBottom ==> s.visual.offset == BottomOffset(s.visual.height, s.stretchY)))
  }

  /** The transform write for factor `value` (StretchVertically(double)). */
  function ApplyStretch(s: State, value: real): (r: State)
    ensures r.isStretched
    ensures r.visual.centerPoint == Zero3 && r.visual.scale == Vec3(1.0, value, 1.0)
    ensures r.visual.height == s.visual.height
    ensures r.visual.offset == if s.stretchedBottom then BottomOffset(s.visual.height, value) else s.visual.offset
    ensures r.(isStretched := s.isStretched, visual := s.visual) == s
  {
    var v := s.visual.(centerPoint := Zero3, scale := Vec3(1.0, value, 1.0));
    var v' := if s.stretchedBottom then v.(offset := BottomOffset(v.height, value)) else v;
    s.(isStretched := true, visual := v')
  }

  /**
    A scroll-gesture update that reached the stretch step
    (StretchVertically(ScrollGestureEventArgs)). Returns the new state and
    the event's flags afterwards.
  */
  function Stretch(s: State, dy: real, flags: GestureFlags): (r: (State, GestureFlags))
    requires RestStretch <= s.stretchY <= MaxStretch
    ensures s.stretchY <= r.0.stretchY <= MaxStretch
    ensures r.0.isReleasing == s.isReleasing
    ensures r.0.started == s.started && r.0.pendingResets == s.pendingResets
    ensures r.1.handled <==> flags.handled || (!s.isReleasing && dy != 0.0)
    ensures r.0.isStretched <==> s.isStretched || (!s.isReleasing && dy != 0.0)
  {
    if s.isReleasing || dy == 0.0 then (s, flags)
    else
      var y := NextStretch(s.stretchY, dy);
      (ApplyStretch(s.(stretchY := y, stretchedBottom := dy >= 0.0), y), GestureFlags(true, true))
  }

  /** The animation group a release hands to the compositor. */
  function ReleaseGroup(v: Visual, stretchedBottom: bool): (g: AnimationGroup)
    ensures |g| > 0 && g[0].target == ScaleProperty
    ensures forall a <- g :: a.durationMs == ReleaseDurationMs
    ensures forall a <- g :: a.target == ScaleProperty ==> a.from == v.scale && a.to == One3
    ensures forall a <- g :: a.target == OffsetProperty ==> a.from == v.offset && a.to == Zero3
    ensures (exists a <- g :: a.target == OffsetProperty) <==> stretchedBottom
    ensures |g| == if stretchedBottom then 2 else 1
  {
    var scaling := KeyFrameAnimation(ScaleProperty, v.scale, One3, ReleaseDurationMs);
    if stretchedBottom then
      [scaling, KeyFrameAnimation(OffsetProperty, v.offset, Zero3, ReleaseDurationMs)]
    else
      [scaling]
  }

  /** ReleaseStretch: a no-op unless stretched and not already releasing. */
  function Release(s: State): (r: State)
    ensures r.stretchY == s.stretchY && r.isStretched == s.isStretched
    ensures r.stretchedBottom == s.stretchedBottom && r.visual == s.visual
    ensures r.isReleasing <==> s.isReleasing || s.isStretched
    ensures |r.started| == |s.started| + (if s.isStretched && !s.isReleasing then 1 else 0)
    ensures r.started[..|s.started|] == s.started
    ensures r.pendingResets - s.pendingResets == |r.started| - |s.started|
  {
    if !s.isStretched || s.isReleasing then s
    else s.(isReleasing := true,
            started := s.started + [ReleaseGroup(s.visual, s.stretchedBottom)],
            pendingResets := s.pendingResets + 1)
  }

  /** ResetStretch: back to rest; the edge flag and the visual are left alone. */
  function Reset(s: State): (r: State)
    ensures PhaseOf(r) == Idle && !r.isReleasing && r.stretchY == RestStretch
    ensures r.stretchedBottom == s.stretchedBottom && r.visual == s.visual
    ensures r.started == s.started && r.pendingResets == s.pendingResets
  {
    s.(stretchY := RestStretch, isStretched := false, isReleasing := false)
  }

  /** The deferred reset scheduled by a release runs. */
  function TimerFires(s: State): (r: State)
    requires s.pendingResets > 0
    ensures PhaseOf(r) == Idle && !r.isReleasing && r.stretchY == RestStretch
    ensures r.pendingResets == s.pendingResets - 1
    ensures r.stretchedBottom == s.stretchedBottom && r.visual == s.visual && r.started == s.started
  {
    Reset(s.(pendingResets := s.pendingResets - 1))
  }

  /** OnScrollGesture: an update already handled elsewhere forces a release. */
  function OnScrollGesture(s: State, dy: real, flags: GestureFlags): (r: (State, GestureFlags))
    requires RestStretch <= s.stretchY <= MaxStretch
    ensures flags.handled ==> r.1 == flags && r.0.stretchY == s.stretchY && r.0.visual == s.visual
    ensures flags.handled && s.isStretched ==> r.0.isReleasing
    ensures !flags.handled ==> r.0.started == s.started && r.0.pendingResets == s.pendingResets
    ensures s.stretchY <= r.0.stretchY
  {
    if flags.handled then (Release(s), flags) else Stretch(s, dy, flags)
  }

  /** OnScrollGestureEnded: always asks for a release. */
  function OnScrollGestureEnded(s: State): (r: State)
    ensures PhaseOf(s) == Stretching ==>
      r == s.(isReleasing := true,
              started := s.started + [ReleaseGroup(s.visual, s.stretchedBottom)],
              pendingResets := s.pendingResets + 1)
    ensures PhaseOf(s) == Stretching ==> PhaseOf(r) == Releasing && |r.started| == |s.started| + 1
    ensures PhaseOf(s) != Stretching ==> r == s
    ensures r.stretchY == s.stretchY
  {
    Release(s)
  }

  // ---------------------------------------------------------------------
  // Properties of single transitions

  lemma InitialIsValid(v: Visual)
    ensures Inv(Initial(v)) && PhaseOf(Initial(v)) == Idle
  {
  }

  /**
    An update while releasing, or with a zero vertical delta, changes neither
    the state (fields, visual, animations, timer) nor the event's flags.
  */
  lemma IgnoredUpdate(s: State, dy: real, flags: GestureFlags)
    requires RestStretch <= s.stretchY <= MaxStretch
    requires s.isReleasing || dy == 0.0
    ensures Stretch(s, dy, flags) == (s, flags)
  {
  }

  /**
    An accepted update raises the factor by the eased increment, capped at
    the maximum, consumes the event, records the edge and shows the new
    factor on the visual; nothing is animated and no timer is touched.
  */
  lemma AcceptedUpdate(s: State, dy: real, flags: GestureFlags)
    requires RestStretch <= s.stretchY <= MaxStretch
    requires !s.isReleasing && dy != 0.0
    ensures var (r, f) := Stretch(s, dy, flags);
      && f == GestureFlags(true, true)
      && s.stretchY <= r.stretchY <= MaxStretch
      && (var raised := s.stretchY + Abs(dy) / Resistance(s.stretchY);
          r.stretchY == if raised >= MaxStretch then MaxStretch else raised)
      && r.isStretched && !r.isReleasing
      && r.stretchedBottom == (dy >= 0.0)
      && r.visual.scale == Vec3(1.0, r.stretchY, 1.0)
      && r.visual.offset == (if dy >= 0.0 then BottomOffset(s.visual.height, r.stretchY) else s.visual.offset)
      && r.started == s.started && r.pendingResets == s.pendingResets
  {
  }

  /** Bottom-edge stretching offsets the visual by -height * (factor - 1). */
  lemma BottomStretchOffset(s: State, dy: real, flags: GestureFlags)
    requires RestStretch <= s.stretchY <= MaxStretch
    requires !s.isReleasing && dy > 0.0
    ensures var r := Stretch(s, dy, flags).0;
      r.visual.offset.y == -(s.visual.height * (r.stretchY - 1.0))
  {
  }

  lemma StretchPreservesInv(s: State, dy: real, flags: GestureFlags)
    requires Inv(s)
    ensures Inv(Stretch(s, dy, flags).0)
  {
  }

  lemma ReleasePreservesInv(s: State)
    requires Inv(s)
    ensures Inv(Release(s))
  {
  }

  lemma TimerFiresPreservesInv(s: State)
    requires Inv(s) && s.pendingResets > 0
    ensures Inv(TimerFires(s))
  {
  }

  /** Stretched exactly when the factor has left rest; releasing only when stretched. */
  lemma StretchedIffAboveRest(s: State)
    requires Inv(s)
    ensures s.isStretched <==> s.stretchY != RestStretch
    ensures PhaseOf(s) == Idle <==> s.stretchY == RestStretch
  {
  }

  /**
    An update already marked handled never stretches, even with a nonzero
    delta: it is exactly a release, and the flags are left as they were.
  */
  lemma HandledUpdateReleases(s: State, dy: real, flags: GestureFlags)
    requires RestStretch <= s.stretchY <= MaxStretch
    requires flags.handled
    ensures OnScrollGesture(s, dy, flags) == (Release(s), flags)
    ensures OnScrollGesture(s, dy, flags).0.stretchY == s.stretchY
  {
  }

  /** While stretched, a handled update starts the release. */
  lemma HandledUpdateWhileStretched(s: State, dy: real, flags: GestureFlags)
    requires Inv(s) && PhaseOf(s) == Stretching && flags.handled
    ensures var r := OnScrollGesture(s, dy, flags).0;
      PhaseOf(r) == Releasing && r.stretchY == s.stretchY && |r.started| == |s.started| + 1
  {
  }

  /**
    Release is effective exactly when stretched and not releasing; then it
    marks the controller as releasing, starts one group and schedules one
    reset; otherwise nothing changes.
  */
  lemma ReleaseEffect(s: State)
    ensures var r := Release(s);
      if s.isStretched && !s.isReleasing then
        && r.isReleasing
        && r.started == s.started + [ReleaseGroup(s.visual, s.stretchedBottom)]
        && r.pendingResets == s.pendingResets + 1
        && r.stretchY == s.stretchY && r.visual == s.visual && r.stretchedBottom == s.stretchedBottom
      else r == s
  {
  }

  /** Release is idempotent: a second call before the reset does nothing. */
  lemma ReleaseIdempotent(s: State)
    ensures Release(Release(s)) == Release(s)
  {
  }

  /** Two releases with no reset between them start one group and schedule one reset. */
  lemma DoubleReleaseStartsOneGroup(s: State)
    requires Inv(s) && PhaseOf(s) == Stretching
    ensures |Release(Release(s)).started| == |s.started| + 1
    ensures Release(Release(s)).pendingResets == 1
  {
  }

  /**
    The deferred reset after a release returns the controller to rest,
    keeps the edge flag, and leaves no reset pending.
  */
  lemma ReleaseThenResetRests(s: State)
    requires Inv(s) && PhaseOf(s) == Stretching
    ensures Release(s).pendingResets == 1
    ensures var r := TimerFires(Release(s));
      && r.stretchY == RestStretch && !r.isStretched && !r.isReleasing
      && r.stretchedBottom == s.stretchedBottom
      && r.pendingResets == 0
      && PhaseOf(r) == Idle
  {
  }

  /**
    A drag that turns from the bottom edge towards the top keeps stretching
    but stops updating the offset, and the release then animates the scale
    only: after the reset the visual is still shifted by the offset of the
    bottom-edge part of the drag.
  */
  lemma ReversedDragLeavesOffset(v: Visual, flags: GestureFlags)
    requires v.offset == Zero3 && v.height > 0.0
    ensures var s1 := Stretch(Initial(v), 10.0, flags).0;
      var s2 := Stretch(s1, -10.0, flags).0;
      var r := Release(s2);
      && s2.stretchY > s1.stretchY == 1.01
      && r.started == [[KeyFrameAnimation(ScaleProperty, Vec3(1.0, s2.stretchY, 1.0), One3, ReleaseDurationMs)]]
      && TimerFires(r).visual.offset == BottomOffset(v.height, 1.01)
      && TimerFires(r).visual.offset != Zero3
  {
    SmallDragFromRest();
  }

  // ---------------------------------------------------------------------
  // Event traces

  /** Everything that can happen to a controller. */
  datatype Event =
    | ScrollUpdate(dy: real, flags: GestureFlags)
    | ScrollEnded
    | ResetTimer

  /**
    One event. The reset timer only fires a reset that was scheduled; a tick
    with nothing pending does nothing.
  */
  function Step(s: State, e: Event): State
    requires RestStretch <= s.stretchY <= MaxStretch
  {
    match e
    case ScrollUpdate(dy, flags) => OnScrollGesture(s, dy, flags).0
    case ScrollEnded => OnScrollGestureEnded(s)
    case ResetTimer => if s.pendingResets > 0 then TimerFires(s) else s
  }

  lemma StepPreservesInv(s: State, e: Event)
    requires Inv(s)
    ensures Inv(Step(s, e))
  {
    match e
    case ScrollUpdate(dy, flags) =>
      if flags.handled { ReleasePreservesInv(s); } else { StretchPreservesInv(s, dy, flags); }
    case ScrollEnded => ReleasePreservesInv(s);
    case ResetTimer => if s.pendingResets > 0 { TimerFiresPreservesInv(s); }
  }

  /**
    The phases move only along Idle -> Stretching -> Releasing -> Idle (each
    may also stay put), and Releasing is left only by the reset timer.
  */
  lemma StepFollowsLifecycle(s: State, e: Event)
    requires Inv(s)
    ensures var p, q := PhaseOf(s), PhaseOf(Step(s, e));
      && (p == Idle ==> q != Releasing)
      && (p == Stretching ==> q != Idle)
      && (p == Releasing && q != Releasing ==> q == Idle && e.ResetTimer?)
  {
  }

  function Run(s: State, events: seq<Event>): State
    requires Inv(s)
    decreases |events|
  {
    if events == [] then s
    else
      StepPreservesInv(s, events[0]);
      Run(Step(s, events[0]), events[1..])
  }

  /** Every reachable state satisfies the invariant, so the factor stays in [1, 1.05]. */
  lemma {:induction false} RunPreservesInv(s: State, events: seq<Event>)
    requires Inv(s)
    ensures Inv(Run(s, events))
    ensures RestStretch <= Run(s, events).stretchY <= MaxStretch
    decreases |events|
  {
    if events != [] {
      StepPreservesInv(s, events[0]);
      RunPreservesInv(Step(s, events[0]), events[1..]);
    }
  }

  predicate NoReset(events: seq<Event>)
  {
    forall e <- events :: !e.ResetTimer?
  }

  /** Between resets the factor never decreases. */
  lemma {:induction false} FactorNonDecreasingBetweenResets(s: State, events: seq<Event>)
    requires Inv(s) && NoReset(events)
    ensures s.stretchY <= Run(s, events).stretchY
    decreases |events|
  {
    if events != [] {
      StepPreservesInv(s, events[0]);
      assert events[0] in events;
      FactorNonDecreasingBetweenResets(Step(s, events[0]), events[1..]);
    }
  }

  /**
    Between resets at most one release animation starts: any number of
    gesture ends and handled updates add at most one group, and none while a
    release is already in flight.
  */
  lemma {:induction false} AtMostOneGroupBetweenResets(s: State, events: seq<Event>)
    requires Inv(s) && NoReset(events)
    ensures var r := Run(s, events);
      |r.started| - r.pendingResets == |s.started| - s.pendingResets
    ensures |Run(s, events).started| <= |s.started| + 1 - s.pendingResets
    decreases |events|
  {
    if events != [] {
      StepPreservesInv(s, events[0]);
      assert events[0] in events;
      AtMostOneGroupBetweenResets(Step(s, events[0]), events[1..]);
    }
    RunPreservesInv(s, events);
  }
}
