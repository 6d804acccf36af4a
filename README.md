# Overscroll stretch controller, modelled in Dafny

This project models the controller behind `StretchEdgeEffect`, an Avalonia
decorator. When a scroll gesture goes past the edge of the content, the
decorator stretches that content vertically. It animates the content back
when the gesture ends.

The controller has four fields:
- the stretch factor `_stretch_y`, between 1.0 and 1.05;
- `_isStretched`;
- `_isReleasing`;
- `_stretchedBottom`.

It moves through three phases: Idle, then Stretching, then Releasing, then
back to Idle.
- A scroll update raises the factor by `|dy| / (1000 + ease(p) * 18000)` and
  caps it at 1.05. Here `p` is how far the factor has moved from 1.0 towards
  1.05, and `ease` is the cubic ease-out curve `1 - (1 - p)^3`.
- Each accepted update writes a scale, and for the bottom edge an offset, to
  the child's composition visual.
- A release starts one 350 ms animation group back to identity. It also
  schedules a reset for 350 ms later.

The project has three modules:
- `StretchMath` (`stretch_math.dfy`) holds the constants, the easing curve,
  the resistance and the capped increment. It proves the bounds and the
  monotonicity of these, plus the scenarios for a drag of 10 (factor 1.01)
  and a drag of 100 (capped at 1.05).
- `ControllerState` (`controller_state.dfy`) holds the controller's state as
  a value. It gives one transition function per event:
  - a scroll update, which either stretches or forces a release;
  - the end of a gesture;
  - the reset timer firing.

  It also states the invariant `Inv` and proves it is preserved by every step
  and along every trace of events. Other lemmas prove the release guard and
  its idempotence, "at most one animation group between resets", "the factor
  never decreases between resets", and that the phases follow the lifecycle.
- `StretchEdgeEffect` (`controller.dfy`) holds the class
  `StretchEdgeEffectController`. Its methods update the fields in place. Each
  method's postcondition ties the new state to the transition function of
  the old one, and the public entry points keep `Valid()`. The mutable event
  arguments are the class `ScrollGestureEventArgs`. The method
  `GestureCycle` is a client of the class and stands for no source code. It
  shows that the method contracts alone let a caller follow one full cycle:
  - a drag of 10 from rest gives factor 1.01 and consumes the event;
  - two gesture ends start one animation group;
  - the timer firing returns the controller to rest.

The model shows one consequence of the source: `ReversedDragLeavesOffset`.
A drag that starts at the bottom edge and then reverses keeps stretching,
but it stops updating the offset, because `_stretchedBottom` becomes false.
The release then animates only the scale, so the visual stays shifted after
the reset. The model keeps this behaviour as the code has it.

## Model

| member | source | states |
|---|---|---|
| StretchMath.EaseOutCubic | ListViewApp/Controls/StretchEdgeEffect.cs:39 | the curve `1 - (1 - p)^3` agrees with the library's form `f^3 + 1` with `f = p - 1`, and gives 0 at p = 0 and 1 at p = 1. EaseOutCubicRange and EaseOutCubicMonotone state its range and that it increases |
| StretchMath.EaseOutCubicRange | ListViewApp/Controls/StretchEdgeEffect.cs:39 | the cubic ease-out maps [0,1] into [0,1], with 0 going to 0 and 1 going to 1 |
| StretchMath.EaseOutCubicMonotone | ListViewApp/Controls/StretchEdgeEffect.cs:39 | the ease-out curve is strictly increasing on [0,1] |
| StretchMath.Progress | ListViewApp/Controls/StretchEdgeEffect.cs:76 | the easing input `(stretch - 1) * (1 / (1.05 - 1))` equals the fraction `(stretch - 1) / (1.05 - 1)` of the way from rest to the maximum. ProgressRange states its range |
| StretchMath.ProgressRange | ListViewApp/Controls/StretchEdgeEffect.cs:76 | the easing input `(stretch - 1) * (1 / 0.05)` lies in [0,1] for a factor in [1, 1.05]; it is 0 at rest and 1 at the maximum |
| StretchMath.Resistance | ListViewApp/Controls/StretchEdgeEffect.cs:76-78 | the divisor `1000 + ease * 18000` lies in [1000, 19000], so it is never zero |
| StretchMath.Increment | ListViewApp/Controls/StretchEdgeEffect.cs:78 | the increment is non-negative, at most `|dy| / 1000`, and positive exactly when `dy != 0` |
| StretchMath.NextStretch | ListViewApp/Controls/StretchEdgeEffect.cs:76-81 | the new factor never falls below the old one and never exceeds 1.05, and it rises strictly if `dy != 0` and the factor is below the maximum. It equals the old factor plus the increment when that sum is below 1.05, and exactly 1.05 when the sum reaches or passes it |
| StretchMath.ResistanceMonotone | ListViewApp/Controls/StretchEdgeEffect.cs:76-78 | a larger stretch already applied never gives a smaller resistance, and a strictly larger one gives a strictly larger resistance |
| StretchMath.IncrementShrinksWithStretch | ListViewApp/Controls/StretchEdgeEffect.cs:76-78 | the same drag never yields a larger increment at a larger stretch, and for `dy != 0` it yields a strictly smaller one |
| StretchMath.NextStretchIgnoresDirection | ListViewApp/Controls/StretchEdgeEffect.cs:78 | only `|dy|` matters: dragging up and dragging down stretch by the same amount |
| StretchMath.NextStretchMonotoneInDelta | ListViewApp/Controls/StretchEdgeEffect.cs:78-81 | a larger `|dy|` never yields a smaller factor |
| StretchMath.SmallDragFromRest | ListViewApp/Controls/StretchEdgeEffect.cs:76-81 | from rest, `dy = 10` or `dy = -10` gives exactly 1.01 |
| StretchMath.LargeDragFromRestClamps | ListViewApp/Controls/StretchEdgeEffect.cs:76-81 | from rest, `dy = 100` would give 1.1 and is capped at exactly 1.05 |
| ControllerState.ApplyStretch | ListViewApp/Controls/StretchEdgeEffect.cs:97-108 | applying factor f marks the controller stretched, sets pivot (0,0,0) and scale (1,f,1), sets offset `(0, -(height*(f-1)), 0)` only when stretched at the bottom and otherwise keeps the old offset, and changes nothing else |
| ControllerState.ReleaseGroup | ListViewApp/Controls/StretchEdgeEffect.cs:121-137 | the release group animates the scale from its current value to (1,1,1). It has an offset-to-zero animation if and only if the stretch was at the bottom. Every animation lasts 350 ms |
| ControllerState.Stretch | ListViewApp/Controls/StretchEdgeEffect.cs:68-88 | the stretch step keeps the factor between its old value and 1.05. It never changes `_isReleasing`, starts no animation and schedules no reset. The event ends up handled, and the controller stretched, exactly when it already was or the update was accepted (not releasing, `dy != 0`). IgnoredUpdate and AcceptedUpdate give the two cases in full |
| ControllerState.Release | ListViewApp/Controls/StretchEdgeEffect.cs:110-143 | a release leaves the factor, `_isStretched`, the edge flag and the visual alone. Afterwards `_isReleasing` holds exactly when it held before or the controller was stretched. It appends one group exactly when stretched and not releasing, and schedules one reset per group. ReleaseEffect gives the group's contents |
| ControllerState.Reset | ListViewApp/Controls/StretchEdgeEffect.cs:90-95 | the reset returns the factor to 1.0, clears `_isReleasing` and puts the phase to Idle, keeping the edge flag, the visual, the animation log and the timer |
| ControllerState.TimerFires | ListViewApp/Controls/StretchEdgeEffect.cs:142 | the scheduled callback removes one pending reset and leaves the controller Idle, not releasing, at factor 1.0, with the edge flag, the visual and the log unchanged |
| ControllerState.OnScrollGesture | ListViewApp/Controls/StretchEdgeEffect.cs:52-61 | a handled update leaves the flags, the factor and the visual alone, and moves a stretched controller to releasing. An unhandled one starts no animation and schedules no reset. Neither lowers the factor |
| ControllerState.OnScrollGestureEnded | ListViewApp/Controls/StretchEdgeEffect.cs:63-66 | a gesture end from Stretching sets `_isReleasing`, appends exactly the release group built from the current visual and edge flag, and schedules one reset. Nothing else changes. In any other phase it changes nothing, and it never changes the factor |
| ControllerState.Initial | ListViewApp/Controls/StretchEdgeEffect.cs:42-45 | a new controller starts Idle at factor 1.0, not releasing, with the edge flag false, the given visual, no animation started and no reset pending |
| ControllerState.InitialIsValid | ListViewApp/Controls/StretchEdgeEffect.cs:42-45 | the initial field values (1.0, false, false, false) satisfy the invariant and are in the Idle phase |
| ControllerState.StretchedIffAboveRest | ListViewApp/Controls/StretchEdgeEffect.cs:42-45 | in every valid state, the controller is stretched if and only if the factor differs from 1.0, and it is Idle if and only if the factor is 1.0 |
| ControllerState.IgnoredUpdate | ListViewApp/Controls/StretchEdgeEffect.cs:70-74 | an update while releasing, or with `Delta.Y == 0`, changes no field, no transform, no animation log, no timer and neither event flag |
| ControllerState.AcceptedUpdate | ListViewApp/Controls/StretchEdgeEffect.cs:76-87 | an accepted update sets `Handled` and `ShouldEndScrollGesture`, sets the factor to `old + |dy|/resistance` when that is below 1.05 and to 1.05 otherwise, marks the controller stretched, sets the bottom flag to `dy >= 0`, shows the new factor on the visual, and starts no animation and no timer |
| ControllerState.BottomStretchOffset | ListViewApp/Controls/StretchEdgeEffect.cs:104-107 | after a downward-edge update to factor F, the vertical offset is `-(height * (F - 1))` |
| ControllerState.StretchPreservesInv | ListViewApp/Controls/StretchEdgeEffect.cs:68-88 | a stretch step keeps the invariant |
| ControllerState.ReleasePreservesInv | ListViewApp/Controls/StretchEdgeEffect.cs:110-143 | a release keeps the invariant |
| ControllerState.TimerFiresPreservesInv | ListViewApp/Controls/StretchEdgeEffect.cs:90-95 | the deferred reset keeps the invariant |
| ControllerState.HandledUpdateReleases | ListViewApp/Controls/StretchEdgeEffect.cs:54-58 | an update already marked `Handled` is exactly a release: it leaves its flags alone and never stretches, even with a nonzero delta |
| ControllerState.HandledUpdateWhileStretched | ListViewApp/Controls/StretchEdgeEffect.cs:52-61 | a handled update that arrives while Stretching moves the controller to Releasing and starts exactly one group, with the factor unchanged |
| ControllerState.ReleaseEffect | ListViewApp/Controls/StretchEdgeEffect.cs:110-143 | a release changes nothing unless the controller is stretched and not releasing. When it does act, it sets `_isReleasing`, appends one release group built from the current visual, and schedules one reset. It leaves the factor, the edge flag and the visual unchanged |
| ControllerState.ReleaseIdempotent | ListViewApp/Controls/StretchEdgeEffect.cs:112-118 | a second release with no reset in between does nothing |
| ControllerState.DoubleReleaseStartsOneGroup | ListViewApp/Controls/StretchEdgeEffect.cs:112-142 | two releases from Stretching start exactly one animation group and leave exactly one reset pending |
| ControllerState.ReleaseThenResetRests | ListViewApp/Controls/StretchEdgeEffect.cs:90-95 | the reset that a release schedules returns the state to factor 1.0, not stretched and not releasing. It keeps `_stretchedBottom` and leaves no reset pending |
| ControllerState.ReversedDragLeavesOffset | ListViewApp/Controls/StretchEdgeEffect.cs:86-107 | a drag of +10 then -10 from rest keeps the bottom offset at `-(height * 0.01)`. It starts a scale-only release group, so the offset is still non-zero after the reset |
| ControllerState.StepPreservesInv | ListViewApp/Controls/StretchEdgeEffect.cs:52-66 | every gesture update, gesture end or timer tick keeps the invariant |
| ControllerState.StepFollowsLifecycle | ListViewApp/Controls/StretchEdgeEffect.cs:52-95 | phases move only from Idle to Stretching to Releasing to Idle. Idle never goes straight to Releasing, Stretching never goes straight to Idle, and only the reset timer leaves Releasing |
| ControllerState.RunPreservesInv | ListViewApp/Controls/StretchEdgeEffect.cs:42-95 | after any sequence of events the invariant holds; in particular `1.0 <= factor <= 1.05` |
| ControllerState.FactorNonDecreasingBetweenResets | ListViewApp/Controls/StretchEdgeEffect.cs:76-81 | over any sequence of events with no reset, the factor never decreases |
| ControllerState.AtMostOneGroupBetweenResets | ListViewApp/Controls/StretchEdgeEffect.cs:110-142 | over any sequence of events with no reset, at most one animation group starts, and none if a release was already in flight |
| StretchEdgeEffect.StretchEdgeEffectController.constructor | ListViewApp/Controls/StretchEdgeEffect.cs:42-50 | a new controller is valid and at rest with the given visual |
| StretchEdgeEffect.StretchEdgeEffectController.OnScrollGesture | ListViewApp/Controls/StretchEdgeEffect.cs:52-61 | updates the fields and the event flags in place, as `ControllerState.OnScrollGesture` gives them, and keeps `Valid()` |
| StretchEdgeEffect.StretchEdgeEffectController.OnScrollGestureEnded | ListViewApp/Controls/StretchEdgeEffect.cs:63-66 | always releases and keeps `Valid()` |
| StretchEdgeEffect.StretchEdgeEffectController.StretchVertically | ListViewApp/Controls/StretchEdgeEffect.cs:68-88 | the in-place stretch step, with early returns, equals `ControllerState.Stretch` on the fields and on the event's flags |
| StretchEdgeEffect.StretchEdgeEffectController.ResetStretch | ListViewApp/Controls/StretchEdgeEffect.cs:90-95 | sets factor 1.0, not stretched and not releasing, and leaves every other field unchanged |
| StretchEdgeEffect.StretchEdgeEffectController.ApplyStretchTransform | ListViewApp/Controls/StretchEdgeEffect.cs:97-108 | writes pivot, scale and, for the bottom edge, the offset, as `ControllerState.ApplyStretch` gives them |
| StretchEdgeEffect.StretchEdgeEffectController.ReleaseStretch | ListViewApp/Controls/StretchEdgeEffect.cs:110-143 | guarded release that logs the group it builds and schedules one reset, as `ControllerState.Release` gives them |
| StretchEdgeEffect.StretchEdgeEffectController.TimerFires | ListViewApp/Controls/StretchEdgeEffect.cs:142 | the scheduled reset runs `ResetStretch`, removes itself from the pending count, and keeps `Valid()` |

## Left out

- The `Decorator` plumbing (StretchEdgeEffect.cs:14-33): the constructor's handler registration and the two forwarding wrappers are framework event wiring. The `sender` arguments are never used and are dropped.
- Looking up the composition visual (`ElementComposition.GetElementVisual(...) as CompositionContainerVisual`, :101 and :120) is a foreign call with an unchecked cast. The visual is a value `Visual`, held in the controller's `visual` field, with pivot, scale, offset and height. Aliasing with the visual that the renderer owns is not captured. The height is fixed for the controller's lifetime, whereas the source reads `v.Size.Y` again at each write (:106). A failed lookup (null) is not modelled either. In the source it throws after `_isStretched` (:99) or `_isReleasing` (:118) has been set. A release that throws therefore never schedules its reset, and the controller stays in Releasing.
- The compositor's animation objects and how they interpolate (:121-139) run asynchronously in the renderer. The model records only the request for each animated property: its target, start value, end value and duration. The ease-out curve is implied, and the requests are kept in a ghost log of started groups. The animation never changes the modelled visual.
- `DispatcherTimer.RunOnce` (:142) is a pending-reset counter plus the explicit method `TimerFires`. Real time is not modelled; the 350 ms delay appears only as the constant `ReleaseDurationMs`.
- Doubles are mathematical reals. The model does not capture IEEE rounding, the `(float)` casts at :103 and :106, or NaN and infinite deltas.
- Avalonia's `CubicEaseOut` is defined mathematically as `1 - (1 - p)^3`; the library class is not part of this model.
- `Delta.X` is carried on the event arguments but never read, because horizontal stretching is not implemented (:12).
- ListViewApp/ViewModels/MainViewModel.cs is a data-binding fixture with no behaviour and is not part of this model.
