# Avatar poser: keyframe pose animation, modelled in Dafny

avatar-poser is a browser and VR editor for character pose animations. The user scrubs a
timeline, adds keyframes, adds bones to the selected keyframe, and turns each bone with
sliders. The avatar is meant to show the pose at the HUD's playhead; as wired, it shows
the pose at time 0 (see Findings). This project models the logic under
the two React components, with the rendering stripped away:

- **Pose evaluation** (`src/Poser.tsx`). Walk the keyframes in insertion order and stop at
  the first one later than the playhead. Merge the poses walked over into a fresh map, a
  later keyframe overwriting an earlier one. This is a step/hold merge: no value is
  interpolated. `PoseEval.EvaluatePose` is the loop. `PoseEval.Evaluate` is its
  specification, and the lemmas beside it state what the merge returns.
- **Document operations** (`src/PoserHud.tsx`). Add keyframe, delete keyframe, add bone
  with a shape-dependent zero value, set a vector or scalar bone value, and the bone
  picker's list. Each is a pure function of the document and the selected index
  (module `Document`; the string order and sort are in `Bones`).
- **Time and input state machines** (`src/PoserHud.tsx`). The playback tick (`Playback`);
  the Timeline scrubber, the numeric slider and the vector input's per-axis routing
  (`Widgets`); the HUD's fields and button handlers (`Hud.PoserHud`).
- **The Poser component** (`PoserView.Poser`). It owns the avatar's playhead, the
  animation, the displayed pose and the "interacting" flag, and it renders the HUD.

Modules follow the source: `Animation` holds the `PoseAnimation` type (src/Poser.tsx:8-14).
Bone values are `Scalar(v)` or `Vec(x, y, z)`. Times and values are `real`. The list of
known bone names comes from `src/allBones`, which is not part of this model, so it is a
parameter (`known`).

What the code does with time and values:

- Values are held, not interpolated: between two keyframes the merged step value of the
  earlier one shows (`PoseEval.HoldsInsteadOfInterpolating`).
- A scrub does not pause playback. Tick and scrub both write the playhead.
- A tick adds 0.1 s every 100 ms.
- Only the scrubber clamps the playhead. The HUD's invariant (`Hud.PoserHud.Valid`) shows
  that every writer keeps it in `[0, length]` anyway.

## Model

| member | source | states |
|---|---|---|
| PoseEval.ScanLength | src/Poser.tsx:33-37 | the scan merges a prefix: every keyframe in it has time ≤ playhead, and the keyframe right after it (if any) is later than the playhead |
| PoseEval.Evaluate | src/Poser.tsx:29-39 | an empty keyframe list, or a first keyframe later than the playhead, yields the empty pose |
| PoseEval.LastDefiner | src/Poser.tsx:38 | reference definition: the index of the last keyframe that defines a bone (and no later one does), or -1 when none does |
| PoseEval.MergedIsLastDefiner | src/Poser.tsx:32-39 | a merged pose holds a bone exactly when some keyframe defines it, with the value of the last keyframe that defines it |
| PoseEval.EvaluateDomain | src/Poser.tsx:32-39 | the result's bones are exactly the union of the bones of the scanned keyframes; bones defined only after the stop are absent |
| PoseEval.EvaluateValue | src/Poser.tsx:38 | no blending: each result value equals the stored value of the last scanned keyframe defining that bone, whose time ≤ playhead |
| PoseEval.EvaluateIgnoresRest | src/Poser.tsx:33-37 | keyframes after the one that stops the scan contribute nothing, whatever their times: replacing them leaves the pose unchanged |
| PoseEval.SortedScanIsTimeFilter | src/Poser.tsx:33-37 | with keyframes sorted by time, keyframe i is scanned if and only if its time ≤ playhead |
| PoseEval.ScanMonotone | src/Poser.tsx:33-37 | a later playhead scans at least as many keyframes |
| PoseEval.EvaluateKeysGrow | src/Poser.tsx:32-39 | the set of posed bones only grows as the playhead advances, sorted or not |
| PoseEval.EvaluateAfterAll | src/Poser.tsx:32-39 | past every keyframe, the pose is the merge of all of them (last values held) |
| PoseEval.HoldsInsteadOfInterpolating | src/Poser.tsx:32-39 | between a resting neck at 0 s and a turned neck at 10 s, the pose at 5 s is the 0 s value, not a blend |
| PoseEval.EvaluatePose | src/Poser.tsx:32-39 | the loop with its early break builds exactly `Evaluate(keyframes, currentTime)` in a fresh map; its inputs are values and are not changed |
| Bones.Sort | src/PoserHud.tsx:413 | the sorted copy of the known bones is sorted in string order and is a permutation of them |
| Bones.Without | src/PoserHud.tsx:417-419 | the filter keeps every occurrence of each name not excluded (as many times as the input has it) and drops every excluded one; a sorted list stays sorted |
| Bones.RemainingBones | src/PoserHud.tsx:413-419 | the picker list is sorted; each known bone not already posed appears in it exactly as often as in the known list, and no other name appears |
| Document.AddKeyframe | src/PoserHud.tsx:551-560 | appends exactly one `{time: currentTime, pose: {}}`; earlier keyframes and the length are unchanged |
| Document.FilterOutIndex | src/PoserHud.tsx:596-598 | the filter removes exactly the keyframe at the selected index and keeps the others in order; a null or out-of-range index keeps all |
| Document.DeleteKeyframe | src/PoserHud.tsx:594-599 | with a valid selection, the count drops by one and the other keyframes keep their order; otherwise the document is unchanged; the length stays the same |
| Document.SetBone | src/PoserHud.tsx:641-654 | only the selected keyframe changes, in one bone's entry; its time, its other bones, the other keyframes and the length are untouched; with no valid selection nothing changes |
| Document.ZeroValue | src/PoserHud.tsx:454-463 | the starting value is scalar exactly for MouthSmile and MouthOpen, and is scalar 0 or the zero vector |
| Document.AddBone | src/PoserHud.tsx:445-468 | the selected keyframe gets the bone with scalar 0 for MouthSmile/MouthOpen and (0,0,0) for any other name; with no valid selection nothing changes |
| Document.SetVectorBone | src/PoserHud.tsx:638-657 | the selected keyframe's bone becomes the vector with the emitted x, y, z; with no valid selection nothing changes |
| Document.SetScalarBone | src/PoserHud.tsx:675-690 | the selected keyframe's bone becomes the emitted scalar; with no valid selection nothing changes |
| Document.Picker | src/PoserHud.tsx:413-419 | the picker is sorted, is disjoint from the selected keyframe's bones, and lists every other known bone exactly as often as the known list does, and nothing else |
| Document.DeleteUndoesAdd | src/PoserHud.tsx:551-600 | deleting the keyframe that Add Keyframe appended and selected gives back the original document |
| Document.AddKeyframeKeepsPose | src/PoserHud.tsx:551-560 | adding a keyframe never changes the pose shown, at any playhead |
| Document.SetBoneLastWins | src/PoserHud.tsx:641-654 | setting a bone twice leaves the second value, so a repeated edit is idempotent |
| Document.SetBoneCommutes | src/PoserHud.tsx:641-654 | edits of two different bones commute |
| Document.SetBoneShown | src/PoserHud.tsx:638-657 | an edit to a scanned keyframe that no later scanned keyframe overrides is exactly what the evaluated pose shows for that bone |
| Document.PickedBoneLeavesPicker | src/PoserHud.tsx:413-468 | after a bone is picked it leaves the picker, and every other bone stays in or out as before |
| Playback.Tick | src/PoserHud.tsx:371-377 | the tick gives t + 0.1 or 0; for t ≥ 0 it gives 0 exactly when t + 0.1 exceeds the length; a time in [0, length] stays in [0, length] |
| Playback.TicksStayInRange | src/PoserHud.tsx:370-378 | any number of ticks keeps a playhead that starts in [0, length] inside it |
| Playback.PlaybackCountsUp | src/PoserHud.tsx:371-377 | played from 0, after n ticks the playhead reads n·0.1 while that is not past the end |
| Playback.PlaybackLoops | src/PoserHud.tsx:371-377 | played from 0, the playhead climbs to the last tenth not past the end, then wraps to 0 on the next tick |
| Widgets.ScrubTime | src/PoserHud.tsx:261-263 | the scrubbed time is the proportional start time + (delta/width)·length when that lies in range, 0 below it, the length above it, and always in [0, length] |
| Widgets.ScrubMonotone | src/PoserHud.tsx:261-263 | dragging further right never asks for an earlier time |
| Widgets.ScrubFullWidth | src/PoserHud.tsx:261-263 | a drag across the full width reaches the end of the animation |
| Widgets.Timeline.constructor | src/PoserHud.tsx:247-249 | the timeline starts idle with zero drag start values |
| Widgets.Timeline.PointerDown | src/PoserHud.tsx:251-257 | pointer-down enters dragging, captures the start x and the start time, and raises the interacting flag |
| Widgets.Timeline.PointerMove | src/PoserHud.tsx:259-265 | a move while dragging asks for the scrubbed time, in [0, length]; a move while idle asks for nothing |
| Widgets.Timeline.PointerUp | src/PoserHud.tsx:267-269 | pointer-up returns to idle |
| Widgets.SliderValue | src/PoserHud.tsx:85-86 | no movement gives back the start value; a drag across the full width adds max − min |
| Widgets.SliderReachesEveryValue | src/PoserHud.tsx:85-86 | there is no clamping: every value, inside [min, max] or not, is emitted by some drag |
| Widgets.NumericSlider.constructor | src/PoserHud.tsx:71-74 | the slider starts idle, with zero start values and no move recorded |
| Widgets.NumericSlider.PointerDown | src/PoserHud.tsx:76-81 | pointer-down enters dragging, captures start x and start value, and clears didMove |
| Widgets.NumericSlider.PointerMove | src/PoserHud.tsx:83-90 | a move while dragging emits the unclamped proportional value and sets didMove; idle, it emits nothing and changes nothing |
| Widgets.NumericSlider.PointerUp | src/PoserHud.tsx:92-97 | release stops dragging and re-emits the current value exactly when no move happened |
| Widgets.SliderClick | src/PoserHud.tsx:76-97 | a press and release without a move emit exactly the value shown |
| Widgets.SliderDrag | src/PoserHud.tsx:76-97 | press, one move and release emit the unclamped proportional value once, and nothing on release |
| Widgets.WithAxis | src/PoserHud.tsx:151-177 | each axis slider replaces only its own component of the vector |
| Widgets.WithAxisOwnValue | src/PoserHud.tsx:151-177 | re-emitting an axis's own value leaves the vector unchanged |
| Widgets.VectorAxisClick | src/PoserHud.tsx:151-177 | a click without a move on any axis slider hands back the bone's vector unchanged |
| Hud.PoserHud.constructor | src/PoserHud.tsx:344-359 | the HUD starts at time 0, paused, with keyframe 0 selected, in the 15 s animation with one empty keyframe at 0 |
| Hud.PoserHud.TogglePlay | src/PoserHud.tsx:499-501 | the Play/Pause button flips the play flag |
| Hud.PoserHud.ResetTime | src/PoserHud.tsx:507-509 | "time = 0" sets the playhead to 0 |
| Hud.PoserHud.PlaybackTick | src/PoserHud.tsx:368-386 | while playing, a tick applies `Tick` to the playhead; paused, nothing changes; the invariant is kept |
| Hud.PoserHud.AddKeyframeClicked | src/PoserHud.tsx:550-562 | appends the empty keyframe at the playhead and selects the old count, which is the new keyframe |
| Hud.PoserHud.DeleteKeyframeClicked | src/PoserHud.tsx:593-601 | deletes the selected keyframe and always clears the selection |
| Hud.PoserHud.AddBoneClicked | src/PoserHud.tsx:443-473 | the picked bone is added to the selected keyframe as `Document.AddBone` states |
| Hud.PoserHud.VectorChanged | src/PoserHud.tsx:637-663 | a vector change is written to the selected keyframe as `Document.SetVectorBone` states |
| Hud.PoserHud.ScalarChanged | src/PoserHud.tsx:674-692 | a scalar change is written to the selected keyframe as `Document.SetScalarBone` states |
| Hud.PoserHud.SelectKeyframe | src/PoserHud.tsx:712-714 | the marker's own handler selects that keyframe (the press then also reaches the Timeline: see `MarkerPressed`) |
| Hud.PoserHud.MarkerPressed | src/PoserHud.tsx:314-317 | a press on a keyframe marker selects it and, not stopped there, reaches the Timeline's press handler: a drag starts from the playhead and the interacting flag is raised |
| Hud.PoserHud.TimelinePointerDown | src/PoserHud.tsx:251-257 | a press on the timeline starts a drag from the HUD's playhead and raises the interacting flag |
| Hud.PoserHud.TimelinePointerMove | src/PoserHud.tsx:707-720 | while dragging, the playhead becomes the scrubbed time for a timeline 0.9 of the HUD's width wide; idle, it stays; the invariant is kept |
| Hud.PoserHud.TimelinePointerUp | src/PoserHud.tsx:267-269 | a release stops the timeline's drag |
| PoserView.Poser.constructor | src/Poser.tsx:21-26 | the Poser starts at time 0, then takes the HUD's starting document, and shows its pose |
| PoserView.Poser.Refresh | src/Poser.tsx:28-42 | with an animation, the pose is recomputed at the playhead; without one (null), the current pose is left untouched |
| PoserView.Poser.OnTimeChange | src/Poser.tsx:71 | a new playhead is stored and the pose recomputed at it |
| PoserView.Poser.OnAnimationChange | src/Poser.tsx:72 | a new document is stored and the pose recomputed from it |
| PoserView.Poser.OnPointerDown | src/Poser.tsx:73-75 | a press on the HUD raises the interacting flag |
| PoserView.Poser.OnPointerUp | src/Poser.tsx:76-78 | a release on the HUD clears the interacting flag |
| PoserView.Poser.OnInteractingChanged | src/Poser.tsx:79-81 | the flag takes the value the HUD reports |
| PoserView.Poser.HudUpdatedAsWritten | src/PoserHud.tsx:336-342 | as wired, only the HUD's document reaches the Poser; the avatar's playhead does not move, and the avatar shows the new document at the old playhead |
| PoserView.Poser.HudUpdated | src/Poser.tsx:67-72 | with the HUD's document and playhead both handed over, the avatar shows the HUD's document at the HUD's playhead |
| PoserView.Poser.PlaybackTickAsWritten | src/PoserHud.tsx:370-378 | a tick as wired: the HUD's playhead takes `Tick` while playing, and the avatar's playhead and the pose's time stay put |
| PoserView.Poser.PlaybackTick | src/PoserHud.tsx:370-378 | a tick composed with the corrected hand-over `HudUpdated`: the avatar then follows the ticked playhead, which stays in [0, length]; from any as-written state |
| PoserView.Poser.ScrubStart | src/PoserHud.tsx:251-257 | from any as-written state, a press on the timeline starts dragging from the HUD's playhead and switches the orbit controls off; the playhead link, if it held, still holds |
| PoserView.Poser.ScrubMoveAsWritten | src/PoserHud.tsx:259-265 | a drag step as wired: while dragging, the HUD's playhead becomes the clamped scrubbed time; an idle move leaves it unchanged; the avatar's playhead stays put |
| PoserView.Poser.ScrubMove | src/PoserHud.tsx:259-265 | a drag step composed with the corrected hand-over `HudUpdated`: while dragging, the avatar then follows the clamped scrubbed time; an idle move leaves the HUD's playhead unchanged; from any as-written state |
| PoserView.Poser.MarkerPress | src/PoserHud.tsx:314-317 | a press on a keyframe marker selects it, starts a Timeline drag from the HUD's playhead and raises the interacting flag |
| PoserView.Poser.ScrubEnd | src/PoserHud.tsx:267-269 | from any as-written state, a release stops the drag, and the release, not stopped by the Timeline, reaches the HUD's group and clears the interacting flag; only the timeline's drag flag and the interacting flag change, the drag start values are kept |
| PoserView.StalePlayheadHidesEdit | src/Poser.tsx:33-39 | on a concrete document, the pose at the HUD's playhead has a bone that the pose at time 0 lacks |
| PoserView.AsWrittenPlayheadStays | src/PoserHud.tsx:336-342 | as wired, one tick moves the HUD's playhead to 0.1 s while the avatar's stays at 0 |

## Left out

- Rendering and layout: meshes, materials, positions, Typography and Button visuals, cursor styling, hover state. These are display only.
- The minimized and bone-name views (src/PoserHud.tsx:349-350, 393-410, 576). They only choose what is drawn. The picker's list itself is modelled.
- "Delete Bone" (src/PoserHud.tsx:587): its handler is empty, so the model has no operation for it.
- The scalar slider branch (src/PoserHud.tsx:665-693) cannot be reached: `isRotation` is always true (621-622). Its document update is modelled anyway, as `Document.SetScalarBone`.
- A scalar bone shown through the vector sliders reads undefined components and can produce NaN. The model takes the vector the widget emits as three reals and does not model NaN.
- Timer scheduling: `setInterval`/`clearInterval` and the interval handle (src/PoserHud.tsx:368-386). A tick is a method that fires while the play flag is set.
- Hud.PoserHud.PlaybackTick: uses the animation's current length. The source's closure keeps the length from when play started (373). The HUD never changes the length, so the two agree.
- The helper message, the `toFixed` displays, the `localStorage` flag (18, 444), the JSON download (516-523) and the help link (532-533). These are browser effects and text formatting.
- Widgets.ScrubTime: requires a non-zero width. In the source, a zero width divides by zero and gives Infinity or NaN. The same holds for Widgets.SliderValue, Widgets.Timeline.PointerMove, Widgets.NumericSlider.PointerMove and Hud.PoserHud.TimelinePointerMove.
- Bones.Sort: compares Dafny characters (code points). JavaScript compares UTF-16 code units. The two orders agree on bone names, which are ASCII. `allBones.sort()` also sorts the shared array in place; the model returns a sorted copy.
- Hud.PoserHud.SelectKeyframe: requires an existing index. Its only callers are the keyframe markers, which exist only for existing keyframes (src/PoserHud.tsx:303-331).
- Floating point: times and values are `real`, so 0.1-second steps add up exactly. IEEE rounding is not modelled.
- The XR-only wiring (src/Poser.tsx:88-109) is the same as the desktop wiring modelled here. XR presentation, `src/main.tsx`, `src/TeleportationPlane.tsx`, `src/useTeleportation.ts` and the build configuration are not part of this model.
- The orbit controls are not modelled. Only the flag that disables them is.

## Findings

| source | as written | input that shows it | evidently intended | confidence | as-written member | corrected member |
|---|---|---|---|---|---|---|
| src/PoserHud.tsx:336-342 | `PoserHud` destructures `width, height, onAnimationChange, onInteractingChanged` and spreads the rest onto its group. The `onTimeChange` that Poser passes (src/Poser.tsx:71, 96) therefore lands in `groupProps` and is never called. The Poser's `currentTime` stays 0, so the avatar always shows the pose at time 0. | A keyframe at 1 s poses `Neck`. The HUD's playhead is moved to 1 s by play or scrub. The pose at 1 s has `Neck`, but the avatar shows the pose at 0 s, which lacks it. | The HUD hands every playhead change to `onTimeChange`, so the avatar shows the document at the HUD's playhead. | medium (not executed) | PoserView.Poser.HudUpdatedAsWritten (with PoserView.AsWrittenPlayheadStays and PoserView.StalePlayheadHidesEdit) | PoserView.Poser.HudUpdated (its `Valid()` states the intended property; PlaybackTick and ScrubMove compose it, beside PlaybackTickAsWritten and ScrubMoveAsWritten) |
