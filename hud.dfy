/**
 * The PoserHud component's state and button handlers (src/PoserHud.tsx:336-723): the
 * playhead, the play flag, the selected keyframe and the animation document, plus the
 * Timeline it renders. Layout, the bone-name and minimized views, the helper message,
 * the download and the help link are not modelled.
 */
module Hud {
  import opened Animation
  import opened Document
  import opened Widgets
  import Playback

  class PoserHud {
    var currentTime: real
    var isPlaying: bool
    var selected: Option<nat>
    var animation: PoseAnimation
    const timeline: Timeline

    /**
     * What every handler keeps: the playhead and every keyframe lie inside the animation,
     * and the selection is cleared or names an existing keyframe.
     */
    ghost predicate Valid()
      reads this
    {
      && 0.0 <= animation.length
      && 0.0 <= currentTime <= animation.length
      && TimesInRange(animation)
      && (selected.Some? ==> selected.value < |animation.keyframes|)
    }

    /** Initial state (344-359). */
    constructor ()
      ensures Valid() && fresh(timeline) && !timeline.isDragging
      ensures currentTime == 0.0 && !isPlaying && selected == Some(0) && animation == HudDefault
    {
      currentTime, isPlaying, selected, animation := 0.0, false, Some(0), HudDefault;
      timeline := new Timeline();
    }

    /** The Play/Pause button (499-501). */
    method TogglePlay()
      requires Valid()
      modifies this`isPlaying
      ensures Valid() && isPlaying == !old(isPlaying)
    {
      isPlaying := !isPlaying;
    }

    /** The "time = 0" button (507-509). */
    method ResetTime()
      requires Valid()
      modifies this`currentTime
      ensures Valid() && currentTime == 0.0
    {
      currentTime := 0.0;
    }

    /** One firing of the playback interval, which exists only while playing (368-386). */
    method PlaybackTick()
      requires Valid()
      modifies this`currentTime
      ensures Valid()
      ensures currentTime == if isPlaying then Playback.Tick(old(currentTime), animation.length) else old(currentTime)
    {
      if isPlaying {
        currentTime := Playback.Tick(currentTime, animation.length);
      }
    }

    /** "Add Keyframe" (550-562): append at the playhead and select the new keyframe. */
    method AddKeyframeClicked()
      requires Valid()
      modifies this`animation, this`selected
      ensures Valid()
      ensures animation == AddKeyframe(old(animation), currentTime)
      ensures selected == Some(|old(animation).keyframes|) && animation.keyframes[selected.value] == Keyframe(currentTime, map[])
    {
      selected := Some(|animation.keyframes|);
      animation := AddKeyframe(animation, currentTime);
    }

    /** "Delete Keyframe" (593-601): drop the selected keyframe and clear the selection. */
    method DeleteKeyframeClicked()
      requires Valid()
      modifies this`animation, this`selected
      ensures Valid()
      ensures animation == DeleteKeyframe(old(animation), old(selected)) && selected == None
    {
      var a := DeleteKeyframe(animation, selected);
      assert forall i :: 0 <= i < |a.keyframes| ==> a.keyframes[i] in animation.keyframes;
      animation, selected := a, None;
    }

    /** A click in the bone picker (443-473). */
    method AddBoneClicked(name: string)
      requires Valid()
      modifies this`animation
      ensures Valid() && animation == AddBone(old(animation), selected, name)
    {
      animation := AddBone(animation, selected, name);
    }

    /** A VectorInput change of a bone of the selected keyframe (637-663). */
    method VectorChanged(name: string, v: (real, real, real))
      requires Valid()
      modifies this`animation
      ensures Valid() && animation == SetVectorBone(old(animation), selected, name, v)
    {
      animation := SetVectorBone(animation, selected, name, v);
    }

    /** A NumericSliderInput change of a bone of the selected keyframe (674-692). */
    method ScalarChanged(name: string, v: real)
      requires Valid()
      modifies this`animation
      ensures Valid() && animation == SetScalarBone(old(animation), selected, name, v)
    {
      animation := SetScalarBone(animation, selected, name, v);
    }

    /** A press on a keyframe marker of the Timeline (314-316, 712-714); markers exist only for existing keyframes. */
    method SelectKeyframe(i: nat)
      requires Valid() && i < |animation.keyframes|
      modifies this`selected
      ensures Valid() && selected == Some(i)
    {
      selected := Some(i);
    }

    /** A press on the Timeline; the result is what it hands to onInteractingChanged. */
    method TimelinePointerDown(clientX: real) returns (interacting: bool)
      modifies timeline
      ensures timeline.isDragging && timeline.dragStartX == clientX && timeline.dragStartCurrentTime == currentTime
      ensures interacting
    {
      interacting := timeline.PointerDown(clientX, currentTime);
    }

    /** A pointer move over the Timeline, which is 0.9 of the HUD's width wide (707-720). */
    method TimelinePointerMove(clientX: real, width: real)
      requires Valid() && (timeline.isDragging ==> width != 0.0)
      modifies this`currentTime
      ensures Valid()
      ensures currentTime == if timeline.isDragging
                             then ScrubTime(timeline.dragStartCurrentTime, timeline.dragStartX, clientX, width * 0.9, animation.length)
                             else old(currentTime)
    {
      var t := timeline.PointerMove(clientX, width * 0.9, animation.length);
      if t.Some? {
        currentTime := t.value;
      }
    }

    /**
     * A press on keyframe marker i (314-317): it selects the keyframe and, not stopped there,
     * reaches the Timeline's own press handler (274), which starts a drag from the playhead.
     */
    method MarkerPressed(i: nat, clientX: real) returns (interacting: bool)
      requires Valid() && i < |animation.keyframes|
      modifies this`selected, timeline
      ensures Valid() && selected == Some(i)
      ensures timeline.isDragging && timeline.dragStartX == clientX && timeline.dragStartCurrentTime == currentTime
      ensures interacting
    {
      SelectKeyframe(i);
      interacting := TimelinePointerDown(clientX);
    }

    /** Pointer released over the Timeline. */
    method TimelinePointerUp()
      modifies timeline`isDragging
      ensures !timeline.isDragging
    {
      timeline.PointerUp();
    }
  }
}
