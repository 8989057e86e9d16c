/**
 * The Poser component (src/Poser.tsx:20-112): it owns the playhead and the animation that
 * drive the avatar, recomputes the avatar's pose whenever either changes, holds the
 * "interacting" flag that switches the orbit controls off, and renders the PoserHud.
 */
module PoserView {
  import opened Animation
  import opened PoseEval
  import opened Hud
  import Widgets
  import Playback

  class Poser {
    var currentTime: real
    var animation: Option<PoseAnimation>
    var currentPose: Pose
    var interacting: bool
    const hud: PoserHud

    /**
     * What both wirings keep: the HUD's invariant holds, the Poser holds the HUD's document,
     * and the avatar shows that document's pose at the Poser's own playhead.
     */
    ghost predicate Shows()
      reads this, hud
    {
      && hud.Valid()
      && animation == Some(hud.animation)
      && currentPose == Evaluate(hud.animation.keyframes, currentTime)
    }

    /** The playhead link, which only the corrected hand-over keeps: the Poser's playhead is the HUD's. */
    ghost predicate Tracks()
      reads this, hud
    {
      currentTime == hud.currentTime
    }

    /** The intended state: the avatar shows the pose of the HUD's document at the HUD's playhead. */
    ghost predicate Valid()
      reads this, hud
    {
      Shows() && Tracks()
    }

    /**
     * Initial state (21-26, 50), then the HUD's mount effect hands over its own starting
     * document (src/PoserHud.tsx:364-366).
     */
    constructor ()
      ensures Valid() && fresh(hud) && fresh(hud.timeline) && !interacting && !hud.timeline.isDragging
      ensures currentTime == 0.0 && animation == Some(HudDefault)
      ensures hud.currentTime == 0.0 && !hud.isPlaying && hud.selected == Some(0)
    {
      currentTime := 0.0;
      animation := Some(PoserDefault);
      currentPose := map[];
      interacting := false;
      hud := new PoserHud();
      new;
      OnAnimationChange(hud.animation);
    }

    /** The pose effect (28-42): recompute the pose when there is an animation, else keep it. */
    method Refresh()
      modifies this`currentPose
      ensures currentPose == if animation.Some? then Evaluate(animation.value.keyframes, currentTime) else old(currentPose)
    {
      if animation.Some? {
        var newPose := EvaluatePose(animation.value.keyframes, currentTime);
        currentPose := newPose;
      }
    }

    /** onTimeChange (71, 96), followed by the pose effect. */
    method OnTimeChange(t: real)
      modifies this`currentTime, this`currentPose
      ensures currentTime == t
      ensures currentPose == if animation.Some? then Evaluate(animation.value.keyframes, t) else old(currentPose)
    {
      currentTime := t;
      Refresh();
    }

    /** onAnimationChange (72, 97), followed by the pose effect. */
    method OnAnimationChange(a: PoseAnimation)
      modifies this`animation, this`currentPose
      ensures animation == Some(a) && currentPose == Evaluate(a.keyframes, currentTime)
    {
      animation := Some(a);
      Refresh();
    }

    /** onPointerDown (73-75). */
    method OnPointerDown()
      modifies this`interacting
      ensures interacting
    {
      interacting := true;
    }

    /** onPointerUp (76-78): the only place the interacting flag is cleared after a drag. */
    method OnPointerUp()
      modifies this`interacting
      ensures !interacting
    {
      interacting := false;
    }

    /** onInteractingChanged (79-81). */
    method OnInteractingChanged(b: bool)
      modifies this`interacting
      ensures interacting == b
    {
      interacting := b;
    }

    /**
     * After a HUD handler, as the components are wired: the HUD's effect forwards its
     * animation, but the onTimeChange callback is never called (PoserHud takes it out of
     * its props only into groupProps), so the avatar's playhead stays where it was.
     */
    method HudUpdatedAsWritten()
      requires hud.Valid()
      modifies this`animation, this`currentPose
      ensures Shows()
      ensures animation == Some(hud.animation) && currentTime == old(currentTime)
      ensures currentPose == Evaluate(hud.animation.keyframes, old(currentTime))
    {
      OnAnimationChange(hud.animation);
    }

    /** After a HUD handler, with the HUD's playhead forwarded too: the avatar follows the HUD. */
    method HudUpdated()
      requires hud.Valid()
      modifies this`animation, this`currentPose, this`currentTime
      ensures Valid()
    {
      OnAnimationChange(hud.animation);
      OnTimeChange(hud.currentTime);
    }

    /** One playback tick, as wired: the HUD's playhead moves, the avatar's does not. */
    method PlaybackTickAsWritten()
      requires Shows()
      modifies hud`currentTime, this`animation, this`currentPose
      ensures Shows() && currentTime == old(currentTime)
      ensures hud.currentTime == if hud.isPlaying then Playback.Tick(old(hud.currentTime), hud.animation.length) else old(hud.currentTime)
    {
      hud.PlaybackTick();
      HudUpdatedAsWritten();
    }

    /** One playback tick, then the corrected hand-over: the avatar follows the HUD's playhead. */
    method PlaybackTick()
      requires Shows()
      modifies hud`currentTime, this`animation, this`currentPose, this`currentTime
      ensures Valid() && 0.0 <= currentTime <= hud.animation.length
      ensures currentTime == if hud.isPlaying then Playback.Tick(old(hud.currentTime), hud.animation.length) else old(hud.currentTime)
    {
      hud.PlaybackTick();
      HudUpdated();
    }

    /**
     * A press on the Timeline: dragging starts from the HUD's playhead and the orbit
     * controls are switched off; the Timeline stops the press there (src/PoserHud.tsx:256).
     */
    method ScrubStart(clientX: real)
      requires Shows()
      modifies hud.timeline, this`interacting
      ensures Shows() && interacting && (old(Valid()) ==> Valid())
      ensures hud.timeline.isDragging && hud.timeline.dragStartX == clientX
      ensures hud.timeline.dragStartCurrentTime == hud.currentTime
    {
      var flag := hud.TimelinePointerDown(clientX);
      OnInteractingChanged(flag);
    }

    /**
     * A press on keyframe marker i: it selects the keyframe, then bubbles to the Timeline,
     * which starts a drag and raises the interacting flag (src/PoserHud.tsx:251-257, 314-317).
     */
    method MarkerPress(i: nat, clientX: real)
      requires Shows() && i < |hud.animation.keyframes|
      modifies hud`selected, hud.timeline, this`interacting
      ensures Shows() && (old(Valid()) ==> Valid())
      ensures hud.selected == Some(i) && interacting
      ensures hud.timeline.isDragging && hud.timeline.dragStartX == clientX
      ensures hud.timeline.dragStartCurrentTime == hud.currentTime
    {
      var flag := hud.MarkerPressed(i, clientX);
      OnInteractingChanged(flag);
    }

    /** A drag step of the Timeline, as wired: only the HUD's playhead follows the drag. */
    method ScrubMoveAsWritten(clientX: real, width: real)
      requires Shows() && (hud.timeline.isDragging ==> width != 0.0)
      modifies hud`currentTime, this`animation, this`currentPose
      ensures Shows() && currentTime == old(currentTime)
      ensures !hud.timeline.isDragging ==> hud.currentTime == old(hud.currentTime)
      ensures hud.timeline.isDragging ==>
        hud.currentTime == Widgets.ScrubTime(hud.timeline.dragStartCurrentTime, hud.timeline.dragStartX,
                                             clientX, width * 0.9, hud.animation.length)
    {
      hud.TimelinePointerMove(clientX, width);
      HudUpdatedAsWritten();
    }

    /** A drag step of the Timeline, then the corrected hand-over: the avatar follows the clamped time. */
    method ScrubMove(clientX: real, width: real)
      requires Shows() && (hud.timeline.isDragging ==> width != 0.0)
      modifies hud`currentTime, this`animation, this`currentPose, this`currentTime
      ensures Valid() && 0.0 <= currentTime <= hud.animation.length
      ensures !hud.timeline.isDragging ==> hud.currentTime == old(hud.currentTime)
      ensures hud.timeline.isDragging ==>
        currentTime == Widgets.ScrubTime(hud.timeline.dragStartCurrentTime, hud.timeline.dragStartX,
                                         clientX, width * 0.9, hud.animation.length)
    {
      hud.TimelinePointerMove(clientX, width);
      HudUpdated();
    }

    /**
     * Release over the Timeline: it stops dragging, and the release reaches the HUD's
     * group, whose onPointerUp clears the interacting flag.
     */
    method ScrubEnd()
      requires Shows()
      modifies hud.timeline`isDragging, this`interacting
      ensures Shows() && (old(Valid()) ==> Valid())
      ensures !interacting && !hud.timeline.isDragging
    {
      hud.TimelinePointerUp();
      OnPointerUp();
    }
  }

  /**
   * The wiring discrepancy on a concrete document: a keyframe at 1 s poses the neck; with
   * the HUD's playhead at 1 s, the pose there has the neck, but the pose at the avatar's
   * playhead, still 0, has not.
   */
  lemma StalePlayheadHidesEdit()
    ensures var kfs := [Keyframe(0.0, map[]), Keyframe(1.0, map["Neck" := Vec(0.0, 1.0, 0.0)])];
            "Neck" !in Evaluate(kfs, 0.0) && "Neck" in Evaluate(kfs, 1.0)
  {
    var kfs := [Keyframe(0.0, map[]), Keyframe(1.0, map["Neck" := Vec(0.0, 1.0, 0.0)])];
    ScanLengthUnique(kfs, 0.0, 1);
    ScanLengthUnique(kfs, 1.0, 2);
    EvaluateDomain(kfs, 0.0, "Neck");
    EvaluateDomain(kfs, 1.0, "Neck");
  }

  /**
   * As wired, one tick of playback moves the HUD's playhead to 0.1 s while the avatar's
   * playhead stays at 0.
   */
  method AsWrittenPlayheadStays() returns (hudTime: real, avatarTime: real)
    ensures hudTime == 0.1 && avatarTime == 0.0
  {
    var poser := new Poser();
    poser.hud.TogglePlay();
    poser.PlaybackTickAsWritten();
    hudTime, avatarTime := poser.hud.currentTime, poser.currentTime;
  }
}
