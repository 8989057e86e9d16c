/** The animation document shared by the Poser and the HUD (src/Poser.tsx:8-14). */
module Animation {

  datatype Option<T> = None | Some(value: T)

  /** A bone's value: a blend weight for the facial bones, an x/y/z rotation for the others. */
  datatype ChannelValue = Scalar(v: real) | Vec(x: real, y: real, z: real)

  /** An AvatarPose: bone name to value. */
  type Pose = map<string, ChannelValue>

  datatype Keyframe = Keyframe(time: real, pose: Pose)

  /** A PoseAnimation: its length in seconds and its keyframes in insertion order. */
  datatype PoseAnimation = PoseAnimation(length: real, keyframes: seq<Keyframe>)

  /** The length both components start with. */
  const DefaultLength: real := 15.0

  /** The Poser's initial animation: no keyframes (src/Poser.tsx:22-25). */
  const PoserDefault: PoseAnimation := PoseAnimation(DefaultLength, [])

  /** The HUD's initial animation: one empty keyframe at time 0 (src/PoserHud.tsx:351-359). */
  const HudDefault: PoseAnimation := PoseAnimation(DefaultLength, [Keyframe(0.0, map[])])

  /** Every keyframe lies inside the animation. */
  ghost predicate TimesInRange(a: PoseAnimation)
  {
    forall i :: 0 <= i < |a.keyframes| ==> 0.0 <= a.keyframes[i].time <= a.length
  }
}
