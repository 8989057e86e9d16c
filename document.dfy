/**
 * The HUD's edits of the animation document (src/PoserHud.tsx). Each takes the document
 * and the selected keyframe index (null when nothing is selected) and builds a new
 * document; none touches the animation's length.
 */
module Document {
  import opened Animation
  import opened PoseEval
  import Bones

  /** The facial bones, whose value is a single blend weight. */
  const ScalarBones: seq<string> := ["MouthSmile", "MouthOpen"]

  /** The selection names keyframe i. */
  predicate Selects(sel: Option<nat>, i: int)
  {
    sel.Some? && sel.value == i
  }

  /** The selection names an existing keyframe. */
  predicate ValidSelection(a: PoseAnimation, sel: Option<nat>)
  {
    sel.Some? && sel.value < |a.keyframes|
  }

  /** "Add Keyframe": append an empty keyframe at the playhead (src/PoserHud.tsx:551-560). */
  function AddKeyframe(a: PoseAnimation, currentTime: real): (r: PoseAnimation)
    ensures r.length == a.length
    ensures |r.keyframes| == |a.keyframes| + 1
    ensures r.keyframes[..|a.keyframes|] == a.keyframes
    ensures r.keyframes[|a.keyframes|] == Keyframe(currentTime, map[])
  {
    a.(keyframes := a.keyframes + [Keyframe(currentTime, map[])])
  }

  /** keyframes.filter((_, i) => i !== sel) */
  function FilterOutIndex(ks: seq<Keyframe>, sel: Option<nat>): (r: seq<Keyframe>)
    ensures sel.Some? && sel.value < |ks| ==> r == ks[..sel.value] + ks[sel.value + 1..]
    ensures !(sel.Some? && sel.value < |ks|) ==> r == ks
  {
    if |ks| == 0 then []
    else
      var init, last := ks[..|ks| - 1], ks[|ks| - 1];
      var rest := FilterOutIndex(init, sel);
      assert ks == init + [last];
      if Selects(sel, |ks| - 1) then
        assert ks[sel.value + 1..] == [];
        rest
      else
        assert sel.Some? && sel.value < |init| ==>
          ks[..sel.value] + ks[sel.value + 1..] == init[..sel.value] + init[sel.value + 1..] + [last];
        rest + [last]
  }

  /** "Delete Keyframe": drop the selected keyframe, if there is one (src/PoserHud.tsx:594-599). */
  function DeleteKeyframe(a: PoseAnimation, sel: Option<nat>): (r: PoseAnimation)
    ensures r.length == a.length
    ensures ValidSelection(a, sel) ==>
      |r.keyframes| == |a.keyframes| - 1 &&
      r.keyframes == a.keyframes[..sel.value] + a.keyframes[sel.value + 1..]
    ensures !ValidSelection(a, sel) ==> r == a
  {
    a.(keyframes := FilterOutIndex(a.keyframes, sel))
  }

  /**
   * Give bone `name` the value v in the selected keyframe, as the spread-and-map updates
   * of src/PoserHud.tsx:445-468, 638-657 and 675-690 do.
   */
  function SetBone(a: PoseAnimation, sel: Option<nat>, name: string, v: ChannelValue): (r: PoseAnimation)
    ensures r.length == a.length && |r.keyframes| == |a.keyframes|
    ensures forall i :: 0 <= i < |a.keyframes| && !Selects(sel, i) ==> r.keyframes[i] == a.keyframes[i]
    ensures ValidSelection(a, sel) ==>
      var before, after := a.keyframes[sel.value], r.keyframes[sel.value];
      after.time == before.time &&
      after.pose.Keys == before.pose.Keys + {name} &&
      after.pose[name] == v &&
      forall b :: b in before.pose && b != name ==> after.pose[b] == before.pose[b]
    ensures !ValidSelection(a, sel) ==> r == a
  {
    var ks := seq(|a.keyframes|, i requires 0 <= i < |a.keyframes| =>
      if Selects(sel, i) then a.keyframes[i].(pose := a.keyframes[i].pose[name := v])
      else a.keyframes[i]);
    assert !ValidSelection(a, sel) ==> ks == a.keyframes;
    a.(keyframes := ks)
  }

  /** The value a newly added bone starts with (src/PoserHud.tsx:454-463). */
  function ZeroValue(name: string): (r: ChannelValue)
    ensures r.Scalar? <==> name in ScalarBones
    ensures r == Scalar(0.0) || r == Vec(0.0, 0.0, 0.0)
  {
    if name in ScalarBones then Scalar(0.0) else Vec(0.0, 0.0, 0.0)
  }

  /** Picking a bone in the bone picker (src/PoserHud.tsx:445-468). */
  function AddBone(a: PoseAnimation, sel: Option<nat>, name: string): (r: PoseAnimation)
    ensures r.length == a.length && |r.keyframes| == |a.keyframes|
    ensures ValidSelection(a, sel) ==>
      var p := r.keyframes[sel.value].pose;
      name in p &&
      ((name == "MouthSmile" || name == "MouthOpen") ==> p[name] == Scalar(0.0)) &&
      ((name != "MouthSmile" && name != "MouthOpen") ==> p[name] == Vec(0.0, 0.0, 0.0))
    ensures !ValidSelection(a, sel) ==> r == a
  {
    SetBone(a, sel, name, ZeroValue(name))
  }

  /** A VectorInput change on a bone of the selected keyframe (src/PoserHud.tsx:637-657). */
  function SetVectorBone(a: PoseAnimation, sel: Option<nat>, name: string, v: (real, real, real)): (r: PoseAnimation)
    ensures r.length == a.length && |r.keyframes| == |a.keyframes|
    ensures ValidSelection(a, sel) ==>
      var p := r.keyframes[sel.value].pose;
      name in p && p[name].Vec? && p[name].x == v.0 && p[name].y == v.1 && p[name].z == v.2
    ensures !ValidSelection(a, sel) ==> r == a
  {
    SetBone(a, sel, name, Vec(v.0, v.1, v.2))
  }

  /** A NumericSliderInput change on a bone of the selected keyframe (src/PoserHud.tsx:674-690). */
  function SetScalarBone(a: PoseAnimation, sel: Option<nat>, name: string, v: real): (r: PoseAnimation)
    ensures r.length == a.length && |r.keyframes| == |a.keyframes|
    ensures ValidSelection(a, sel) ==>
      var p := r.keyframes[sel.value].pose;
      name in p && p[name] == Scalar(v)
    ensures !ValidSelection(a, sel) ==> r == a
  {
    SetBone(a, sel, name, Scalar(v))
  }

  /** The bone names of the selected keyframe, none when it does not exist (src/PoserHud.tsx:388-391, 414-416). */
  function SelectedBoneNames(a: PoseAnimation, sel: Option<nat>): set<string>
  {
    if ValidSelection(a, sel) then a.keyframes[sel.value].pose.Keys else {}
  }

  /** The bone picker's list (src/PoserHud.tsx:413-419). */
  function Picker(known: seq<string>, a: PoseAnimation, sel: Option<nat>): (r: seq<string>)
    ensures Bones.Sorted(r)
    ensures forall b :: b in r <==> b in known && b !in SelectedBoneNames(a, sel)
    ensures forall b :: multiset(r)[b] == if b in SelectedBoneNames(a, sel) then 0 else multiset(known)[b]
    ensures ValidSelection(a, sel) ==> forall b :: b in r ==> b !in a.keyframes[sel.value].pose
  {
    Bones.RemainingBones(known, SelectedBoneNames(a, sel))
  }

  // ---------------------------------------------------------------------------------
  // Properties relating the operations

  /** Deleting the keyframe just added, which Add Keyframe selects, restores the document. */
  lemma DeleteUndoesAdd(a: PoseAnimation, t: real)
    ensures DeleteKeyframe(AddKeyframe(a, t), Some(|a.keyframes|)) == a
  {
    var r := AddKeyframe(a, t);
    assert r.keyframes[..|a.keyframes|] + r.keyframes[|a.keyframes| + 1..] == a.keyframes;
  }

  /** Adding a keyframe never changes the pose shown, at any playhead: its pose is empty. */
  lemma AddKeyframeKeepsPose(a: PoseAnimation, t: real, s: real)
    ensures Evaluate(AddKeyframe(a, t).keyframes, s) == Evaluate(a.keyframes, s)
  {
    var k := a.keyframes;
    var k' := AddKeyframe(a, t).keyframes;
    var n := ScanLength(k, s);
    assert forall i :: 0 <= i < |k| ==> k'[i] == k[i];
    if n < |k| || t > s {
      ScanLengthUnique(k', s, n);
      assert k'[..n] == k[..n];
    } else {
      ScanLengthUnique(k', s, n + 1);
      assert k'[..n + 1] == k' && k'[..n + 1][..n] == k[..n];
      assert Merged(k') == Merged(k[..n]) + map[];
      assert Merged(k[..n]) + map[] == Merged(k[..n]);
    }
  }

  /** Setting a bone twice leaves the second value: the edits are idempotent and last-wins. */
  lemma SetBoneLastWins(a: PoseAnimation, sel: Option<nat>, name: string, v: ChannelValue, w: ChannelValue)
    ensures SetBone(SetBone(a, sel, name, v), sel, name, w) == SetBone(a, sel, name, w)
  {
    var r1 := SetBone(SetBone(a, sel, name, v), sel, name, w);
    var r2 := SetBone(a, sel, name, w);
    if ValidSelection(a, sel) {
      var k := sel.value;
      assert r1.keyframes[k].pose == r2.keyframes[k].pose;
      assert r1.keyframes[k] == r2.keyframes[k];
      assert forall i :: 0 <= i < |r1.keyframes| ==> r1.keyframes[i] == r2.keyframes[i];
    }
  }

  /** Edits of two different bones commute. */
  lemma SetBoneCommutes(a: PoseAnimation, sel: Option<nat>, n1: string, v1: ChannelValue,
                        n2: string, v2: ChannelValue)
    requires n1 != n2
    ensures SetBone(SetBone(a, sel, n1, v1), sel, n2, v2) == SetBone(SetBone(a, sel, n2, v2), sel, n1, v1)
  {
    var r1 := SetBone(SetBone(a, sel, n1, v1), sel, n2, v2);
    var r2 := SetBone(SetBone(a, sel, n2, v2), sel, n1, v1);
    if ValidSelection(a, sel) {
      var k := sel.value;
      assert r1.keyframes[k].pose == r2.keyframes[k].pose;
      assert r1.keyframes[k] == r2.keyframes[k];
      assert forall i :: 0 <= i < |r1.keyframes| ==> r1.keyframes[i] == r2.keyframes[i];
    }
  }

  /**
   * An edit to the selected keyframe is what the avatar shows for that bone, once the
   * playhead has reached that keyframe and no later scanned keyframe poses the bone.
   */
  lemma SetBoneShown(a: PoseAnimation, k: nat, name: string, v: ChannelValue, t: real)
    requires k < ScanLength(a.keyframes, t)
    requires forall j :: k < j < ScanLength(a.keyframes, t) ==> name !in a.keyframes[j].pose
    ensures name in Evaluate(SetBone(a, Some(k), name, v).keyframes, t)
    ensures Evaluate(SetBone(a, Some(k), name, v).keyframes, t)[name] == v
  {
    var r := SetBone(a, Some(k), name, v);
    var n := ScanLength(a.keyframes, t);
    assert forall i :: 0 <= i < |a.keyframes| ==> r.keyframes[i].time == a.keyframes[i].time;
    ScanLengthUnique(r.keyframes, t, n);
    EvaluateDomain(r.keyframes, t, name);
    EvaluateValue(r.keyframes, t, name);
    var i :| 0 <= i < n && name in r.keyframes[i].pose &&
             Evaluate(r.keyframes, t)[name] == r.keyframes[i].pose[name] &&
             forall j :: i < j < n ==> name !in r.keyframes[j].pose;
    if i < k {
      assert name in r.keyframes[k].pose;
    }
  }

  /** Once picked, a bone leaves the picker; every other bone keeps its place in or out of it. */
  lemma PickedBoneLeavesPicker(known: seq<string>, a: PoseAnimation, k: nat, name: string)
    requires k < |a.keyframes|
    ensures name !in Picker(known, AddBone(a, Some(k), name), Some(k))
    ensures forall b :: b != name ==>
      (b in Picker(known, AddBone(a, Some(k), name), Some(k)) <==> b in Picker(known, a, Some(k)))
  {
  }
}
