/**
 * Pose evaluation of the Poser (src/Poser.tsx:28-42): walk the keyframes in insertion
 * order, stop at the first one later than the playhead, and merge the poses of the
 * keyframes walked over into a fresh map, later ones overwriting earlier ones.
 * This is a step/hold merge: no value is ever blended.
 */
module PoseEval {
  import opened Animation

  /** How many keyframes the scan merges before it meets the first one later than t. */
  function ScanLength(kfs: seq<Keyframe>, t: real): (n: nat)
    ensures n <= |kfs|
    ensures forall i :: 0 <= i < n ==> kfs[i].time <= t
    ensures n < |kfs| ==> kfs[n].time > t
  {
    if |kfs| == 0 || kfs[0].time > t then 0 else 1 + ScanLength(kfs[1..], t)
  }

  /** The scan length is the only prefix length with those two properties. */
  lemma ScanLengthUnique(kfs: seq<Keyframe>, t: real, n: nat)
    requires n <= |kfs|
    requires forall i :: 0 <= i < n ==> kfs[i].time <= t
    requires n < |kfs| ==> kfs[n].time > t
    ensures ScanLength(kfs, t) == n
  {
  }

  /** Object.assign of every pose, first to last, into an empty map. */
  function Merged(kfs: seq<Keyframe>): Pose
  {
    if |kfs| == 0 then map[] else Merged(kfs[..|kfs| - 1]) + kfs[|kfs| - 1].pose
  }

  /** The pose shown at playhead t. */
  function Evaluate(kfs: seq<Keyframe>, t: real): (p: Pose)
    ensures (|kfs| == 0 || kfs[0].time > t) ==> p == map[]
  {
    Merged(kfs[..ScanLength(kfs, t)])
  }

  /** Reference definition: the index of the last keyframe that defines bone b, or -1. */
  function LastDefiner(kfs: seq<Keyframe>, b: string): (r: int)
    ensures -1 <= r < |kfs|
    ensures r >= 0 ==> b in kfs[r].pose
    ensures forall j :: r < j < |kfs| ==> b !in kfs[j].pose
  {
    if |kfs| == 0 then -1
    else if b in kfs[|kfs| - 1].pose then |kfs| - 1
    else LastDefiner(kfs[..|kfs| - 1], b)
  }

  /** Merging holds bone b exactly when some keyframe defines it, with the last definer's value. */
  lemma {:induction false} MergedIsLastDefiner(kfs: seq<Keyframe>, b: string)
    ensures b in Merged(kfs) <==> LastDefiner(kfs, b) >= 0
    ensures b in Merged(kfs) ==> Merged(kfs)[b] == kfs[LastDefiner(kfs, b)].pose[b]
  {
    if |kfs| > 0 {
      var init := kfs[..|kfs| - 1];
      MergedIsLastDefiner(init, b);
      if b !in kfs[|kfs| - 1].pose {
        var r := LastDefiner(init, b);
        assert r >= 0 ==> init[r] == kfs[r];
      }
    }
  }

  /** A bone is in the evaluated pose exactly when some scanned keyframe defines it. */
  lemma EvaluateDomain(kfs: seq<Keyframe>, t: real, b: string)
    ensures b in Evaluate(kfs, t) <==>
            exists i :: 0 <= i < ScanLength(kfs, t) && b in kfs[i].pose
  {
    var n := ScanLength(kfs, t);
    var p := kfs[..n];
    MergedIsLastDefiner(p, b);
    var r := LastDefiner(p, b);
    if r >= 0 {
      assert p[r] == kfs[r];
    }
    if exists i :: 0 <= i < n && b in kfs[i].pose {
      var i :| 0 <= i < n && b in kfs[i].pose;
      assert p[i] == kfs[i];
    }
  }

  /**
   * Every value in the evaluated pose is exactly the value stored by the last scanned
   * keyframe that defines that bone; that keyframe is not later than the playhead.
   */
  lemma EvaluateValue(kfs: seq<Keyframe>, t: real, b: string)
    requires b in Evaluate(kfs, t)
    ensures exists i :: 0 <= i < ScanLength(kfs, t) && kfs[i].time <= t && b in kfs[i].pose &&
                        Evaluate(kfs, t)[b] == kfs[i].pose[b] &&
                        forall j :: i < j < ScanLength(kfs, t) ==> b !in kfs[j].pose
  {
    var n := ScanLength(kfs, t);
    var p := kfs[..n];
    MergedIsLastDefiner(p, b);
    var r := LastDefiner(p, b);
    assert p[r] == kfs[r];
    assert forall j :: r < j < n ==> p[j] == kfs[j];
  }

  /** Keyframes after the one that stops the scan contribute nothing, whatever their times. */
  lemma EvaluateIgnoresRest(kfs: seq<Keyframe>, t: real, rest: seq<Keyframe>)
    requires ScanLength(kfs, t) < |kfs|
    ensures Evaluate(kfs[..ScanLength(kfs, t) + 1] + rest, t) == Evaluate(kfs, t)
  {
    var n := ScanLength(kfs, t);
    var k := kfs[..n + 1] + rest;
    assert forall i :: 0 <= i <= n ==> k[i] == kfs[i];
    ScanLengthUnique(k, t, n);
    assert k[..n] == kfs[..n];
  }

  /** Keyframes ordered by time. */
  ghost predicate SortedByTime(kfs: seq<Keyframe>)
  {
    forall i, j :: 0 <= i <= j < |kfs| ==> kfs[i].time <= kfs[j].time
  }

  /** With keyframes ordered by time, the scan merges exactly those not later than t. */
  lemma SortedScanIsTimeFilter(kfs: seq<Keyframe>, t: real)
    requires SortedByTime(kfs)
    ensures forall i :: 0 <= i < |kfs| ==> (i < ScanLength(kfs, t) <==> kfs[i].time <= t)
  {
    var n := ScanLength(kfs, t);
    forall i | n <= i < |kfs| ensures kfs[i].time > t {
      assert kfs[n].time <= kfs[i].time;
    }
  }

  /** A later playhead scans at least as far. */
  lemma ScanMonotone(kfs: seq<Keyframe>, t1: real, t2: real)
    requires t1 <= t2
    ensures ScanLength(kfs, t1) <= ScanLength(kfs, t2)
  {
  }

  /** The set of posed bones only grows as the playhead advances (ordered or not). */
  lemma EvaluateKeysGrow(kfs: seq<Keyframe>, t1: real, t2: real)
    requires t1 <= t2
    ensures Evaluate(kfs, t1).Keys <= Evaluate(kfs, t2).Keys
  {
    ScanMonotone(kfs, t1, t2);
    forall b | b in Evaluate(kfs, t1) ensures b in Evaluate(kfs, t2) {
      EvaluateDomain(kfs, t1, b);
      EvaluateDomain(kfs, t2, b);
    }
  }

  /** Past every keyframe, the pose is the merge of all of them: the last values are held. */
  lemma EvaluateAfterAll(kfs: seq<Keyframe>, t: real)
    requires forall i :: 0 <= i < |kfs| ==> kfs[i].time <= t
    ensures Evaluate(kfs, t) == Merged(kfs)
  {
    ScanLengthUnique(kfs, t, |kfs|);
    assert kfs[..|kfs|] == kfs;
  }

  /**
   * A step, not a blend: between a neck at rest at 0 s and a turned neck at 10 s, the
   * pose at 5 s is still the one at 0 s.
   */
  lemma HoldsInsteadOfInterpolating()
    ensures var kfs := [Keyframe(0.0, map["Neck" := Vec(0.0, 0.0, 0.0)]),
                        Keyframe(10.0, map["Neck" := Vec(0.0, 1.0, 0.0)])];
            Evaluate(kfs, 5.0) == map["Neck" := Vec(0.0, 0.0, 0.0)]
  {
    var kfs := [Keyframe(0.0, map["Neck" := Vec(0.0, 0.0, 0.0)]),
                Keyframe(10.0, map["Neck" := Vec(0.0, 1.0, 0.0)])];
    ScanLengthUnique(kfs, 5.0, 1);
    assert kfs[..1] == [kfs[0]] && [kfs[0]][..0] == [];
  }

  /** The loop of the Poser's effect: merges scanned poses into a fresh map. */
  method EvaluatePose(keyframes: seq<Keyframe>, currentTime: real) returns (newPose: Pose)
    ensures newPose == Evaluate(keyframes, currentTime)
  {
    newPose := map[];
    var i := 0;
    while i < |keyframes|
      invariant 0 <= i <= |keyframes|
      invariant forall j :: 0 <= j < i ==> keyframes[j].time <= currentTime
      invariant newPose == Merged(keyframes[..i])
    {
      if keyframes[i].time > currentTime {
        break;
      }
      assert keyframes[..i + 1][..i] == keyframes[..i];
      newPose := newPose + keyframes[i].pose;
      i := i + 1;
    }
    ScanLengthUnique(keyframes, currentTime, i);
  }
}
