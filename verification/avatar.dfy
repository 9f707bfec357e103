/** Pose bookkeeping of the perception avatar: the MoveNet keypoint table,
    the bone rig built from it, and how the latest perception frame fills the
    avatar's 2D pose. Coordinates and confidences are opaque payload. */
module Avatar {
  import opened Base

  const KeypointCount: nat := 17

  /** The MoveNet keypoint names, listed at their slot. */
  const KeypointNames: seq<string> := [
    "nose", "left_eye", "right_eye", "left_ear", "right_ear",
    "left_shoulder", "right_shoulder", "left_elbow", "right_elbow",
    "left_wrist", "right_wrist", "left_hip", "right_hip",
    "left_knee", "right_knee", "left_ankle", "right_ankle"
  ]

  /** `keypoint_index`: the slot of a MoveNet keypoint name, if it is one. */
  function KeypointIndex(name: string): Option<nat> {
    match name
    case "nose" => Some(0)
    case "left_eye" => Some(1)
    case "right_eye" => Some(2)
    case "left_ear" => Some(3)
    case "right_ear" => Some(4)
    case "left_shoulder" => Some(5)
    case "right_shoulder" => Some(6)
    case "left_elbow" => Some(7)
    case "right_elbow" => Some(8)
    case "left_wrist" => Some(9)
    case "right_wrist" => Some(10)
    case "left_hip" => Some(11)
    case "right_hip" => Some(12)
    case "left_knee" => Some(13)
    case "right_knee" => Some(14)
    case "left_ankle" => Some(15)
    case "right_ankle" => Some(16)
    case _ => None
  }

  /** The name table and the index agree: slot `i` is named `KeypointNames[i]`,
      so every slot 0..16 is reached. */
  lemma KeypointIndexOnto()
    ensures |KeypointNames| == KeypointCount
    ensures forall i :: 0 <= i < KeypointCount ==> KeypointIndex(KeypointNames[i]) == Some(i)
  {
  }

  /** A recognised name is the table's name for its slot. */
  lemma KeypointIndexNamed(name: string)
    requires KeypointIndex(name).Some?
    ensures KeypointIndex(name).value < KeypointCount && KeypointNames[KeypointIndex(name).value] == name
  {
  }

  /** Every recognised name lands on its own slot below the keypoint count,
      and only the 17 names are recognised. */
  lemma KeypointIndexSound(name: string)
    ensures KeypointIndex(name).Some? <==> name in KeypointNames
    ensures KeypointIndex(name).Some? ==>
      KeypointIndex(name).value < KeypointCount && KeypointNames[KeypointIndex(name).value] == name
  {
    KeypointIndexOnto();
    if KeypointIndex(name).Some? {
      KeypointIndexNamed(name);
    }
  }

  /** Two recognised names never share a slot. */
  lemma KeypointIndexInjective(a: string, b: string)
    requires KeypointIndex(a).Some? && KeypointIndex(a) == KeypointIndex(b)
    ensures a == b
  {
    KeypointIndexSound(a);
    KeypointIndexSound(b);
  }

  // ---------------------------------------------------------------------------
  // Bone rig
  // ---------------------------------------------------------------------------

  datatype BoneDefinition = BoneDefinition(name: string, start: string, end: string)

  /** A spawned bone: the two keypoint slots it spans. */
  datatype PoseBone = PoseBone(name: string, start: nat, end: nat)

  const BoneDefinitions: seq<BoneDefinition> := [
    BoneDefinition("bone_nose_left_eye", "nose", "left_eye"),
    BoneDefinition("bone_nose_right_eye", "nose", "right_eye"),
    BoneDefinition("bone_left_right_eye", "left_eye", "right_eye"),
    BoneDefinition("bone_shoulders", "left_shoulder", "right_shoulder"),
    BoneDefinition("bone_left_upper_arm", "left_shoulder", "left_elbow"),
    BoneDefinition("bone_left_lower_arm", "left_elbow", "left_wrist"),
    BoneDefinition("bone_right_upper_arm", "right_shoulder", "right_elbow"),
    BoneDefinition("bone_right_lower_arm", "right_elbow", "right_wrist"),
    BoneDefinition("bone_left_upper_body", "left_shoulder", "left_hip"),
    BoneDefinition("bone_right_upper_body", "right_shoulder", "right_hip"),
    BoneDefinition("bone_hips", "left_hip", "right_hip"),
    BoneDefinition("bone_left_upper_leg", "left_hip", "left_knee"),
    BoneDefinition("bone_left_lower_leg", "left_knee", "left_ankle"),
    BoneDefinition("bone_right_upper_leg", "right_hip", "right_knee"),
    BoneDefinition("bone_right_lower_leg", "right_knee", "right_ankle")
  ]

  predicate Resolves(d: BoneDefinition) {
    KeypointIndex(d.start).Some? && KeypointIndex(d.end).Some?
  }

  /** The bones `spawn_avatar` creates: one per definition whose two ends
      resolve, in definition order; the others are skipped. */
  function SpawnBones(defs: seq<BoneDefinition>): (bones: seq<PoseBone>)
    ensures |bones| <= |defs|
    ensures |bones| == |defs| <==> forall i :: 0 <= i < |defs| ==> Resolves(defs[i])
    ensures forall i :: 0 <= i < |bones| ==> bones[i].start < KeypointCount && bones[i].end < KeypointCount
    decreases |defs|
  {
    if |defs| == 0 then []
    else
      var rest := SpawnBones(defs[1..]);
      var d := defs[0];
      KeypointIndexSound(d.start);
      KeypointIndexSound(d.end);
      if Resolves(d) then
        [PoseBone(d.name, KeypointIndex(d.start).value, KeypointIndex(d.end).value)] + rest
      else
        assert !(forall i :: 0 <= i < |defs| ==> Resolves(defs[i]));
        rest
  }

  /** The definitions whose two ends resolve, in order. */
  function Resolving(defs: seq<BoneDefinition>): (r: seq<BoneDefinition>)
    ensures |r| <= |defs|
    ensures forall d :: d in r <==> d in defs && Resolves(d)
    decreases |defs|
  {
    if |defs| == 0 then []
    else if Resolves(defs[0]) then [defs[0]] + Resolving(defs[1..])
    else Resolving(defs[1..])
  }

  /** The bone spawned for a resolving definition. */
  function BoneOf(d: BoneDefinition): PoseBone
    requires Resolves(d)
  {
    PoseBone(d.name, KeypointIndex(d.start).value, KeypointIndex(d.end).value)
  }

  /** Bone `i` is the `i`-th resolving definition with its names replaced by
      their slots: the skipped definitions leave no gap and no trace. */
  lemma {:induction false} SpawnBonesFiltered(defs: seq<BoneDefinition>)
    ensures |SpawnBones(defs)| == |Resolving(defs)|
    ensures forall i :: 0 <= i < |Resolving(defs)| ==> SpawnBones(defs)[i] == BoneOf(Resolving(defs)[i])
    decreases |defs|
  {
    if |defs| > 0 {
      SpawnBonesFiltered(defs[1..]);
    }
  }

  /** When every definition resolves, bone `i` is definition `i` with its
      names replaced by their slots. */
  lemma {:induction false} SpawnBonesPointwise(defs: seq<BoneDefinition>)
    requires forall i :: 0 <= i < |defs| ==> Resolves(defs[i])
    ensures |SpawnBones(defs)| == |defs|
    ensures forall i :: 0 <= i < |defs| ==>
      SpawnBones(defs)[i] == PoseBone(defs[i].name, KeypointIndex(defs[i].start).value, KeypointIndex(defs[i].end).value)
    decreases |defs|
  {
    if |defs| > 0 {
      SpawnBonesPointwise(defs[1..]);
    }
  }

  /** Every bone end in the table names a keypoint. */
  lemma AllDefinitionsResolve()
    ensures forall i :: 0 <= i < |BoneDefinitions| ==> Resolves(BoneDefinitions[i])
  {
    forall i | 0 <= i < |BoneDefinitions|
      ensures Resolves(BoneDefinitions[i])
    {
      KeypointIndexSound(BoneDefinitions[i].start);
      KeypointIndexSound(BoneDefinitions[i].end);
    }
  }

  /** So the rig has all 15 bones, each joining the slots of its named
      keypoints. */
  lemma AllBonesSpawn()
    ensures |SpawnBones(BoneDefinitions)| == 15
    ensures forall i :: 0 <= i < 15 ==>
      && SpawnBones(BoneDefinitions)[i].name == BoneDefinitions[i].name
      && KeypointNames[SpawnBones(BoneDefinitions)[i].start] == BoneDefinitions[i].start
      && KeypointNames[SpawnBones(BoneDefinitions)[i].end] == BoneDefinitions[i].end
  {
    var defs := BoneDefinitions;
    AllDefinitionsResolve();
    SpawnBonesPointwise(defs);
    forall i | 0 <= i < |defs|
      ensures KeypointNames[SpawnBones(defs)[i].start] == defs[i].start
      ensures KeypointNames[SpawnBones(defs)[i].end] == defs[i].end
    {
      KeypointIndexSound(defs[i].start);
      KeypointIndexSound(defs[i].end);
    }
  }

  // ---------------------------------------------------------------------------
  // Pose state
  // ---------------------------------------------------------------------------

  datatype PoseSample = PoseSample(x: real, y: real, confidence: real)

  /** The avatar's 2D pose. `width` and `height` hold the frame size the
      pose was taken at (its `f32` rendering is not modelled). */
  datatype Pose2D = Pose2D(width: nat, height: nat, keypoints: seq<Option<PoseSample>>)

  predicate AllEmpty<T>(slots: seq<Option<T>>) {
    forall i :: 0 <= i < |slots| ==> slots[i].None?
  }

  function EmptySlots<T>(): (slots: seq<Option<T>>)
    ensures |slots| == KeypointCount && AllEmpty(slots)
  {
    seq(KeypointCount, _ => None)
  }

  function DefaultPose(): (p: Pose2D)
    ensures p.width == 1 && p.height == 1
    ensures |p.keypoints| == KeypointCount && AllEmpty(p.keypoints)
  {
    Pose2D(1, 1, EmptySlots())
  }

  function Clear(p: Pose2D): (r: Pose2D)
    ensures r.width == p.width && r.height == p.height
    ensures |r.keypoints| == KeypointCount && AllEmpty(r.keypoints)
  {
    p.(keypoints := EmptySlots())
  }

  /** Smoothing state of the rig: the blend factor, the last smoothed
      position per slot and the last confidence per slot. */
  datatype PoseApplier = PoseApplier(alpha: real, smoothed: seq<Option<(real, real)>>, confidence: seq<real>)

  function NewApplier(alpha: real): (a: PoseApplier)
    ensures a.alpha == alpha
    ensures |a.smoothed| == KeypointCount && AllEmpty(a.smoothed)
    ensures |a.confidence| == KeypointCount && forall i :: 0 <= i < KeypointCount ==> a.confidence[i] == 0.0
  {
    PoseApplier(alpha, EmptySlots(), seq(KeypointCount, _ => 0.0))
  }

  // ---------------------------------------------------------------------------
  // Perception frames
  // ---------------------------------------------------------------------------

  datatype Keypoint = Keypoint(name: string, x: real, y: real, c: real)
  datatype Person = Person(id: Option<string>, keypoints: seq<Keypoint>)
  datatype PerceptionFrame = PerceptionFrame(width: nat, height: nat, persons: seq<Person>)

  /** The person the avatar follows: the first one with id `p0`, otherwise
      the first one. */
  function SelectPerson(persons: seq<Person>): (r: Option<nat>)
    ensures r.None? <==> |persons| == 0
    ensures r.Some? ==> r.value < |persons|
    ensures r.Some? && persons[r.value].id == Some("p0") ==>
      forall j :: 0 <= j < r.value ==> persons[j].id != Some("p0")
    ensures r.Some? && persons[r.value].id != Some("p0") ==>
      r.value == 0 && forall j :: 0 <= j < |persons| ==> persons[j].id != Some("p0")
  {
    var withP0 := FirstWithId(persons, "p0", 0);
    if withP0.Some? then withP0
    else if |persons| > 0 then Some(0)
    else None
  }

  /** The first index at or after `from` whose id is `id`. */
  function FirstWithId(persons: seq<Person>, id: string, from: nat): (r: Option<nat>)
    requires from <= |persons|
    ensures r.Some? ==>
      && from <= r.value < |persons|
      && persons[r.value].id == Some(id)
      && forall j :: from <= j < r.value ==> persons[j].id != Some(id)
    ensures r.None? ==> forall j :: from <= j < |persons| ==> persons[j].id != Some(id)
    decreases |persons| - from
  {
    if from == |persons| then None
    else if persons[from].id == Some(id) then Some(from)
    else FirstWithId(persons, id, from + 1)
  }

  function SampleOf(k: Keypoint): PoseSample {
    PoseSample(k.x, k.y, k.c)
  }

  /** The sample slot `slot` ends up with after the keypoints are written in
      order: the last keypoint naming that slot, if any. */
  function LastSampleFor(kps: seq<Keypoint>, slot: nat): Option<PoseSample>
    decreases |kps|
  {
    if |kps| == 0 then None
    else if KeypointIndex(kps[|kps| - 1].name) == Some(slot) then Some(SampleOf(kps[|kps| - 1]))
    else LastSampleFor(kps[..|kps| - 1], slot)
  }

  /** Keypoint `k` names slot `slot`. */
  predicate Names(kps: seq<Keypoint>, k: nat, slot: nat)
    requires k < |kps|
  {
    KeypointIndex(kps[k].name) == Some(slot)
  }

  /** A slot stays empty exactly when no keypoint names it. */
  lemma {:induction false} LastSampleForNone(kps: seq<Keypoint>, slot: nat)
    ensures LastSampleFor(kps, slot).None? <==> forall k :: 0 <= k < |kps| ==> !Names(kps, k, slot)
    decreases |kps|
  {
    if |kps| > 0 {
      var last := |kps| - 1;
      var init := kps[..last];
      if !Names(kps, last, slot) {
        LastSampleForNone(init, slot);
        assert forall k :: 0 <= k < |init| ==> kps[k] == init[k];
        assert forall k :: 0 <= k < |init| ==> (Names(kps, k, slot) <==> Names(init, k, slot));
      }
    }
  }

  /** A filled slot holds the sample of the last keypoint naming it. */
  lemma {:induction false} LastSampleForSome(kps: seq<Keypoint>, slot: nat)
    requires LastSampleFor(kps, slot).Some?
    ensures exists k :: (0 <= k < |kps| && Names(kps, k, slot)
      && LastSampleFor(kps, slot) == Some(SampleOf(kps[k]))
      && forall k' :: k < k' < |kps| ==> !Names(kps, k', slot))
    decreases |kps|
  {
    var last := |kps| - 1;
    if !Names(kps, last, slot) {
      var init := kps[..last];
      LastSampleForSome(init, slot);
      var k :| 0 <= k < |init| && Names(init, k, slot)
        && LastSampleFor(init, slot) == Some(SampleOf(init[k]))
        && forall k' :: k < k' < |init| ==> !Names(init, k', slot);
      assert kps[k] == init[k];
      assert forall k' :: k < k' < |kps| ==> !Names(kps, k', slot) by {
        forall k' | k < k' < |kps|
          ensures !Names(kps, k', slot)
        {
          if k' < last { assert kps[k'] == init[k']; }
        }
      }
    }
  }

  /** `LastSampleFor` picks the last keypoint naming the slot; a slot no
      keypoint names stays empty, and unrecognised names touch no slot. */
  lemma LastSampleForIsLast(kps: seq<Keypoint>, slot: nat)
    ensures LastSampleFor(kps, slot).None? <==> forall k :: 0 <= k < |kps| ==> !Names(kps, k, slot)
    ensures LastSampleFor(kps, slot).Some? ==>
      exists k :: 0 <= k < |kps| && Names(kps, k, slot)
        && LastSampleFor(kps, slot) == Some(SampleOf(kps[k]))
        && forall k' :: k < k' < |kps| ==> !Names(kps, k', slot)
  {
    LastSampleForNone(kps, slot);
    if LastSampleFor(kps, slot).Some? {
      LastSampleForSome(kps, slot);
    }
  }

  /** The slot-filling loop of `update_pose_from_frame`: each keypoint with a
      recognised name overwrites its slot, in order. */
  method FillKeypoints(kps: seq<Keypoint>) returns (slots: seq<Option<PoseSample>>)
    ensures |slots| == KeypointCount
    ensures forall j :: 0 <= j < KeypointCount ==> slots[j] == LastSampleFor(kps, j)
  {
    slots := EmptySlots();
    var k := 0;
    while k < |kps|
      invariant 0 <= k <= |kps|
      invariant |slots| == KeypointCount
      invariant forall j :: 0 <= j < KeypointCount ==> slots[j] == LastSampleFor(kps[..k], j)
    {
      assert kps[..k + 1][..k] == kps[..k];
      var index := KeypointIndex(kps[k].name);
      if index.Some? {
        KeypointIndexSound(kps[k].name);
        slots := slots[index.value := Some(SampleOf(kps[k]))];
      }
      k := k + 1;
    }
    assert kps[..k] == kps;
  }

  /** `update_pose_from_frame` for the avatar's pose and the latest frame. */
  method UpdatePoseFromFrame(pose: Pose2D, latest: Option<PerceptionFrame>) returns (r: Pose2D)
    ensures |r.keypoints| == KeypointCount
    // with no frame the pose is just cleared
    ensures latest.None? ==> r == Clear(pose)
    // with a frame the size follows it
    ensures latest.Some? ==> r.width == latest.value.width && r.height == latest.value.height
    ensures latest.Some? && |latest.value.persons| == 0 ==> AllEmpty(r.keypoints)
    ensures latest.Some? && |latest.value.persons| > 0 ==>
      var chosen := latest.value.persons[SelectPerson(latest.value.persons).value];
      forall j :: 0 <= j < KeypointCount ==> r.keypoints[j] == LastSampleFor(chosen.keypoints, j)
  {
    r := Clear(pose);
    if latest.None? {
      return;
    }
    var frame := latest.value;
    r := r.(width := frame.width, height := frame.height);
    var chosen := SelectPerson(frame.persons);
    if chosen.None? {
      return;
    }
    var slots := FillKeypoints(frame.persons[chosen.value].keypoints);
    r := r.(keypoints := slots);
  }
}
