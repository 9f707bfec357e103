/** The motion compiler: a sequence of perceived pose frames becomes a named
    motion clip, frame for frame. Times and joint positions are opaque
    payload. */
module MotionCompiler {

  datatype Joint = Joint(name: string, x: real, y: real, z: real)

  datatype PoseFrame = PoseFrame(time: real, joints: seq<Joint>)
  datatype MotionFrame = MotionFrame(time: real, joints: seq<Joint>)
  datatype MotionClip = MotionClip(name: string, frames: seq<MotionFrame>)

  function FrameOf(pose: PoseFrame): MotionFrame {
    MotionFrame(pose.time, pose.joints)
  }

  /** `compile_from_pose_sequence`. */
  function CompileFromPoseSequence(name: string, poses: seq<PoseFrame>): (clip: MotionClip)
    ensures clip.name == name
    ensures |clip.frames| == |poses|
    ensures forall i :: 0 <= i < |poses| ==>
      clip.frames[i].time == poses[i].time && clip.frames[i].joints == poses[i].joints
  {
    MotionClip(name, seq(|poses|, i requires 0 <= i < |poses| => FrameOf(poses[i])))
  }

  /** Reading a clip's frames back as pose frames. */
  function PosesOf(clip: MotionClip): (poses: seq<PoseFrame>)
    ensures |poses| == |clip.frames|
  {
    seq(|clip.frames|, i requires 0 <= i < |clip.frames| => PoseFrame(clip.frames[i].time, clip.frames[i].joints))
  }

  /** Compiling loses nothing: the clip's frames read back as exactly the
      poses it was compiled from. */
  lemma CompileRoundTrip(name: string, poses: seq<PoseFrame>)
    ensures PosesOf(CompileFromPoseSequence(name, poses)) == poses
  {
    var back := PosesOf(CompileFromPoseSequence(name, poses));
    assert forall i :: 0 <= i < |poses| ==> back[i] == poses[i];
  }

  /** Compiling is frame by frame: the clip of a joined run is the two clips'
      frames joined. */
  lemma CompileConcatenates(name: string, a: seq<PoseFrame>, b: seq<PoseFrame>)
    ensures CompileFromPoseSequence(name, a + b).frames
      == CompileFromPoseSequence(name, a).frames + CompileFromPoseSequence(name, b).frames
  {
  }

  /** The crate's own cases: an empty run gives an empty clip. */
  lemma EmptyRunGivesEmptyClip(name: string)
    ensures CompileFromPoseSequence(name, []) == MotionClip(name, [])
  {
  }
}
