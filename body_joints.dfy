/** The body joints the pose model reports (VROBodyJointType), shared by
    the vision engine and the body tracker controller. The enumeration's
    header is not part of this model: the joints are taken in the order of
    the controller's joint tree, with the pelvis last. */
module BodyJoints {

  datatype JointType =
    | Top | Neck
    | RightShoulder | RightElbow | RightWrist | RightHip | RightKnee | RightAnkle
    | LeftShoulder | LeftElbow | LeftWrist | LeftHip | LeftKnee | LeftAnkle
    | Pelvis

  /** kNumBodyJoints. */
  const NumJoints: nat := 15

  /** The joint's slot in an array of per-joint results. */
  function Index(t: JointType): (i: nat)
    ensures i < NumJoints
  {
    match t
    case Top => 0
    case Neck => 1
    case RightShoulder => 2
    case RightElbow => 3
    case RightWrist => 4
    case RightHip => 5
    case RightKnee => 6
    case RightAnkle => 7
    case LeftShoulder => 8
    case LeftElbow => 9
    case LeftWrist => 10
    case LeftHip => 11
    case LeftKnee => 12
    case LeftAnkle => 13
    case Pelvis => 14
  }

  datatype Vec3 = Vec3(x: real, y: real, z: real)
}
