/**
 * The trajectory accumulator: `dump_xyz` and `dump_r` start from `np.eye(4)`,
 * right-multiply the running `cam_to_world` by each relative transform in turn,
 * and record its translation column or its 3×3 rotation block after every step.
 */
module Trajectory {
  import opened Linalg

  /** A pose array as numpy holds it: every entry a 4×4 matrix. */
  predicate AreTransforms(ts: seq<Matrix>)
  {
    forall k :: 0 <= k < |ts| ==> IsSquare(ts[k], 4)
  }

  /** `cam_to_world` after folding in every transform of `ts`: I · T0 · T1 · … · T(n-1). */
  function Pose(ts: seq<Matrix>): (p: Matrix)
    ensures IsSquare(p, 4)
    decreases |ts|
  {
    if ts == [] then Identity(4) else MatMul(Pose(ts[..|ts| - 1]), ts[|ts| - 1], 4)
  }

  /** `m[:3, 3]`: the translation column. */
  function Translation(m: Matrix): Point
  {
    Point(At(m, 0, 3), At(m, 1, 3), At(m, 2, 3))
  }

  /** `m[:3, :3]`: the rotation block. */
  function RotationBlock(m: Matrix): (r: Matrix)
    ensures IsSquare(r, 3)
  {
    seq(3, i => seq(3, j => At(m, i, j)))
  }

  /** Entry k of the positions `dump_xyz` returns: the translation of the product of the first k transforms. */
  function Positions(ts: seq<Matrix>): (xyzs: seq<Point>)
    ensures |xyzs| == |ts| + 1
    ensures xyzs[0] == Origin
  {
    seq(|ts| + 1, k requires 0 <= k <= |ts| => Translation(Pose(ts[..k])))
  }

  /** Entry k of the rotations `dump_r` returns: the rotation block of the product of the first k transforms. */
  function Rotations(ts: seq<Matrix>): (rs: seq<Matrix>)
    ensures |rs| == |ts| + 1
    ensures rs[0] == Identity(3)
    ensures forall k :: 0 <= k < |rs| ==> IsSquare(rs[k], 3)
  {
    RotationBlockIdentity();
    seq(|ts| + 1, k requires 0 <= k <= |ts| => RotationBlock(Pose(ts[..k])))
  }

  lemma RotationBlockIdentity()
    ensures RotationBlock(Identity(4)) == Identity(3)
  {
    var r := RotationBlock(Identity(4));
    forall i | 0 <= i < 3
      ensures r[i] == Identity(3)[i]
    {
    }
  }

  /** One more step of the fold: the pose after k + 1 transforms is the pose after k times transform k. */
  lemma PoseStep(ts: seq<Matrix>, k: nat)
    requires k < |ts|
    ensures Pose(ts[..k + 1]) == MatMul(Pose(ts[..k]), ts[k], 4)
  {
    assert ts[..k + 1][..k] == ts[..k];
  }

  /** `dump_xyz` (evaluate_pose.py, lines 19-27). */
  method DumpXyz(transforms: seq<Matrix>) returns (xyzs: seq<Point>)
    requires AreTransforms(transforms)
    ensures xyzs == Positions(transforms)
  {
    xyzs := [];
    var camToWorld := Identity(4);
    xyzs := xyzs + [Translation(camToWorld)];
    for i := 0 to |transforms|
      invariant camToWorld == Pose(transforms[..i])
      invariant |xyzs| == i + 1
      invariant forall k :: 0 <= k <= i ==> xyzs[k] == Translation(Pose(transforms[..k]))
    {
      PoseStep(transforms, i);
      camToWorld := MatMul(camToWorld, transforms[i], 4);
      xyzs := xyzs + [Translation(camToWorld)];
    }
    assert transforms[..|transforms|] == transforms;
  }

  /** `dump_r` (evaluate_pose.py, lines 30-38). */
  method DumpR(transforms: seq<Matrix>) returns (rs: seq<Matrix>)
    requires AreTransforms(transforms)
    ensures rs == Rotations(transforms)
  {
    rs := [];
    var camToWorld := Identity(4);
    rs := rs + [RotationBlock(camToWorld)];
    for i := 0 to |transforms|
      invariant camToWorld == Pose(transforms[..i])
      invariant |rs| == i + 1
      invariant forall k :: 0 <= k <= i ==> rs[k] == RotationBlock(Pose(transforms[..k]))
    {
      PoseStep(transforms, i);
      camToWorld := MatMul(camToWorld, transforms[i], 4);
      rs := rs + [RotationBlock(camToWorld)];
    }
    assert transforms[..|transforms|] == transforms;
  }

  /** The positions of a prefix of the input are a prefix of the positions of the whole input. */
  lemma PositionsPrefix(ts: seq<Matrix>, m: nat)
    requires m <= |ts|
    ensures Positions(ts[..m]) == Positions(ts)[..m + 1]
  {
    forall k | 0 <= k <= m
      ensures Positions(ts[..m])[k] == Positions(ts)[k]
    {
      assert ts[..m][..k] == ts[..k];
    }
  }

  /** The rotations of a prefix of the input are a prefix of the rotations of the whole input. */
  lemma RotationsPrefix(ts: seq<Matrix>, m: nat)
    requires m <= |ts|
    ensures Rotations(ts[..m]) == Rotations(ts)[..m + 1]
  {
    forall k | 0 <= k <= m
      ensures Rotations(ts[..m])[k] == Rotations(ts)[k]
    {
      assert ts[..m][..k] == ts[..k];
    }
  }

  predicate AllIdentity(ts: seq<Matrix>)
  {
    forall k :: 0 <= k < |ts| ==> ts[k] == Identity(4)
  }

  /** Folding identity transforms never leaves the identity. */
  lemma {:induction false} PoseOfIdentities(ts: seq<Matrix>)
    requires AllIdentity(ts)
    ensures Pose(ts) == Identity(4)
    decreases |ts|
  {
    if ts != [] {
      PoseOfIdentities(ts[..|ts| - 1]);
      MatMulIdentityRight(Identity(4), 4);
    }
  }

  /** Identity transforms give a trajectory that stays at the origin with identity orientation. */
  lemma IdentityTrajectory(ts: seq<Matrix>)
    requires AllIdentity(ts)
    ensures forall k :: 0 <= k <= |ts| ==> Positions(ts)[k] == Origin
    ensures forall k :: 0 <= k <= |ts| ==> Rotations(ts)[k] == Identity(3)
  {
    forall k | 0 <= k <= |ts|
      ensures Pose(ts[..k]) == Identity(4)
    {
      PoseOfIdentities(ts[..k]);
    }
    RotationBlockIdentity();
  }

  /** A single transform t gives the trajectory [origin, translation of t]. */
  lemma SingleStep(t: Matrix)
    requires IsSquare(t, 4)
    ensures Positions([t]) == [Origin, Translation(t)]
    ensures Rotations([t]) == [Identity(3), RotationBlock(t)]
  {
    assert [t][..1] == [t];
    assert [t][..0] == [];
    MatMulIdentityLeft(t, 4);
  }
}
