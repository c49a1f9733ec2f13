# Pose-trajectory evaluation, modelled in Dafny

This project models the trajectory evaluation in `evaluate_pose.py`, the
odometry evaluation script of GD-EMoDE. The script scores a monocular pose
network on the SCARED endoscopy sequences. For each sequence it cuts the
predicted and the ground-truth pose arrays into short windows. It turns each
window into a trajectory and records two errors:

- the Absolute Trajectory Error (ATE): the error left after aligning the first
  points and fitting one scale factor;
- the Rotation Error (RE): the mean rotation angle between paired orientations.

The model is written over exact `real` arithmetic, in six modules:

- `Outcome` (outcome.dfy): the `Result`/`Option` wrappers. It also holds the
  exceptions the script can raise:
  - `IndexError` on an empty array;
  - numpy's broadcast `ValueError`;
  - `LinAlgError` for a singular matrix;
  - `ZeroDivisionError`.
- `Linalg` (linalg.dfy): 3-vectors, matrices as sequences of rows, identity,
  product and transpose.
- `Trajectory` (trajectory.dfy): `dump_xyz` and `dump_r`. These are imperative
  loops that fold `cam_to_world = cam_to_world · T` from the 4×4 identity. Each
  is specified by a function: entry k is the translation, or the rotation
  block, of the product of the first k transforms.
- `Ate` (ate.dfy): `compute_ate` as a pure function up to the square root. It
  includes numpy's broadcasting of a one-point array against a longer one.
- `Re` (re.dfy): the `zip` loop of `compute_re` as a method. It is proved equal
  to a fold over the paired residual matrices.
- `Windows` (windows.dfy): the per-sequence window loop as a method. It is
  proved equal to a fold over the per-window scores. An exception in any window
  ends the evaluation.

Three numeric steps are parameters, not definitions:

- The matrix inverse is `inv: Matrix -> Option<Matrix>`, where `None` stands
  for `LinAlgError`.
- `np.arctan2(norm(skew), trace - 1)` is `angleOf(|skew|², trace - 1)`.
- The ATE carries the sum of squared alignment errors `sse` and the point count
  `N`. The script reports `sqrt(sse) / N`.

Where numpy produces `inf`/`nan` without raising, the ATE is `NotFinite`. This
happens when the scale denominator `sum(pred_aligned²)` is zero.

Behaviour that follows from the code as written:

- For `num_frames` ground-truth poses there are `num_frames - 1` windows. Take
  five identity poses compared with themselves. That gives four windows, not
  one. Every window's ATE is not finite, because all aligned points sit at the
  origin and the scale is 0/0. Every window's RE is `arctan2(0, 2)`.
- The ground-truth poses go through the same accumulator as the relative
  predictions.
- `compute_re` receives the prediction in its ground-truth slot.
- The window length is clamped by Python slicing. So a prediction array one
  shorter than the ground truth, with at least two ground-truth poses, always
  raises a shape error in some window.
- The window loop of lines 133-143, taken alone, never raises on an empty
  prediction array. Its single origin point broadcasts against every window,
  and the scores equal those of a perfect still-camera prediction. `evaluate`
  itself cannot reach this case. The prediction array comes from
  `np.concatenate` at line 127, which raises on an empty list, and every
  element appended at lines 121-122 holds one pose.

## Model

| member | source | states |
|---|---|---|
| Trajectory.DumpXyz | evaluate_pose.py:19-27 | the points returned are exactly `Positions(transforms)`: one more than the transforms, the first the origin, entry k the translation of T0·…·T(k−1) |
| Trajectory.DumpR | evaluate_pose.py:30-38 | the rotations returned are exactly `Rotations(transforms)`: one more than the transforms, the first the 3×3 identity, each 3×3, entry k the rotation block of T0·…·T(k−1) |
| Trajectory.Positions | evaluate_pose.py:19-27 | one point per prefix of the transforms, starting at the origin |
| Trajectory.Rotations | evaluate_pose.py:30-38 | one rotation per prefix of the transforms, starting at the identity, all 3×3 |
| Trajectory.PositionsPrefix | evaluate_pose.py:23-26 | the points of a prefix of the input are a prefix of the points of the whole input |
| Trajectory.RotationsPrefix | evaluate_pose.py:34-37 | the rotations of a prefix of the input are a prefix of the rotations of the whole input |
| Trajectory.PoseOfIdentities | evaluate_pose.py:21-24 | folding identity transforms from `np.eye(4)` never leaves the identity |
| Trajectory.IdentityTrajectory | evaluate_pose.py:21-26 | identity transforms give points all at the origin and rotations all the identity |
| Trajectory.SingleStep | evaluate_pose.py:21-26 | a single transform t gives the points [origin, translation of t] and the rotations [identity, rotation block of t] |
| Trajectory.PoseStep | evaluate_pose.py:24 | the pose after k + 1 transforms is the pose after k transforms right-multiplied by transform k |
| Linalg.MatMulIdentityRight | evaluate_pose.py:24 | right-multiplying by the identity leaves a square matrix unchanged |
| Linalg.MatMulIdentityLeft | evaluate_pose.py:21-24 | left-multiplying by the identity leaves a square matrix unchanged |
| Ate.ComputeAte | evaluate_pose.py:42-53 | an empty array raises, lengths that do not broadcast raise, a zero scale denominator gives a non-finite value (all as iff), otherwise the error is a non-negative sum of squares over the ground truth's point count |
| Ate.Broadcast | evaluate_pose.py:47-51 | a one-point array is repeated to n rows and an n-point array is kept |
| Ate.AlignedStartsAtGroundTruth | evaluate_pose.py:46-47 | the aligned prediction's first point is the ground truth's first point, and every predicted point moves by the same offset |
| Ate.AlignedOffsetInvariant | evaluate_pose.py:46-47 | adding the same vector to every predicted point leaves the aligned prediction unchanged |
| Ate.AteOffsetInvariant | evaluate_pose.py:46-52 | adding the same vector to every predicted point leaves the ATE (or its exception) unchanged |
| Ate.AteOfIdenticalTrajectories | evaluate_pose.py:50-52 | identical trajectories with a non-zero denominator align to themselves with scale exactly 1 and zero error |
| Ate.ScaleIsLeastSquares | evaluate_pose.py:50-51 | for equal lengths, no scale gives a smaller sum of squared errors than the closed-form one |
| Ate.ResidualExpansion | evaluate_pose.py:51-52 | the sum of squared errors at scale t is t²·Σ\|a\|² − 2t·Σg·a + Σ\|g\|² |
| Ate.SumSqNonNegative | evaluate_pose.py:52 | a sum of squares is never negative |
| Ate.SumSqOfOrigins | evaluate_pose.py:50 | points all at the origin have a zero sum of squares |
| Ate.AlignedOnePoint | evaluate_pose.py:46-47 | a one-point prediction aligned to a ground truth starting at the origin is the single origin point |
| Ate.AteOfOnePointPrediction | evaluate_pose.py:46-52 | a one-point prediction against a ground truth starting at the origin broadcasts and gives a non-finite ATE |
| Re.ComputeRe | evaluate_pose.py:56-70 | the loop returns `RotationError`: the first singular matrix raises, an empty first argument divides by zero, otherwise the summed angles of the zipped pairs divided by the first argument's length |
| Re.ZipArgsPairs | evaluate_pose.py:60 | `zip` yields as many pairs as the shorter list, pair k holding entry k of each list |
| Re.SumAnglesFailurePersists | evaluate_pose.py:60-68 | once a pair raises, later pairs do not change the result |
| Re.SumAnglesStep | evaluate_pose.py:60-68 | one more pair either raises that pair's exception for the whole loop or adds its angle to the running sum |
| Re.PairArgsOfSameRotation | evaluate_pose.py:62-66 | a rotation paired with itself (with a true inverse) has a zero skew vector and trace − 1 equal to 2 |
| Re.SumAnglesOfConstant | evaluate_pose.py:60-68 | pairs that all give the same angle sum to that angle times their number |
| Re.ReOfIdenticalRotations | evaluate_pose.py:56-70 | a non-empty list of invertible rotations compared with itself has RE `arctan2(0, 2)` |
| Re.PairArgsSymmetric | evaluate_pose.py:62-66 | for rotations whose inverse is their transpose, swapping the pair negates the skew vector and keeps the trace |
| Re.ReSymmetric | evaluate_pose.py:56-70 | for equal-length lists of rotations whose inverse is their transpose, the RE does not depend on which list is passed first |
| Re.ReIgnoresUnpairedRotations | evaluate_pose.py:60 | rotations in the second argument beyond the first argument's length are never compared |
| Windows.Window | evaluate_pose.py:137-140 | a window holds at most `track_length - 1` transforms; exactly that many when the array is long enough, the rest of the array near the end, nothing past the end |
| Windows.WindowEntries | evaluate_pose.py:137-140 | entry k of window j is entry j + k of the array |
| Windows.WindowOfTransforms | evaluate_pose.py:137-140 | a window of 4×4 pose matrices is again a list of 4×4 pose matrices |
| Windows.EvaluateSequence | evaluate_pose.py:133-143 | the loop returns `Evaluate`: the per-window ATEs and REs, or the first exception raised |
| Windows.FailurePersists | evaluate_pose.py:136-143 | once an iteration raises, later windows do not change the outcome |
| Windows.IterationStep | evaluate_pose.py:136-143 | one more iteration either raises its ATE or RE exception for the whole loop or appends its two scores |
| Windows.CollectIsElementwise | evaluate_pose.py:133-143 | the loop completes iff no window raises, and then entry k of `ates` and `res` is window k's score |
| Windows.CollectFailsAtFirstFailure | evaluate_pose.py:133-143 | a failed loop reports the exception of the first window that raises, all earlier windows having succeeded |
| Windows.EvaluationLength | evaluate_pose.py:135-136 | a completed loop holds exactly `num_frames - 1` ATEs and REs |
| Windows.WindowTrajectoryBounds | evaluate_pose.py:137-140 | each window yields between 1 and `track_length` points and rotations |
| Windows.WindowMismatch | evaluate_pose.py:136-142 | a non-empty prediction whose length differs from the ground truth's (at least 2) meets a window whose point arrays do not broadcast |
| Windows.SuccessNeedsEqualLengths | evaluate_pose.py:133-143 | a sequence evaluates without an exception only if the ground truth has at most one pose, the prediction is empty, or both have the same length |
| Windows.AteOfIdentities | evaluate_pose.py:137-142 | a window of identity poses compared with itself has a non-finite ATE |
| Windows.ReOfIdentities | evaluate_pose.py:139-143 | a window of identity poses compared with itself has RE `arctan2(0, 2)` |
| Windows.WindowOfIdentities | evaluate_pose.py:137-143 | each window of identity poses scores a non-finite ATE and RE `arctan2(0, 2)` |
| Windows.IdentityScenario | evaluate_pose.py:133-143 | identity poses on both sides evaluate without exception to `num_frames - 1` non-finite ATEs and REs `arctan2(0, 2)` |
| Windows.AteOfEmptyWindow | evaluate_pose.py:137-142 | a window of an empty prediction gives a non-finite ATE |
| Windows.ReOfEmptyWindow | evaluate_pose.py:139-143 | a window of an empty prediction gives RE `arctan2(0, 2)` |
| Windows.WindowOfEmptyPrediction | evaluate_pose.py:137-143 | each window of an empty prediction scores a non-finite ATE and RE `arctan2(0, 2)` |
| Windows.EmptyPredictionScenario | evaluate_pose.py:133-143 | the window loop given an empty prediction array (unreachable from `evaluate`, see above) evaluates without exception to `num_frames - 1` non-finite ATEs and REs `arctan2(0, 2)` |

## Left out

- Network inference is not modelled (evaluate_pose.py:87-124). This covers the encoder and decoder construction, `load_state_dict`, the data loader, `.cuda()` and `no_grad`; all of it runs through opaque torch libraries. The prediction array is an input.
- `transformation_from_parameters` (evaluate_pose.py:11, 121-122) is not modelled. `utils/layers` is not part of this model.
- File I/O is not modelled: `readlines` of the split files (lines 82-84), `np.load` of the ground truth (line 129), and `os.makedirs` / `np.savez_compressed` (lines 131-132). The ground-truth array is an input.
- The outer loop over the four sequences (lines 126-127) is not modelled; one call of `Windows.EvaluateSequence` models one sequence.
- The final `print` and `np.mean` of the ATEs (line 144) are not modelled. They are reporting, and the mean of an empty list is floating-point NaN behaviour.
- Ate.ComputeAte: stops before `np.sqrt` (line 52). It carries the sum of squared errors and the point count, from which the reported `sqrt(sse) / N` follows.
- Ate.ComputeAte: does not distinguish `inf` from `nan` when the scale denominator is zero; both are `NotFinite`.
- Ate.ScaleIsLeastSquares: stated only for equal lengths. With a one-point prediction broadcast against a longer ground truth, the denominator counts that point once, not once per row, so the closed-form scale is not the least-squares one.
- Re.ComputeRe: `np.linalg.inv` and `np.arctan2` (lines 62, 68) are parameters (`inv`, `angleOf`), not definitions. `angleOf` receives the squared norm of the skew vector, since the square root inside `np.linalg.norm` is not modelled.
- Floating point is not modelled: all arithmetic is exact over `real`, so rounding and overflow are not captured.
- models/decoders/mul_decompose_decoder.py and models/decoders/__init__.py are neural-network layers and re-exports; they are not part of this model.
