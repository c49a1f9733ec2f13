/**
 * The evaluation loop of `evaluate` for one sequence (evaluate_pose.py, lines
 * 133-143): for every start index j in `range(0, num_frames - 1)` it slices a
 * window of at most `track_length - 1` transforms out of the predicted and the
 * ground-truth pose arrays, accumulates both, and records one ATE and one RE.
 */
module Windows {
  import opened Linalg
  import opened Outcome
  import opened Trajectory
  import opened Ate
  import opened Re

  const TrackLength: nat := 5

  /** `len(range(0, num_frames - 1))`. */
  function NumWindows(numFrames: nat): nat
  {
    if numFrames >= 1 then numFrames - 1 else 0
  }

  /**
   * Python's `s[j:j + track_length - 1]` for j >= 0: both ends are clamped to
   * the length, so windows near the end are shorter and past the end empty.
   */
  function Window<T>(s: seq<T>, j: nat): (w: seq<T>)
    ensures |w| <= TrackLength - 1
    ensures j + TrackLength - 1 <= |s| ==> |w| == TrackLength - 1
    ensures j <= |s| < j + TrackLength - 1 ==> |w| == |s| - j
    ensures |s| <= j ==> w == []
  {
    s[Min(j, |s|)..Min(j + TrackLength - 1, |s|)]
  }

  /** Entry k of window j is entry j + k of the array. */
  lemma WindowEntries<T>(s: seq<T>, j: nat)
    ensures forall k :: 0 <= k < |Window(s, j)| ==> j + k < |s| && Window(s, j)[k] == s[j + k]
  {
    if j < |s| {
      assert Window(s, j) == s[j..Min(j + TrackLength - 1, |s|)];
    } else {
      assert Window(s, j) == [];
    }
  }

  /** A window of a pose array is a pose array. */
  lemma WindowOfTransforms(s: seq<Matrix>, j: nat)
    requires AreTransforms(s)
    ensures AreTransforms(Window(s, j))
  {
    WindowEntries(s, j);
  }

  /** What one iteration appends: the window's ATE and RE. */
  datatype Score = Score(ate: AteValue, re: real)

  /** The lists `ates` and `res` the loop builds. */
  datatype Evaluation = Evaluation(ates: seq<AteValue>, res: seq<real>)

  /** An iteration's outcome: the ATE's exception first, then the RE's, else both values. */
  function ScoreOf(ate: Result<AteValue>, re: Result<real>): Result<Score>
  {
    if ate.Failure? then Failure(ate.error)
    else if re.Failure? then Failure(re.error)
    else Success(Score(ate.value, re.value))
  }

  /**
   * Iteration j: `compute_ate(gt_local_xyzs, local_xyzs)` and then
   * `compute_re(local_rs, gt_rs)`, with the prediction in the first slot.
   */
  function WindowScore(pred: seq<Matrix>, gt: seq<Matrix>, j: nat, inv: Matrix -> Option<Matrix>,
                       angleOf: (real, real) -> real): Result<Score>
  {
    ScoreOf(ComputeAte(Positions(Window(gt, j)), Positions(Window(pred, j))),
            RotationError(Rotations(Window(pred, j)), Rotations(Window(gt, j)), inv, angleOf))
  }

  /** Appends one iteration's scores; an exception, earlier or now, ends the evaluation. */
  function Record(sofar: Result<Evaluation>, score: Result<Score>): Result<Evaluation>
  {
    match sofar
    case Failure(e) => Failure(e)
    case Success(ev) =>
      match score
      case Failure(e) => Failure(e)
      case Success(s) => Success(Evaluation(ev.ates + [s.ate], ev.res + [s.re]))
  }

  /** The lists the loop holds after iterations with the outcomes `scores`, in order. */
  function Collect(scores: seq<Result<Score>>): Result<Evaluation>
  {
    if scores == [] then Success(Evaluation([], []))
    else Record(Collect(scores[..|scores| - 1]), scores[|scores| - 1])
  }

  /**
   * The outcomes of the first n iterations, one per window. The ensures spells
   * out the comprehension so that callers index it without unfolding each window.
   */
  function WindowScores(pred: seq<Matrix>, gt: seq<Matrix>, inv: Matrix -> Option<Matrix>,
                        angleOf: (real, real) -> real, n: nat): (ws: seq<Result<Score>>)
    ensures |ws| == n
    ensures forall k :: 0 <= k < n ==> ws[k] == WindowScore(pred, gt, k, inv, angleOf)
  {
    seq(n, k requires 0 <= k => WindowScore(pred, gt, k, inv, angleOf))
  }

  /** The whole loop: one iteration per start index in `range(0, num_frames - 1)`. */
  function Evaluate(pred: seq<Matrix>, gt: seq<Matrix>, inv: Matrix -> Option<Matrix>,
                    angleOf: (real, real) -> real): Result<Evaluation>
  {
    Collect(WindowScores(pred, gt, inv, angleOf, NumWindows(|gt|)))
  }

  /** Once an iteration raises, the later iterations never run: the exception is the result. */
  lemma {:induction false} FailurePersists(scores: seq<Result<Score>>, m: nat)
    requires m <= |scores|
    requires Collect(scores[..m]).Failure?
    ensures Collect(scores) == Collect(scores[..m])
    decreases |scores| - m
  {
    if m < |scores| {
      var front := scores[..|scores| - 1];
      assert front[..m] == scores[..m];
      FailurePersists(front, m);
      assert Collect(scores) == Record(Collect(front), scores[|scores| - 1]);
    } else {
      assert scores[..m] == scores;
    }
  }

  /** One iteration of the loop, in terms of the outcome of its window. */
  lemma IterationStep(scores: seq<Result<Score>>, j: nat, sofar: Evaluation, ate: Result<AteValue>, re: Result<real>)
    requires j < |scores|
    requires Collect(scores[..j]) == Success(sofar)
    requires scores[j] == ScoreOf(ate, re)
    ensures ate.Failure? ==> Collect(scores) == Failure(ate.error)
    ensures ate.Success? && re.Failure? ==> Collect(scores) == Failure(re.error)
    ensures ate.Success? && re.Success? ==>
      Collect(scores[..j + 1]) == Success(Evaluation(sofar.ates + [ate.value], sofar.res + [re.value]))
  {
    assert scores[..j + 1][..j] == scores[..j];
    if ate.Failure? || re.Failure? {
      FailurePersists(scores, j + 1);
    }
  }

  /** Iteration j's outcome is that of `compute_ate` and `compute_re` on the accumulated window. */
  lemma WindowScoreUnfolds(pred: seq<Matrix>, gt: seq<Matrix>, j: nat, inv: Matrix -> Option<Matrix>,
                           angleOf: (real, real) -> real, ate: Result<AteValue>, re: Result<real>)
    requires ate == ComputeAte(Positions(Window(gt, j)), Positions(Window(pred, j)))
    requires re == RotationError(Rotations(Window(pred, j)), Rotations(Window(gt, j)), inv, angleOf)
    ensures WindowScore(pred, gt, j, inv, angleOf) == ScoreOf(ate, re)
  {
  }

  /**
   * The loop of `evaluate` for one sequence (evaluate_pose.py, lines 133-143):
   * the predicted relative poses and the ground-truth poses are both passed
   * through `dump_xyz` and `dump_r` window by window.
   */
  method EvaluateSequence(predPos: seq<Matrix>, gtLocalPoses: seq<Matrix>, inv: Matrix -> Option<Matrix>,
                          angleOf: (real, real) -> real) returns (r: Result<Evaluation>)
    requires AreTransforms(predPos) && AreTransforms(gtLocalPoses)
    ensures r == Evaluate(predPos, gtLocalPoses, inv, angleOf)
  {
    var ates: seq<AteValue> := [];
    var res: seq<real> := [];
    var numFrames := |gtLocalPoses|;
    ghost var scores := WindowScores(predPos, gtLocalPoses, inv, angleOf, NumWindows(numFrames));
    for j := 0 to NumWindows(numFrames)
      invariant Collect(scores[..j]) == Success(Evaluation(ates, res))
    {
      var predWindow := Window(predPos, j);
      var gtWindow := Window(gtLocalPoses, j);
      WindowOfTransforms(predPos, j);
      WindowOfTransforms(gtLocalPoses, j);
      var localXyzs := DumpXyz(predWindow);
      var gtLocalXyzs := DumpXyz(gtWindow);
      var localRs := DumpR(predWindow);
      var gtRs := DumpR(gtWindow);
      var ate := ComputeAte(gtLocalXyzs, localXyzs);
      ghost var reSpec := RotationError(localRs, gtRs, inv, angleOf);
      WindowScoreUnfolds(predPos, gtLocalPoses, j, inv, angleOf, ate, reSpec);
      IterationStep(scores, j, Evaluation(ates, res), ate, reSpec);
      if ate.Failure? {
        return Failure(ate.error);
      }
      var re := ComputeRe(localRs, gtRs, inv, angleOf);
      if re.Failure? {
        return Failure(re.error);
      }
      ates := ates + [ate.value];
      res := res + [re.value];
    }
    assert scores[..|scores|] == scores;
    r := Success(Evaluation(ates, res));
  }

  /**
   * The iterations complete exactly when none of them raises; then both lists
   * have one entry per iteration, entry k holding the scores of window k.
   */
  lemma {:induction false} CollectIsElementwise(scores: seq<Result<Score>>)
    ensures Collect(scores).Success? <==> forall k :: 0 <= k < |scores| ==> scores[k].Success?
    ensures Collect(scores).Success? ==>
      var ev := Collect(scores).value;
      |ev.ates| == |scores| && |ev.res| == |scores| &&
      forall k :: 0 <= k < |scores| ==> scores[k] == Success(Score(ev.ates[k], ev.res[k]))
    decreases |scores|
  {
    if scores != [] {
      var front := scores[..|scores| - 1];
      CollectIsElementwise(front);
      assert forall k :: 0 <= k < |front| ==> front[k] == scores[k];
    }
  }

  /** When the loop raises, it raises the exception of the first iteration that fails. */
  lemma {:induction false} CollectFailsAtFirstFailure(scores: seq<Result<Score>>)
    requires Collect(scores).Failure?
    ensures exists k ::
              && 0 <= k < |scores|
              && scores[k] == Failure(Collect(scores).error)
              && (forall i :: 0 <= i < k ==> scores[i].Success?)
    decreases |scores|
  {
    var front := scores[..|scores| - 1];
    assert forall k :: 0 <= k < |front| ==> front[k] == scores[k];
    if Collect(front).Failure? {
      CollectFailsAtFirstFailure(front);
      var k :| 0 <= k < |front| && front[k] == Failure(Collect(front).error)
               && (forall i :: 0 <= i < k ==> front[i].Success?);
      assert scores[k] == Failure(Collect(scores).error);
    } else {
      CollectIsElementwise(front);
      assert scores[|scores| - 1] == Failure(Collect(scores).error);
    }
  }

  /** The loop makes `num_frames - 1` iterations: a completed evaluation holds that many ATEs and REs. */
  lemma EvaluationLength(pred: seq<Matrix>, gt: seq<Matrix>, inv: Matrix -> Option<Matrix>,
                         angleOf: (real, real) -> real)
    requires Evaluate(pred, gt, inv, angleOf).Success?
    ensures |Evaluate(pred, gt, inv, angleOf).value.ates| == NumWindows(|gt|)
    ensures |Evaluate(pred, gt, inv, angleOf).value.res| == NumWindows(|gt|)
  {
    CollectIsElementwise(WindowScores(pred, gt, inv, angleOf, NumWindows(|gt|)));
  }

  /** Each window accumulates at least one and at most `track_length` points and rotations. */
  lemma WindowTrajectoryBounds(s: seq<Matrix>, j: nat)
    ensures 1 <= |Positions(Window(s, j))| <= TrackLength
    ensures 1 <= |Rotations(Window(s, j))| <= TrackLength
  {
  }

  /**
   * Some window meets arrays of points whose lengths do not broadcast when the
   * prediction is non-empty, the ground truth has at least two poses and the two
   * lengths differ: the last window when the prediction is longer or one shorter,
   * else the window starting at the last predicted transform.
   */
  lemma WindowMismatch(pred: seq<Matrix>, gt: seq<Matrix>, inv: Matrix -> Option<Matrix>,
                       angleOf: (real, real) -> real)
    requires |gt| >= 2 && |pred| >= 1 && |pred| != |gt|
    ensures exists j :: 0 <= j < NumWindows(|gt|) && WindowScore(pred, gt, j, inv, angleOf) == Failure(ShapeMismatch)
  {
    var j := if |pred| + 2 <= |gt| then |pred| - 1 else |gt| - 2;
    var gtPoints := Positions(Window(gt, j));
    var predPoints := Positions(Window(pred, j));
    assert !Broadcastable(|gtPoints|, |predPoints|);
    assert ComputeAte(gtPoints, predPoints) == Failure(ShapeMismatch);
    assert WindowScore(pred, gt, j, inv, angleOf) == Failure(ShapeMismatch);
  }

  /**
   * A sequence evaluates without an exception only if it has at most one
   * ground-truth frame, no predicted transforms at all, or as many predicted
   * transforms as ground-truth poses. In particular, predictions one shorter
   * than the ground truth always raise.
   */
  lemma SuccessNeedsEqualLengths(pred: seq<Matrix>, gt: seq<Matrix>, inv: Matrix -> Option<Matrix>,
                                 angleOf: (real, real) -> real)
    ensures Evaluate(pred, gt, inv, angleOf).Success? ==> |gt| <= 1 || |pred| == 0 || |pred| == |gt|
  {
    if |gt| >= 2 && |pred| >= 1 && |pred| != |gt| {
      var ws := WindowScores(pred, gt, inv, angleOf, NumWindows(|gt|));
      WindowMismatch(pred, gt, inv, angleOf);
      var j :| 0 <= j < NumWindows(|gt|) && WindowScore(pred, gt, j, inv, angleOf) == Failure(ShapeMismatch);
      assert ws[j].Failure?;
      CollectIsElementwise(ws);
    }
  }

  /** The ATE of one window of an empty prediction: its single origin point is broadcast. */
  lemma AteOfEmptyWindow(gt: seq<Matrix>, j: nat)
    ensures ComputeAte(Positions(Window(gt, j)), Positions(Window([], j))) == Success(NotFinite)
  {
    var w: seq<Matrix> := Window([], j);
    assert Positions(w) == [Origin];
    AteOfOnePointPrediction(Positions(Window(gt, j)), Positions(w));
  }

  /** The RE of one window of an empty prediction: only the two starting identities are paired. */
  lemma ReOfEmptyWindow(gt: seq<Matrix>, j: nat, inv: Matrix -> Option<Matrix>, angleOf: (real, real) -> real)
    requires InvertsTo(Identity(3), inv)
    ensures RotationError(Rotations(Window([], j)), Rotations(Window(gt, j)), inv, angleOf) == Success(angleOf(0.0, 2.0))
  {
    var w: seq<Matrix> := Window([], j);
    var rs := Rotations(w);
    assert rs == [Identity(3)];
    var gtRs := Rotations(Window(gt, j));
    ReIgnoresUnpairedRotations(rs, gtRs, inv, angleOf);
    assert gtRs[..1] == rs;
    ReOfIdenticalRotations(rs, inv, angleOf);
  }

  /** One window of an empty prediction. */
  lemma WindowOfEmptyPrediction(gt: seq<Matrix>, j: nat, inv: Matrix -> Option<Matrix>, angleOf: (real, real) -> real)
    requires InvertsTo(Identity(3), inv)
    ensures WindowScore([], gt, j, inv, angleOf) == Success(Score(NotFinite, angleOf(0.0, 2.0)))
  {
    AteOfEmptyWindow(gt, j);
    ReOfEmptyWindow(gt, j, inv, angleOf);
    WindowScoreUnfolds([], gt, j, inv, angleOf, Success(NotFinite), Success(angleOf(0.0, 2.0)));
    ScoreOfSuccesses(NotFinite, angleOf(0.0, 2.0));
  }

  /**
   * The window loop taken alone never raises on an empty prediction array:
   * numpy broadcasts its single origin point against every ground-truth window,
   * so every one of the `num_frames - 1` windows records a non-finite ATE and
   * the RE `arctan2(0, 2)`, the same result as a perfect prediction of a still
   * camera. `evaluate` never passes an empty array here: `np.concatenate`
   * (evaluate_pose.py, line 127) raises on an empty list of predictions.
   */
  lemma EmptyPredictionScenario(gt: seq<Matrix>, inv: Matrix -> Option<Matrix>, angleOf: (real, real) -> real)
    requires InvertsTo(Identity(3), inv)
    ensures Evaluate([], gt, inv, angleOf).Success?
    ensures var ev := Evaluate([], gt, inv, angleOf).value;
      |ev.ates| == NumWindows(|gt|) && |ev.res| == NumWindows(|gt|) &&
      (forall k :: 0 <= k < |ev.ates| ==> ev.ates[k] == NotFinite) &&
      (forall k :: 0 <= k < |ev.res| ==> ev.res[k] == angleOf(0.0, 2.0))
  {
    var ws := WindowScores([], gt, inv, angleOf, NumWindows(|gt|));
    forall k | 0 <= k < |ws|
      ensures ws[k] == Success(Score(NotFinite, angleOf(0.0, 2.0)))
    {
      WindowOfEmptyPrediction(gt, k, inv, angleOf);
    }
    CollectIsElementwise(ws);
  }

  /** Identity transforms compared with themselves: every point is the origin, so the scale is 0/0. */
  lemma AteOfIdentities(w: seq<Matrix>)
    requires AllIdentity(w)
    ensures ComputeAte(Positions(w), Positions(w)) == Success(NotFinite)
  {
    IdentityTrajectory(w);
    var p := Positions(w);
    var aligned := Aligned(p, p);
    assert forall i :: 0 <= i < |aligned| ==> aligned[i] == Origin;
    SumSqOfOrigins(aligned);
  }

  /** Identity transforms compared with themselves: every rotation residual is the identity. */
  lemma ReOfIdentities(w: seq<Matrix>, inv: Matrix -> Option<Matrix>, angleOf: (real, real) -> real)
    requires AllIdentity(w)
    requires InvertsTo(Identity(3), inv)
    ensures RotationError(Rotations(w), Rotations(w), inv, angleOf) == Success(angleOf(0.0, 2.0))
  {
    IdentityTrajectory(w);
    var rs := Rotations(w);
    assert forall k :: 0 <= k < |rs| ==> InvertsTo(rs[k], inv);
    ReOfIdenticalRotations(rs, inv, angleOf);
  }

  lemma ScoreOfSuccesses(ate: AteValue, re: real)
    ensures ScoreOf(Success(ate), Success(re)) == Success(Score(ate, re))
  {
  }

  /** One window of identity poses compared with itself. */
  lemma WindowOfIdentities(ts: seq<Matrix>, j: nat, inv: Matrix -> Option<Matrix>, angleOf: (real, real) -> real)
    requires AllIdentity(ts)
    requires InvertsTo(Identity(3), inv)
    ensures WindowScore(ts, ts, j, inv, angleOf) == Success(Score(NotFinite, angleOf(0.0, 2.0)))
  {
    var w := Window(ts, j);
    WindowEntries(ts, j);
    assert AllIdentity(w);
    AteOfIdentities(w);
    ReOfIdentities(w, inv, angleOf);
    WindowScoreUnfolds(ts, ts, j, inv, angleOf, Success(NotFinite), Success(angleOf(0.0, 2.0)));
    ScoreOfSuccesses(NotFinite, angleOf(0.0, 2.0));
  }

  /**
   * A still camera predicted perfectly: with identity poses on both sides,
   * every one of the `num_frames - 1` windows records a non-finite ATE (all
   * aligned points sit at the origin) and the RE `arctan2(0, 2)`.
   */
  lemma IdentityScenario(ts: seq<Matrix>, inv: Matrix -> Option<Matrix>, angleOf: (real, real) -> real)
    requires AllIdentity(ts)
    requires InvertsTo(Identity(3), inv)
    ensures Evaluate(ts, ts, inv, angleOf).Success?
    ensures var ev := Evaluate(ts, ts, inv, angleOf).value;
      |ev.ates| == NumWindows(|ts|) && |ev.res| == NumWindows(|ts|) &&
      (forall k :: 0 <= k < |ev.ates| ==> ev.ates[k] == NotFinite) &&
      (forall k :: 0 <= k < |ev.res| ==> ev.res[k] == angleOf(0.0, 2.0))
  {
    var ws := WindowScores(ts, ts, inv, angleOf, NumWindows(|ts|));
    forall k | 0 <= k < |ws|
      ensures ws[k] == Success(Score(NotFinite, angleOf(0.0, 2.0)))
    {
      WindowOfIdentities(ts, k, inv, angleOf);
    }
    CollectIsElementwise(ws);
  }
}
