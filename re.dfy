/**
 * `compute_re`: for each pair of rotations it forms the residual R = A · inv(B),
 * reads twice the sine and cosine of R's angle off its skew-symmetric part and
 * its trace, and averages `arctan2` of them. `np.linalg.inv` and
 * `arctan2(norm(skew), trace - 1)` are parameters of the model.
 */
module Re {
  import opened Linalg
  import opened Outcome

  /** The arguments of `np.arctan2` for one pair, with the norm kept squared: |skew(R)|² and trace(R) − 1. */
  datatype AngleArgs = AngleArgs(skewSq: real, cosine: real)

  /** (R01 − R10, R12 − R21, R02 − R20): the vector whose norm is `s`. */
  function SkewVector(r: Matrix): Point
  {
    Point(At(r, 0, 1) - At(r, 1, 0), At(r, 1, 2) - At(r, 2, 1), At(r, 0, 2) - At(r, 2, 0))
  }

  function Trace3(r: Matrix): real
  {
    At(r, 0, 0) + At(r, 1, 1) + At(r, 2, 2)
  }

  /**
   * One step of the zip: R = a · inv(b) and its `arctan2` arguments, or the
   * LinAlgError `np.linalg.inv` raises (`inv` returns None).
   */
  function PairArgs(a: Matrix, b: Matrix, inv: Matrix -> Option<Matrix>): Result<AngleArgs>
  {
    match inv(b)
    case None => Failure(SingularMatrix)
    case Some(bInv) =>
      var r := MatMul(a, bInv, 3);
      Success(AngleArgs(Dot(SkewVector(r), SkewVector(r)), Trace3(r) - 1.0))
  }

  function Min(a: nat, b: nat): nat
  {
    if a < b then a else b
  }

  /** `zip(gtruth_r, pred_r)`: pair the heads, then zip the tails, until either list runs out. */
  function ZipArgs(gtR: seq<Matrix>, predR: seq<Matrix>, inv: Matrix -> Option<Matrix>): seq<Result<AngleArgs>>
    decreases |gtR|
  {
    if gtR == [] || predR == [] then []
    else [PairArgs(gtR[0], predR[0], inv)] + ZipArgs(gtR[1..], predR[1..], inv)
  }

  /** `zip` has as many entries as the shorter list, entry k pairing entry k of each. */
  lemma {:induction false} ZipArgsPairs(gtR: seq<Matrix>, predR: seq<Matrix>, inv: Matrix -> Option<Matrix>)
    ensures |ZipArgs(gtR, predR, inv)| == Min(|gtR|, |predR|)
    ensures forall k :: 0 <= k < Min(|gtR|, |predR|) ==>
      ZipArgs(gtR, predR, inv)[k] == PairArgs(gtR[k], predR[k], inv)
    decreases |gtR|
  {
    if gtR != [] && predR != [] {
      ZipArgsPairs(gtR[1..], predR[1..], inv);
    }
  }

  /** Adds one pair's angle to the running sum; the first exception wins. */
  function Accumulate(sum: Result<real>, pair: Result<AngleArgs>, angleOf: (real, real) -> real): Result<real>
  {
    match sum
    case Failure(e) => Failure(e)
    case Success(s) =>
      match pair
      case Failure(e) => Failure(e)
      case Success(args) => Success(s + angleOf(args.skewSq, args.cosine))
  }

  /** The running `RE` over the pairs `ps`, `angleOf` standing for `arctan2(sqrt(·), ·)`. */
  function SumAngles(ps: seq<Result<AngleArgs>>, angleOf: (real, real) -> real): Result<real>
  {
    if ps == [] then Success(0.0)
    else Accumulate(SumAngles(ps[..|ps| - 1], angleOf), ps[|ps| - 1], angleOf)
  }

  /**
   * `compute_re(gtruth_r, pred_r)` (evaluate_pose.py, lines 56-70): `zip`
   * stops at the shorter list, the sum is divided by the length of the first
   * list, and dividing the integer 0 by an empty length raises.
   */
  function RotationError(gtR: seq<Matrix>, predR: seq<Matrix>, inv: Matrix -> Option<Matrix>,
                         angleOf: (real, real) -> real): Result<real>
  {
    match SumAngles(ZipArgs(gtR, predR, inv), angleOf)
    case Failure(e) => Failure(e)
    case Success(sum) => if |gtR| == 0 then Failure(DivisionByZero) else Success(sum / (|gtR| as real))
  }

  /** Once a pair raises, the later pairs never run: the exception is the result. */
  lemma {:induction false} SumAnglesFailurePersists(ps: seq<Result<AngleArgs>>, angleOf: (real, real) -> real, m: nat)
    requires m <= |ps|
    requires SumAngles(ps[..m], angleOf).Failure?
    ensures SumAngles(ps, angleOf) == SumAngles(ps[..m], angleOf)
    decreases |ps| - m
  {
    if m < |ps| {
      var front := ps[..|ps| - 1];
      assert front[..m] == ps[..m];
      SumAnglesFailurePersists(front, angleOf, m);
      assert SumAngles(ps, angleOf) == Accumulate(SumAngles(front, angleOf), ps[|ps| - 1], angleOf);
    } else {
      assert ps[..m] == ps;
    }
  }

  /** One more pair of the zip. */
  lemma SumAnglesStep(ps: seq<Result<AngleArgs>>, angleOf: (real, real) -> real, k: nat, sum: real)
    requires k < |ps|
    requires SumAngles(ps[..k], angleOf) == Success(sum)
    ensures ps[k].Failure? ==> SumAngles(ps, angleOf) == Failure(ps[k].error)
    ensures ps[k].Success? ==>
      SumAngles(ps[..k + 1], angleOf) == Success(sum + angleOf(ps[k].value.skewSq, ps[k].value.cosine))
  {
    assert ps[..k + 1][..k] == ps[..k];
    if ps[k].Failure? {
      SumAnglesFailurePersists(ps, angleOf, k + 1);
    }
  }

  /** `compute_re` (evaluate_pose.py, lines 56-70): accumulate `RE` over the zip, then divide. */
  method ComputeRe(gtruthR: seq<Matrix>, predR: seq<Matrix>, inv: Matrix -> Option<Matrix>,
                   angleOf: (real, real) -> real) returns (re: Result<real>)
    ensures re == RotationError(gtruthR, predR, inv, angleOf)
  {
    ghost var ps := ZipArgs(gtruthR, predR, inv);
    ZipArgsPairs(gtruthR, predR, inv);
    var sum := 0.0;
    for k := 0 to Min(|gtruthR|, |predR|)
      invariant SumAngles(ps[..k], angleOf) == Success(sum)
    {
      SumAnglesStep(ps, angleOf, k, sum);
      var inverse := inv(predR[k]);
      if inverse.None? {
        return Failure(SingularMatrix);
      }
      var r := MatMul(gtruthR[k], inverse.value, 3);
      var s := Dot(SkewVector(r), SkewVector(r));
      var c := Trace3(r) - 1.0;
      sum := sum + angleOf(s, c);
    }
    assert ps[..|ps|] == ps;
    if |gtruthR| == 0 {
      return Failure(DivisionByZero);
    }
    re := Success(sum / (|gtruthR| as real));
  }

  /** B · Binv = I: `inv` behaved as the inverse on b. */
  predicate InvertsTo(b: Matrix, inv: Matrix -> Option<Matrix>)
  {
    inv(b).Some? && MatMul(b, inv(b).value, 3) == Identity(3)
  }

  /** A rotation compared with itself: R is the identity, so s = 0 and c = trace(I) − 1 = 2. */
  lemma PairArgsOfSameRotation(b: Matrix, inv: Matrix -> Option<Matrix>)
    requires InvertsTo(b, inv)
    ensures PairArgs(b, b, inv) == Success(AngleArgs(0.0, 2.0))
  {
    var r := MatMul(b, inv(b).value, 3);
    IdentityAt(3, 0, 0);
    IdentityAt(3, 1, 1);
    IdentityAt(3, 2, 2);
    IdentityAt(3, 0, 1);
    IdentityAt(3, 1, 0);
    IdentityAt(3, 1, 2);
    IdentityAt(3, 2, 1);
    IdentityAt(3, 0, 2);
    IdentityAt(3, 2, 0);
    assert SkewVector(r) == Origin;
  }

  /** When every pair yields the same arguments, the sum is that many times their angle. */
  lemma {:induction false} SumAnglesOfConstant(ps: seq<Result<AngleArgs>>, angleOf: (real, real) -> real, args: AngleArgs)
    requires forall k :: 0 <= k < |ps| ==> ps[k] == Success(args)
    ensures SumAngles(ps, angleOf) == Success(Times(|ps|, angleOf(args.skewSq, args.cosine)))
    decreases |ps|
  {
    if ps != [] {
      var front := ps[..|ps| - 1];
      SumAnglesOfConstant(front, angleOf, args);
      AddOneMore(|ps|, angleOf(args.skewSq, args.cosine));
    }
  }

  /** n copies of x added up. */
  function Times(n: nat, x: real): real
  {
    (n as real) * x
  }

  lemma AddOneMore(n: nat, x: real)
    requires n > 0
    ensures Times(n - 1, x) + x == Times(n, x)
  {
  }

  lemma MeanOfEqual(n: nat, x: real)
    requires n > 0
    ensures Times(n, x) / (n as real) == x
  {
  }

  /**
   * Identical rotation lists give, for every pair, the arguments of a zero
   * angle (s = 0, c = 2), so `compute_re` returns `arctan2(0, 2)`, which is 0.
   */
  lemma ReOfIdenticalRotations(rs: seq<Matrix>, inv: Matrix -> Option<Matrix>, angleOf: (real, real) -> real)
    requires |rs| > 0
    requires forall k :: 0 <= k < |rs| ==> InvertsTo(rs[k], inv)
    ensures RotationError(rs, rs, inv, angleOf) == Success(angleOf(0.0, 2.0))
  {
    var ps := ZipArgs(rs, rs, inv);
    ZipArgsPairs(rs, rs, inv);
    forall k | 0 <= k < |ps|
      ensures ps[k] == Success(AngleArgs(0.0, 2.0))
    {
      PairArgsOfSameRotation(rs[k], inv);
    }
    SumAnglesOfConstant(ps, angleOf, AngleArgs(0.0, 2.0));
    MeanOfEqual(|rs|, angleOf(0.0, 2.0));
  }

  /** `inv` returns the transpose of b, as it does for a rotation matrix. */
  predicate InvertsByTranspose(b: Matrix, inv: Matrix -> Option<Matrix>)
  {
    inv(b) == Some(Transpose(b, 3))
  }

  lemma {:induction false} RowColTransposed(a: Matrix, b: Matrix, i: int, j: int, k: nat)
    requires 0 <= i < 3 && 0 <= j < 3 && k <= 3
    ensures RowCol(b, Transpose(a, 3), i, j, k) == RowCol(a, Transpose(b, 3), j, i, k)
  {
    if k > 0 {
      RowColTransposed(a, b, i, j, k - 1);
      assert At(Transpose(a, 3), k - 1, j) == At(a, j, k - 1);
      assert At(Transpose(b, 3), k - 1, i) == At(b, i, k - 1);
    }
  }

  /** For rotations (inverse = transpose) the residual of (b, a) is the transpose of the residual of (a, b). */
  lemma ResidualSwapIsTranspose(a: Matrix, b: Matrix, i: int, j: int)
    requires 0 <= i < 3 && 0 <= j < 3
    ensures At(MatMul(b, Transpose(a, 3), 3), i, j) == At(MatMul(a, Transpose(b, 3), 3), j, i)
  {
    RowColTransposed(a, b, i, j, 3);
  }

  /** With rotation inputs, swapping the two matrices of a pair leaves s and c unchanged. */
  lemma PairArgsSymmetric(a: Matrix, b: Matrix, inv: Matrix -> Option<Matrix>)
    requires InvertsByTranspose(a, inv) && InvertsByTranspose(b, inv)
    ensures PairArgs(a, b, inv) == PairArgs(b, a, inv)
  {
    var r := MatMul(a, Transpose(b, 3), 3);
    var r' := MatMul(b, Transpose(a, 3), 3);
    forall i, j | 0 <= i < 3 && 0 <= j < 3
      ensures At(r', i, j) == At(r, j, i)
    {
      ResidualSwapIsTranspose(a, b, i, j);
    }
    assert SkewVector(r') == Point(-SkewVector(r).x, -SkewVector(r).y, -SkewVector(r).z);
    NegatedDot(SkewVector(r));
  }

  lemma NegatedDot(p: Point)
    ensures Dot(Point(-p.x, -p.y, -p.z), Point(-p.x, -p.y, -p.z)) == Dot(p, p)
  {
  }

  /** RE symmetry: for rotation matrices of equal count, swapping the two lists gives the same `compute_re`. */
  lemma ReSymmetric(gtR: seq<Matrix>, predR: seq<Matrix>, inv: Matrix -> Option<Matrix>,
                    angleOf: (real, real) -> real)
    requires |gtR| == |predR|
    requires forall k :: 0 <= k < |gtR| ==> InvertsByTranspose(gtR[k], inv) && InvertsByTranspose(predR[k], inv)
    ensures RotationError(gtR, predR, inv, angleOf) == RotationError(predR, gtR, inv, angleOf)
  {
    var ps := ZipArgs(gtR, predR, inv);
    var qs := ZipArgs(predR, gtR, inv);
    ZipArgsPairs(gtR, predR, inv);
    ZipArgsPairs(predR, gtR, inv);
    forall k | 0 <= k < |ps|
      ensures ps[k] == qs[k]
    {
      PairArgsSymmetric(gtR[k], predR[k], inv);
    }
    assert ps == qs;
  }

  /**
   * `zip` stops at the shorter input: rotations in the second argument beyond the
   * length of the first are never compared.
   */
  lemma ReIgnoresUnpairedRotations(gtR: seq<Matrix>, predR: seq<Matrix>, inv: Matrix -> Option<Matrix>,
                                   angleOf: (real, real) -> real)
    requires |gtR| <= |predR|
    ensures RotationError(gtR, predR, inv, angleOf) == RotationError(gtR, predR[..|gtR|], inv, angleOf)
  {
    ZipArgsPairs(gtR, predR, inv);
    ZipArgsPairs(gtR, predR[..|gtR|], inv);
    assert ZipArgs(gtR, predR, inv) == ZipArgs(gtR, predR[..|gtR|], inv);
  }
}
