/**
 * `compute_ate`: shift the predicted positions so that their first point is the
 * ground-truth first point, fit one scale factor in closed form, and measure the
 * residual. The reported value is sqrt(sse) / N for N points; the model carries
 * the sum of squared errors `sse` and N, and stops before the square root.
 */
module Ate {
  import opened Linalg
  import opened Outcome

  /**
   * What `compute_ate` returns when it does not raise: the sum of squared
   * alignment errors and the number of points, or a non-finite number (the
   * `inf`/`nan` numpy produces) when the scale denominator is zero.
   */
  datatype AteValue = Ate(sse: real, count: nat) | NotFinite

  /** `gtruth_xyz[0] - pred_xyz_o[0]`. */
  function Offset(gt: seq<Point>, pred: seq<Point>): Point
    requires |gt| > 0 && |pred| > 0
  {
    Sub(gt[0], pred[0])
  }

  /** Every point moved by the same vector `c` (numpy's broadcast `pts + c[None, :]`). */
  function Shifted(pts: seq<Point>, c: Point): (r: seq<Point>)
    ensures |r| == |pts|
  {
    seq(|pts|, i requires 0 <= i < |pts| => Add(pts[i], c))
  }

  /** `pred_xyz`: the prediction moved so that it starts where the ground truth starts. */
  function Aligned(gt: seq<Point>, pred: seq<Point>): (r: seq<Point>)
    requires |gt| > 0 && |pred| > 0
    ensures |r| == |pred|
  {
    Shifted(pred, Offset(gt, pred))
  }

  /** `np.sum(a * b)` for two arrays of points of the same length. */
  function SumDot(a: seq<Point>, b: seq<Point>): real
    requires |a| == |b|
    decreases |a|
  {
    if |a| == 0 then 0.0 else Dot(a[0], b[0]) + SumDot(a[1..], b[1..])
  }

  /** `np.sum(a ** 2)`. */
  function SumSq(a: seq<Point>): real
  {
    SumDot(a, a)
  }

  /**
   * numpy's broadcasting rule for two arrays of n and m points: their rows can be
   * combined elementwise when the lengths agree or one of them holds a single point.
   */
  predicate Broadcastable(n: nat, m: nat)
  {
    n == m || n == 1 || m == 1
  }

  /** The number of rows of an elementwise product of broadcastable arrays. */
  function Rows(n: nat, m: nat): nat
  {
    if n >= m then n else m
  }

  /** An array of points stretched to n rows: a single point is repeated, a full array is kept. */
  function Broadcast(pts: seq<Point>, n: nat): (r: seq<Point>)
    requires |pts| == n || |pts| == 1
    ensures |r| == n
    ensures forall i :: 0 <= i < n ==> r[i] == (if |pts| == 1 then pts[0] else pts[i])
  {
    if |pts| == n then pts else seq(n, i => pts[0])
  }

  /** `aligned * scale - gt` on rows of equal number: the alignment error. */
  function Residual(aligned: seq<Point>, gt: seq<Point>, scale: real): (r: seq<Point>)
    requires |aligned| == |gt|
    ensures |r| == |gt|
  {
    seq(|gt|, i requires 0 <= i < |gt| => Sub(Scale(aligned[i], scale), gt[i]))
  }

  /**
   * The closed-form scale `np.sum(gt * aligned) / np.sum(aligned ** 2)`: the
   * numerator sums over the broadcast rows, the denominator over the aligned
   * prediction's own rows.
   */
  function BestScale(gt: seq<Point>, aligned: seq<Point>): real
    requires |gt| > 0 && Broadcastable(|gt|, |aligned|) && SumSq(aligned) != 0.0
  {
    var n := Rows(|gt|, |aligned|);
    SumDot(Broadcast(gt, n), Broadcast(aligned, n)) / SumSq(aligned)
  }

  /**
   * `compute_ate(gtruth_xyz, pred_xyz_o)` (evaluate_pose.py, lines 42-53), up to
   * the square root: indexing an empty array raises, arrays whose lengths do not
   * broadcast cannot be multiplied elementwise, and a zero scale denominator gives
   * a non-finite result. The error is divided by the ground truth's length.
   */
  function ComputeAte(gt: seq<Point>, pred: seq<Point>): (r: Result<AteValue>)
    ensures r == Failure(EmptyTrajectory) <==> |gt| == 0 || |pred| == 0
    ensures r == Failure(ShapeMismatch) <==> |gt| > 0 && |pred| > 0 && !Broadcastable(|gt|, |pred|)
    ensures r == Success(NotFinite) <==>
      |gt| > 0 && |pred| > 0 && Broadcastable(|gt|, |pred|) && SumSq(Aligned(gt, pred)) == 0.0
    ensures r.Success? && r.value.Ate? ==> r.value.count == |gt| && r.value.sse >= 0.0
  {
    if |gt| == 0 || |pred| == 0 then Failure(EmptyTrajectory)
    else if !Broadcastable(|gt|, |pred|) then Failure(ShapeMismatch)
    else
      var aligned := Aligned(gt, pred);
      if SumSq(aligned) == 0.0 then Success(NotFinite)
      else
        var n := Rows(|gt|, |pred|);
        var residual := Residual(Broadcast(aligned, n), Broadcast(gt, n), BestScale(gt, aligned));
        SumSqNonNegative(residual);
        Success(Ate(SumSq(residual), |gt|))
  }

  lemma {:induction false} SumSqNonNegative(a: seq<Point>)
    ensures SumSq(a) >= 0.0
    decreases |a|
  {
    if |a| > 0 {
      DotSelfNonNegative(a[0]);
      SumSqNonNegative(a[1..]);
    }
  }

  /** Points all at the origin have a zero sum of squares. */
  lemma {:induction false} SumSqOfOrigins(a: seq<Point>)
    requires forall i :: 0 <= i < |a| ==> a[i] == Origin
    ensures SumSq(a) == 0.0
    decreases |a|
  {
    if |a| > 0 {
      SumSqOfOrigins(a[1..]);
    }
  }

  /** The aligned prediction starts at the ground truth's first point, and every point moved by the same offset. */
  lemma AlignedStartsAtGroundTruth(gt: seq<Point>, pred: seq<Point>)
    requires |gt| > 0 && |pred| > 0
    ensures Aligned(gt, pred)[0] == gt[0]
    ensures forall i :: 0 <= i < |pred| ==> Sub(Aligned(gt, pred)[i], pred[i]) == Sub(gt[0], pred[0])
  {
  }

  /** Adding the same vector to every predicted point does not change the aligned prediction. */
  lemma AlignedOffsetInvariant(gt: seq<Point>, pred: seq<Point>, c: Point)
    requires |gt| > 0 && |pred| > 0
    ensures Aligned(gt, Shifted(pred, c)) == Aligned(gt, pred)
  {
  }

  /** `compute_ate` is unchanged when the same vector is added to every predicted point. */
  lemma AteOffsetInvariant(gt: seq<Point>, pred: seq<Point>, c: Point)
    ensures ComputeAte(gt, Shifted(pred, c)) == ComputeAte(gt, pred)
  {
    if |gt| > 0 && |pred| > 0 {
      AlignedOffsetInvariant(gt, pred, c);
    }
  }

  /** Identical trajectories (with a non-zero denominator) are aligned with scale 1 and have zero error. */
  lemma AteOfIdenticalTrajectories(gt: seq<Point>)
    requires |gt| > 0 && SumSq(gt) != 0.0
    ensures Aligned(gt, gt) == gt
    ensures BestScale(gt, gt) == 1.0
    ensures ComputeAte(gt, gt) == Success(Ate(0.0, |gt|))
  {
    assert Aligned(gt, gt) == gt;
    assert Broadcast(gt, |gt|) == gt;
    DivideBySelf(SumSq(gt));
    var residual := Residual(gt, gt, 1.0);
    SumSqOfOrigins(residual);
  }

  lemma DivideBySelf(x: real)
    requires x != 0.0
    ensures x / x == 1.0
  {
  }

  /** Expanding the squared residual for a scale t: t² · Σ|a|² − 2t · Σ g·a + Σ|g|². */
  lemma {:induction false} ResidualExpansion(a: seq<Point>, g: seq<Point>, t: real)
    requires |a| == |g|
    ensures SumSq(Residual(a, g, t)) == Quadratic(t, SumSq(a), SumDot(g, a), SumSq(g))
    decreases |a|
  {
    if |a| > 0 {
      var r := Residual(a, g, t);
      assert r[1..] == Residual(a[1..], g[1..], t);
      assert r[0] == Sub(Scale(a[0], t), g[0]);
      ResidualExpansion(a[1..], g[1..], t);
      PointExpansion(a[0], g[0], t);
      SumStep(SumSq(r[1..]), SumSq(a[1..]), SumDot(g[1..], a[1..]), SumSq(g[1..]),
              Dot(r[0], r[0]), Dot(a[0], a[0]), Dot(g[0], a[0]), Dot(g[0], g[0]), t);
      assert SumSq(r) == Dot(r[0], r[0]) + SumSq(r[1..]);
      assert SumSq(a) == Dot(a[0], a[0]) + SumSq(a[1..]);
      assert SumDot(g, a) == Dot(g[0], a[0]) + SumDot(g[1..], a[1..]);
      assert SumSq(g) == Dot(g[0], g[0]) + SumSq(g[1..]);
    }
  }

  /** t² · p − 2t · g + q: the squared error as a function of the scale t. */
  function Quadratic(t: real, p: real, g: real, q: real): real
  {
    t * t * p - 2.0 * t * g + q
  }

  lemma PointExpansion(a: Point, g: Point, t: real)
    ensures Dot(Sub(Scale(a, t), g), Sub(Scale(a, t), g)) == Quadratic(t, Dot(a, a), Dot(g, a), Dot(g, g))
  {
  }

  lemma SumStep(rest: real, restA: real, restGA: real, restG: real,
                head: real, headA: real, headGA: real, headG: real, t: real)
    requires rest == Quadratic(t, restA, restGA, restG)
    requires head == Quadratic(t, headA, headGA, headG)
    ensures head + rest == Quadratic(t, headA + restA, headGA + restGA, headG + restG)
  {
  }

  /** The closed-form scale is the least-squares one: no other scale gives a smaller error. */
  lemma ScaleIsLeastSquares(gt: seq<Point>, pred: seq<Point>, t: real)
    requires |gt| == |pred|
    requires ComputeAte(gt, pred).Success? && ComputeAte(gt, pred).value.Ate?
    ensures ComputeAte(gt, pred).value.sse <= SumSq(Residual(Aligned(gt, pred), gt, t))
  {
    var a := Aligned(gt, pred);
    SumSqNonNegative(a);
    assert Broadcast(a, |gt|) == a && Broadcast(gt, |gt|) == gt;
    var s := BestScale(gt, a);
    ResidualExpansion(a, gt, s);
    ResidualExpansion(a, gt, t);
    QuadraticMinimum(SumSq(a), SumDot(gt, a), SumSq(gt), s, t);
  }

  lemma QuadraticMinimum(p: real, g: real, q: real, s: real, t: real)
    requires p > 0.0 && s == g / p
    ensures Quadratic(s, p, g, q) <= Quadratic(t, p, g, q)
  {
    assert g == s * p;
    assert t * t * p - 2.0 * t * g - (s * s * p - 2.0 * s * g) == p * ((t - s) * (t - s));
    SquareNonNegative(t - s);
  }

  /** A one-point prediction aligned to a ground truth that starts at the origin is the origin itself. */
  lemma AlignedOnePoint(gt: seq<Point>, pred: seq<Point>)
    requires |gt| > 0 && |pred| == 1 && gt[0] == Origin
    ensures Aligned(gt, pred) == [Origin]
    ensures SumSq(Aligned(gt, pred)) == 0.0
  {
    var a := Aligned(gt, pred);
    assert a[0] == Origin;
    assert a == [Origin];
    SumSqOfOrigins(a);
  }

  /**
   * A one-point prediction is broadcast against the whole ground truth; when the
   * ground truth starts at the origin, the aligned point is the origin and the
   * scale denominator is zero.
   */
  lemma AteOfOnePointPrediction(gt: seq<Point>, pred: seq<Point>)
    requires |gt| > 0 && |pred| == 1 && gt[0] == Origin
    ensures ComputeAte(gt, pred) == Success(NotFinite)
  {
    AlignedOnePoint(gt, pred);
  }
}
