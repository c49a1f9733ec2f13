/** The numpy arithmetic the pose evaluation uses, over exact reals: 3-vectors and square matrices. */
module Linalg {
  /** A matrix as a sequence of rows. */
  type Matrix = seq<seq<real>>

  /** A 3-vector: a camera position or a difference of positions. */
  datatype Point = Point(x: real, y: real, z: real)

  const Origin: Point := Point(0.0, 0.0, 0.0)

  function Add(p: Point, q: Point): Point { Point(p.x + q.x, p.y + q.y, p.z + q.z) }

  function Sub(p: Point, q: Point): Point { Point(p.x - q.x, p.y - q.y, p.z - q.z) }

  function Scale(p: Point, t: real): Point { Point(p.x * t, p.y * t, p.z * t) }

  function Dot(p: Point, q: Point): real { p.x * q.x + p.y * q.y + p.z * q.z }

  /** A squared length is never negative. */
  lemma DotSelfNonNegative(p: Point)
    ensures Dot(p, p) >= 0.0
  {
    SquareNonNegative(p.x);
    SquareNonNegative(p.y);
    SquareNonNegative(p.z);
  }

  lemma SquareNonNegative(a: real)
    ensures a * a >= 0.0
  {
    if a < 0.0 {
      assert a * a == (-a) * (-a);
    }
  }

  predicate IsSquare(m: Matrix, n: nat)
  {
    |m| == n && forall i :: 0 <= i < n ==> |m[i]| == n
  }

  /** Entry (i, j) of `m`, read as zero outside the matrix. */
  function At(m: Matrix, i: int, j: int): real
  {
    if 0 <= i < |m| && 0 <= j < |m[i]| then m[i][j] else 0.0
  }

  /** `np.eye(n)`. */
  function Identity(n: nat): (e: Matrix)
    ensures IsSquare(e, n)
  {
    seq(n, i => seq(n, j => if i == j then 1.0 else 0.0))
  }

  lemma IdentityAt(n: nat, i: int, j: int)
    requires 0 <= i < n && 0 <= j < n
    ensures At(Identity(n), i, j) == if i == j then 1.0 else 0.0
  {
  }

  /** The sum of a[i][l] * b[l][j] over l < k. */
  function RowCol(a: Matrix, b: Matrix, i: int, j: int, k: nat): real
  {
    if k == 0 then 0.0 else RowCol(a, b, i, j, k - 1) + At(a, i, k - 1) * At(b, k - 1, j)
  }

  /** The n×n matrix product `a · b` (`np.dot`, `@`). */
  function MatMul(a: Matrix, b: Matrix, n: nat): (c: Matrix)
    ensures IsSquare(c, n)
  {
    seq(n, i => seq(n, j => RowCol(a, b, i, j, n)))
  }

  lemma {:induction false} RowColIdentityRight(m: Matrix, n: nat, i: int, j: int, k: nat)
    requires 0 <= j < n && k <= n
    ensures RowCol(m, Identity(n), i, j, k) == if j < k then At(m, i, j) else 0.0
  {
    if k > 0 {
      RowColIdentityRight(m, n, i, j, k - 1);
      IdentityAt(n, k - 1, j);
    }
  }

  lemma {:induction false} RowColIdentityLeft(m: Matrix, n: nat, i: int, j: int, k: nat)
    requires 0 <= i < n && k <= n
    ensures RowCol(Identity(n), m, i, j, k) == if i < k then At(m, i, j) else 0.0
  {
    if k > 0 {
      RowColIdentityLeft(m, n, i, j, k - 1);
      IdentityAt(n, i, k - 1);
    }
  }

  /** Multiplying on the right by the identity changes nothing. */
  lemma MatMulIdentityRight(m: Matrix, n: nat)
    requires IsSquare(m, n)
    ensures MatMul(m, Identity(n), n) == m
  {
    var c := MatMul(m, Identity(n), n);
    forall i | 0 <= i < n
      ensures c[i] == m[i]
    {
      forall j | 0 <= j < n
        ensures c[i][j] == m[i][j]
      {
        RowColIdentityRight(m, n, i, j, n);
      }
    }
  }

  /** Multiplying on the left by the identity changes nothing. */
  lemma MatMulIdentityLeft(m: Matrix, n: nat)
    requires IsSquare(m, n)
    ensures MatMul(Identity(n), m, n) == m
  {
    var c := MatMul(Identity(n), m, n);
    forall i | 0 <= i < n
      ensures c[i] == m[i]
    {
      forall j | 0 <= j < n
        ensures c[i][j] == m[i][j]
      {
        RowColIdentityLeft(m, n, i, j, n);
      }
    }
  }

  function Transpose(m: Matrix, n: nat): (t: Matrix)
    ensures IsSquare(t, n)
  {
    seq(n, i => seq(n, j => At(m, j, i)))
  }
}
