/**
 * Sums and the vector-matrix product that numpy's `matmul` computes for a
 * row vector times a matrix, over exact reals.
 */
module LinearAlgebra {
  /** The smaller of two lengths: how far zip runs over two lists. */
  function Min(a: nat, b: nat): nat
  {
    if a <= b then a else b
  }


  /** The sum of a sequence, accumulated from the front. */
  function Sum(s: seq<real>): real
  {
    if s == [] then 0.0 else Sum(s[..|s| - 1]) + s[|s| - 1]
  }

  /** Replacing one entry changes the sum by the difference of the two values. */
  lemma {:induction false} SumUpdate(s: seq<real>, k: nat, x: real)
    requires k < |s|
    ensures Sum(s[k := x]) == Sum(s) - s[k] + x
  {
    var last := |s| - 1;
    if k == last {
      assert s[k := x][..last] == s[..last];
    } else {
      assert s[k := x][..last] == s[..last][k := x];
      SumUpdate(s[..last], k, x);
    }
  }

  /** The sum peeled from the front. */
  lemma {:induction false} SumFront(s: seq<real>)
    requires s != []
    ensures Sum(s) == s[0] + Sum(s[1..])
  {
    if |s| > 1 {
      SumFront(s[..|s| - 1]);
      assert s[..|s| - 1][1..] == s[1..][..|s| - 2];
    }
  }

  /** Elementwise division of a score vector by a scalar (numpy's `array / pr`). */
  function Divide(s: seq<real>, d: real): (r: seq<real>)
    requires d != 0.0
    ensures |r| == |s|
    ensures forall i :: 0 <= i < |s| ==> r[i] * d == s[i]
  {
    seq(|s|, i requires 0 <= i < |s| => s[i] / d)
  }

  /** Elementwise application of a scalar function (numpy's ufuncs such as `exp`). */
  function Apply(f: real -> real, s: seq<real>): (r: seq<real>)
    ensures |r| == |s|
    ensures forall i :: 0 <= i < |s| ==> r[i] == f(s[i])
  {
    seq(|s|, i requires 0 <= i < |s| => f(s[i]))
  }

  /** The first `len` terms of the dot product of `v` with column `j` of `m`. */
  function DotColumn(v: seq<real>, m: array2<real>, j: nat, len: nat): real
    reads m
    requires len <= |v| && len <= m.Length0 && j < m.Length1
  {
    if len == 0 then 0.0 else DotColumn(v, m, j, len - 1) + v[len - 1] * m[len - 1, j]
  }

  /** The row vector `v` times the matrix `m`: entry `j` is the dot product with column `j`. */
  function VecMat(v: seq<real>, m: array2<real>): (r: seq<real>)
    reads m
    requires |v| == m.Length0
    ensures |r| == m.Length1
    ensures forall j :: 0 <= j < m.Length1 ==> r[j] == DotColumn(v, m, j, |v|)
  {
    seq(m.Length1, j reads m requires 0 <= j < m.Length1 => DotColumn(v, m, j, |v|))
  }

  /** x * y, kept behind a function so that the solver treats a square as one term. */
  function Product(x: real, y: real): real
  {
    x * y
  }

  function Square(x: real): real
  {
    Product(x, x)
  }

  /** A nonzero real has a positive square. */
  lemma SquarePositive(d: real)
    requires d != 0.0
    ensures Square(d) > 0.0
  {
    if d > 0.0 {
      PositiveProduct(d, d);
    } else {
      NegativeProduct(d, d);
    }
  }

  lemma NonNegativeProduct(x: real, y: real)
    requires x >= 0.0 && y >= 0.0
    ensures x * y >= 0.0
  {
  }

  lemma PositiveProduct(x: real, y: real)
    requires x > 0.0 && y > 0.0
    ensures Product(x, y) > 0.0
  {
  }

  lemma NegativeProduct(x: real, y: real)
    requires x < 0.0 && y < 0.0
    ensures Product(x, y) > 0.0
  {
  }
}
