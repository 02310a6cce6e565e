/** Dense real matrices as sequences of rows, with the few operations the
    rank-truncated reconstruction needs: products, diagonal matrices,
    slicing of leading columns and rows, and sums of rank-one terms.
    Entries are mathematical reals; floating-point rounding is not modelled. */
module Matrices {

  type Matrix = seq<seq<real>>

  /** `a` has exactly `rows` rows of exactly `cols` entries each. The column
      count is carried separately because a matrix with no rows still has one.
      Generic in the entry type, so that arrays of bytes share the definition. */
  predicate IsMatrix<T>(a: seq<seq<T>>, rows: nat, cols: nat) {
    |a| == rows && forall i :: 0 <= i < |a| ==> |a[i]| == cols
  }

  /** Inner product, accumulated from the last entry backwards so that
      extending both vectors by one entry adds exactly one product. */
  function Dot(a: seq<real>, b: seq<real>): real
    requires |a| == |b|
    decreases |a|
  {
    if |a| == 0 then 0.0 else Dot(a[..|a| - 1], b[..|b| - 1]) + a[|a| - 1] * b[|b| - 1]
  }

  /** Column `j` of `a`. */
  function Column(a: Matrix, j: nat): seq<real>
    requires forall i :: 0 <= i < |a| ==> j < |a[i]|
  {
    seq(|a|, i requires 0 <= i < |a| => a[i][j])
  }

  /** The matrix product `a @ b`, where `b` has `|b|` rows and `cols` columns. */
  function MatMul(a: Matrix, b: Matrix, cols: nat): (p: Matrix)
    requires IsMatrix(a, |a|, |b|) && IsMatrix(b, |b|, cols)
    ensures IsMatrix(p, |a|, cols)
    ensures forall i, j :: 0 <= i < |a| && 0 <= j < cols ==> p[i][j] == Dot(a[i], Column(b, j))
  {
    seq(|a|, i requires 0 <= i < |a| =>
      seq(cols, j requires 0 <= j < cols => Dot(a[i], Column(b, j))))
  }

  /** The square matrix with `s` on its diagonal and zeros elsewhere. */
  function Diag(s: seq<real>): (d: Matrix)
    ensures IsMatrix(d, |s|, |s|)
  {
    seq(|s|, p requires 0 <= p < |s| =>
      seq(|s|, q requires 0 <= q < |s| => if p == q then s[p] else 0.0))
  }

  /** `a[:, :k]`: the leading `k` columns of every row. */
  function TakeColumns(a: Matrix, cols: nat, k: nat): (t: Matrix)
    requires IsMatrix(a, |a|, cols) && k <= cols
    ensures IsMatrix(t, |a|, k)
  {
    seq(|a|, i requires 0 <= i < |a| => a[i][..k])
  }

  /** The all-zero `rows` x `cols` matrix. */
  function Zero(rows: nat, cols: nat): (z: Matrix)
    ensures IsMatrix(z, rows, cols)
  {
    seq(rows, i => seq(cols, j => 0.0))
  }

  /** Entrywise sum of two matrices of the same shape. */
  function Add(a: Matrix, b: Matrix, rows: nat, cols: nat): (c: Matrix)
    requires IsMatrix(a, rows, cols) && IsMatrix(b, rows, cols)
    ensures IsMatrix(c, rows, cols)
  {
    seq(rows, i requires 0 <= i < rows =>
      seq(cols, j requires 0 <= j < cols => a[i][j] + b[i][j]))
  }

  /** The rank-one matrix `sigma * u v^T`. */
  function RankOne(u: seq<real>, sigma: real, v: seq<real>): (o: Matrix)
    ensures IsMatrix(o, |u|, |v|)
  {
    seq(|u|, i requires 0 <= i < |u| =>
      seq(|v|, j requires 0 <= j < |v| => u[i] * sigma * v[j]))
  }

  /** Number of stored entries, summed row by row. */
  function EntryCount<T>(a: seq<seq<T>>): nat {
    if |a| == 0 then 0 else EntryCount(a[..|a| - 1]) + |a[|a| - 1]|
  }

  /** A `rows` x `cols` matrix stores `rows * cols` entries, whatever its values. */
  lemma {:induction false} EntryCountOfShape<T>(a: seq<seq<T>>, rows: nat, cols: nat)
    requires IsMatrix(a, rows, cols)
    ensures EntryCount(a) == rows * cols
  {
    if rows > 0 {
      EntryCountOfShape(a[..rows - 1], rows - 1, cols);
    }
  }

  /** The inner product with a vector that is zero everywhere. */
  lemma {:induction false} DotWithZeros(a: seq<real>, z: seq<real>)
    requires |a| == |z|
    requires forall p :: 0 <= p < |z| ==> z[p] == 0.0
    ensures Dot(a, z) == 0.0
  {
    if |a| > 0 {
      DotWithZeros(a[..|a| - 1], z[..|z| - 1]);
    }
  }

  /** The inner product with a vector that is zero except at index `q`
      picks out that one product. */
  lemma {:induction false} DotWithUnit(a: seq<real>, e: seq<real>, q: nat)
    requires |a| == |e| && q < |e|
    requires forall p :: 0 <= p < |e| && p != q ==> e[p] == 0.0
    ensures Dot(a, e) == a[q] * e[q]
  {
    var last := |a| - 1;
    if q == last {
      DotWithZeros(a[..last], e[..last]);
    } else {
      DotWithUnit(a[..last], e[..last], q);
    }
  }

  /** Dot of two prefixes of length `t + 1` is the dot of the prefixes of
      length `t` plus the one new product. */
  lemma DotPrefixStep(a: seq<real>, b: seq<real>, t: nat)
    requires |a| == |b| && t < |a|
    ensures Dot(a[..t + 1], b[..t + 1]) == Dot(a[..t], b[..t]) + a[t] * b[t]
  {
    assert a[..t + 1][..t] == a[..t];
    assert b[..t + 1][..t] == b[..t];
  }
}
