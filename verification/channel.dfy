/** Rank-truncated reconstruction of one colour channel (`compress_channel`).
    The singular value decomposition itself is not computed here: a
    factorisation is an input that only has to have the shape of a thin SVD
    of an m x n matrix (U is m x r, S has r entries, Vt is r x n, with
    r = min(m, n)). Orthonormality and ordering of S are not assumed. */
module ChannelCompression {
  import opened Matrices

  function Min(a: int, b: int): int {
    if a <= b then a else b
  }

  /** The triple `(U, S, Vt)` returned by the decomposition. */
  datatype Factorization = Factorization(u: Matrix, s: seq<real>, vt: Matrix)

  /** `f` has the shape of a thin (`full_matrices=False`) SVD of an m x n matrix. */
  predicate ThinShaped(f: Factorization, m: nat, n: nat) {
    && |f.s| == Min(m, n)
    && IsMatrix(f.u, m, |f.s|)
    && IsMatrix(f.vt, |f.s|, n)
  }

  /** How many leading elements the slice `x[:stop]` keeps from a sequence of
      length `len` (a negative stop counts from the end). */
  function SliceLength(len: nat, stop: int): (c: nat)
    ensures c <= len
  {
    if 0 <= stop then Min(stop, len)
    else if 0 < len + stop then len + stop
    else 0
  }

  /** Number of components kept for requested rank `k` when `r` singular
      values exist: the rank is first clamped with `min(k, len(S))` and the
      clamped value is then used as the stop of the slices `[:k]`. */
  function EffectiveRank(k: int, r: nat): (kEff: nat)
    ensures kEff <= r
    ensures 0 <= k ==> kEff == Min(k, r)
    ensures r <= k ==> kEff == r
    ensures k < 0 ==> kEff == (if 0 < r + k then r + k else 0)
  {
    SliceLength(r, Min(k, r))
  }

  /** `U[:, :k] @ diag(S[:k]) @ Vt[:k, :]` with the clamped rank: the
      reconstructed m x n channel before any clipping. */
  function CompressChannel(f: Factorization, m: nat, n: nat, k: int): (a: Matrix)
    requires ThinShaped(f, m, n)
    ensures IsMatrix(a, m, n)
  {
    var kEff := EffectiveRank(k, |f.s|);
    MatMul(MatMul(TakeColumns(f.u, |f.s|, kEff), Diag(f.s[..kEff]), kEff), f.vt[..kEff], n)
  }

  /** Reference definition: the sum of the first `t` rank-one terms
      `s[p] * u_p v_p^T`, where `u_p` is column p of U and `v_p` row p of Vt. */
  function RankOneSum(f: Factorization, m: nat, n: nat, t: nat): (a: Matrix)
    requires ThinShaped(f, m, n) && t <= |f.s|
    ensures IsMatrix(a, m, n)
  {
    if t == 0 then Zero(m, n)
    else Add(RankOneSum(f, m, n, t - 1), RankOne(Column(f.u, t - 1), f.s[t - 1], f.vt[t - 1]), m, n)
  }

  /** Row `i` of `U * diag(S)`: column p of U weighted by `s[p]`. */
  function WeightedRow(f: Factorization, m: nat, n: nat, i: nat): seq<real>
    requires ThinShaped(f, m, n) && i < m
  {
    seq(|f.s|, p requires 0 <= p < |f.s| => f.u[i][p] * f.s[p])
  }

  /** Entry (i, j) of the partial rank-one sum is an inner product over the
      first `t` components. */
  lemma {:induction false} RankOneSumEntry(f: Factorization, m: nat, n: nat, t: nat, i: nat, j: nat)
    requires ThinShaped(f, m, n) && t <= |f.s| && i < m && j < n
    ensures RankOneSum(f, m, n, t)[i][j] == Dot(WeightedRow(f, m, n, i)[..t], Column(f.vt, j)[..t])
  {
    if t > 0 {
      RankOneSumEntry(f, m, n, t - 1, i, j);
      DotPrefixStep(WeightedRow(f, m, n, i), Column(f.vt, j), t - 1);
    }
  }

  /** Row `i` of `U[:, :k] @ diag(S[:k])` is the weighted row cut to `k` entries. */
  lemma ScaledColumnsRow(f: Factorization, m: nat, n: nat, k: nat, i: nat)
    requires ThinShaped(f, m, n) && k <= |f.s| && i < m
    ensures MatMul(TakeColumns(f.u, |f.s|, k), Diag(f.s[..k]), k)[i] == WeightedRow(f, m, n, i)[..k]
  {
    var uk := TakeColumns(f.u, |f.s|, k);
    var d := Diag(f.s[..k]);
    var row := MatMul(uk, d, k)[i];
    forall q | 0 <= q < k
      ensures row[q] == WeightedRow(f, m, n, i)[q]
    {
      DotWithUnit(uk[i], Column(d, q), q);
    }
  }

  /** The truncated product is exactly the sum of the first `kEff` rank-one
      terms: each kept component contributes `s[p] * u_p v_p^T` and nothing else. */
  lemma ReconstructionIsRankOneSum(f: Factorization, m: nat, n: nat, k: int)
    requires ThinShaped(f, m, n)
    ensures CompressChannel(f, m, n, k) == RankOneSum(f, m, n, EffectiveRank(k, |f.s|))
  {
    var kEff := EffectiveRank(k, |f.s|);
    var a := CompressChannel(f, m, n, k);
    var b := RankOneSum(f, m, n, kEff);
    forall i | 0 <= i < m
      ensures a[i] == b[i]
    {
      ScaledColumnsRow(f, m, n, kEff, i);
      forall j | 0 <= j < n
        ensures a[i][j] == b[i][j]
      {
        assert Column(f.vt[..kEff], j) == Column(f.vt, j)[..kEff];
        RankOneSumEntry(f, m, n, kEff, i, j);
      }
    }
  }

  /** Asking for more components than there are singular values is not an
      error: every such request reconstructs the same matrix as asking for
      exactly `len(S)` components. */
  lemma ClampedRequestsAgree(f: Factorization, m: nat, n: nat, k: int)
    requires ThinShaped(f, m, n) && |f.s| <= k
    ensures CompressChannel(f, m, n, k) == CompressChannel(f, m, n, |f.s|)
  {
  }

  /** Raising the rank by one adds exactly the next rank-one term. */
  lemma NextComponentAddsRankOne(f: Factorization, m: nat, n: nat, k: nat)
    requires ThinShaped(f, m, n) && k < |f.s|
    ensures CompressChannel(f, m, n, k + 1)
         == Add(CompressChannel(f, m, n, k), RankOne(Column(f.u, k), f.s[k], f.vt[k]), m, n)
  {
    ReconstructionIsRankOneSum(f, m, n, k);
    ReconstructionIsRankOneSum(f, m, n, k + 1);
  }

  /** `f` reproduces `a` exactly: `U @ diag(S) @ Vt == a`. */
  predicate Factorizes(f: Factorization, a: Matrix, m: nat, n: nat)
    requires ThinShaped(f, m, n)
  {
    MatMul(MatMul(f.u, Diag(f.s), |f.s|), f.vt, n) == a
  }

  /** When the full rank is kept, nothing is truncated: an exact
      factorisation of `a` reconstructs `a` itself. */
  lemma FullRankReproduces(f: Factorization, a: Matrix, m: nat, n: nat, k: int)
    requires ThinShaped(f, m, n) && Factorizes(f, a, m, n) && |f.s| <= k
    ensures CompressChannel(f, m, n, k) == a
  {
    var r := |f.s|;
    assert TakeColumns(f.u, r, r) == f.u by {
      forall i | 0 <= i < m
        ensures TakeColumns(f.u, r, r)[i] == f.u[i]
      {
        assert f.u[i][..r] == f.u[i];
      }
    }
    assert f.s[..r] == f.s;
    assert f.vt[..r] == f.vt;
  }

  /** A single pixel `p` factorises as `[[1]] diag(p) [[1]]`; any requested
      rank of at least one keeps it exactly. */
  lemma SinglePixelKept(p: real, k: int)
    requires 1 <= k
    ensures CompressChannel(Factorization([[1.0]], [p], [[1.0]]), 1, 1, k) == [[p]]
  {
    var f := Factorization([[1.0]], [p], [[1.0]]);
    assert Dot([1.0], [p]) == p by {
      assert [1.0][..0] == [] && [p][..0] == [];
    }
    assert Dot([p], [1.0]) == p by {
      assert [p][..0] == [] && [1.0][..0] == [];
    }
    assert Diag([p])[0] == [p];
    assert Diag([p]) == [[p]];
    assert Column([[p]], 0) == [p];
    assert Column([[1.0]], 0) == [1.0];
    assert MatMul([[1.0]], [[p]], 1)[0] == [p];
    assert MatMul([[p]], [[1.0]], 1)[0] == [p];
    assert Factorizes(f, [[p]], 1, 1);
    FullRankReproduces(f, [[p]], 1, 1, k);
  }
}
