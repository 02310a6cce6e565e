/** Storage footprint arithmetic (`calculate_memory`): one byte per channel
    value of the original array against eight-byte values for the truncated
    factors of three channels. As in the program, the requested rank is used
    without clamping and the channel count of the factorised form is fixed
    at three. */
module Footprint {
  import opened Matrices
  import opened ChannelCompression
  import opened Pixels
  import opened ImageCompression
  import opened Outcomes

  /** `np.array(image).shape`: rows, columns, channels. */
  datatype Shape = Shape(rows: nat, cols: nat, channels: nat)

  /** The triple `(original_bytes, svd_bytes, ratio)`. */
  datatype Memory = Memory(originalBytes: int, svdBytes: int, ratio: real)

  /** Bytes per stored factor value (a 64-bit float). */
  const BytesPerValue: nat := 8

  /** Channels assumed for the factorised form, independent of the shape. */
  const FactorisedChannels: nat := 3

  function OriginalBytes(s: Shape): nat {
    s.rows * s.cols * s.channels
  }

  /** `3 * k * (m + n + 1) * 8`: per channel and per component, one column
      of U, one singular value and one row of Vt. */
  function SvdBytes(m: nat, n: nat, k: int): int {
    FactorisedChannels * k * (m + n + 1) * BytesPerValue
  }

  /** `calculate_memory(image, k)`. The division fails exactly when the
      array has an empty dimension; otherwise the ratio is the quotient of
      the two byte counts. */
  function CalculateMemory(s: Shape, k: int): (r: Result<Memory>)
    ensures r.Ok? <==> 0 < s.rows && 0 < s.cols && 0 < s.channels
    ensures r.Err? ==> r.failure == DivisionByZero
    ensures r.Ok? ==> r.value.originalBytes == OriginalBytes(s) && r.value.svdBytes == SvdBytes(s.rows, s.cols, k)
    ensures r.Ok? ==> r.value.ratio * r.value.originalBytes as real == r.value.svdBytes as real
  {
    var original := OriginalBytes(s);
    var svd := SvdBytes(s.rows, s.cols, k);
    if original == 0 then Err(DivisionByZero)
    else Ok(Memory(original, svd, svd as real / original as real))
  }

  /** The factorised size grows by `24 * (m + n + 1)` bytes per requested
      component, so it is strictly increasing in `k`. */
  lemma SvdBytesStrictlyIncreasing(m: nat, n: nat, k1: int, k2: int)
    requires k1 < k2
    ensures SvdBytes(m, n, k1) < SvdBytes(m, n, k2)
  {
    var w := FactorisedChannels * (m + n + 1) * BytesPerValue;
    assert SvdBytes(m, n, k1) == k1 * w;
    assert SvdBytes(m, n, k2) == k2 * w;
    assert (k2 - k1) * w > 0;
  }

  /** A 100 x 80 RGB image at rank 10: 24000 original bytes, 43440 factor
      bytes, ratio 1.81 (above one, which is a valid outcome). */
  lemma FootprintExample()
    ensures CalculateMemory(Shape(100, 80, 3), 10) == Ok(Memory(24000, 43440, 1.81))
  {
  }

  /** Number of bytes in the whole array, one per channel value: the entry
      counts of its rows, each row being a columns x channels matrix. */
  function RasterBytes(img: Raster): nat {
    if |img| == 0 then 0 else RasterBytes(img[..|img| - 1]) + EntryCount(img[|img| - 1])
  }

  /** `original_bytes` is exactly the number of channel values the decoded
      array holds. */
  lemma {:induction false} OriginalBytesCountsRaster(img: Raster, m: nat, n: nat, c: nat)
    requires IsRaster(img, m, n, c)
    ensures RasterBytes(img) == OriginalBytes(Shape(m, n, c))
  {
    if m > 0 {
      OriginalBytesCountsRaster(img[..m - 1], m - 1, n, c);
      EntryCountOfShape(img[m - 1], n, c);
      assert (m - 1) * n * c + n * c == m * n * c;
    }
  }

  /** Values held by the truncated triple `U[:, :k]`, `S[:k]`, `Vt[:k, :]`. */
  function StoredValues(f: Factorization, m: nat, n: nat, k: int): nat
    requires ThinShaped(f, m, n)
  {
    var kEff := EffectiveRank(k, |f.s|);
    EntryCount(TakeColumns(f.u, |f.s|, kEff)) + |f.s[..kEff]| + EntryCount(f.vt[..kEff])
  }

  /** Each kept component stores an m-vector, a scalar and an n-vector. */
  lemma StoredValuesPerComponent(f: Factorization, m: nat, n: nat, k: int)
    requires ThinShaped(f, m, n)
    ensures StoredValues(f, m, n, k) == EffectiveRank(k, |f.s|) * (m + n + 1)
  {
    var kEff := EffectiveRank(k, |f.s|);
    EntryCountOfShape(TakeColumns(f.u, |f.s|, kEff), m, kEff);
    EntryCountOfShape(f.vt[..kEff], kEff, n);
  }

  /** For a rank that does not exceed `min(m, n)`, `svd_bytes` is eight
      bytes for every value of the three truncated factorisations. */
  lemma SvdBytesCountsStoredFactors(red: Factorization, green: Factorization, blue: Factorization, m: nat, n: nat, k: int)
    requires ThinShaped(red, m, n) && ThinShaped(green, m, n) && ThinShaped(blue, m, n)
    requires 0 <= k <= Min(m, n)
    ensures SvdBytes(m, n, k)
         == BytesPerValue * (StoredValues(red, m, n, k) + StoredValues(green, m, n, k) + StoredValues(blue, m, n, k))
  {
    StoredValuesPerComponent(red, m, n, k);
    StoredValuesPerComponent(green, m, n, k);
    StoredValuesPerComponent(blue, m, n, k);
  }

  /** Because the rank is not clamped here, a request above `min(m, n)`
      reports more bytes than the truncated factorisations hold. */
  lemma SvdBytesOverstatesBeyondRank(red: Factorization, green: Factorization, blue: Factorization, m: nat, n: nat, k: int)
    requires ThinShaped(red, m, n) && ThinShaped(green, m, n) && ThinShaped(blue, m, n)
    requires Min(m, n) < k
    ensures SvdBytes(m, n, k)
          > BytesPerValue * (StoredValues(red, m, n, k) + StoredValues(green, m, n, k) + StoredValues(blue, m, n, k))
  {
    StoredValuesPerComponent(red, m, n, k);
    StoredValuesPerComponent(green, m, n, k);
    StoredValuesPerComponent(blue, m, n, k);
    SvdBytesStrictlyIncreasing(m, n, Min(m, n), k);
  }

  /** Concrete instance: one pixel at rank 5 is reported as 360 bytes while
      its three 1 x 1 factorisations hold 9 values, 72 bytes. */
  lemma SinglePixelOverstated(p: real)
    ensures var f := Factorization([[1.0]], [p], [[1.0]]);
      && SvdBytes(1, 1, 5) == 360
      && BytesPerValue * 3 * StoredValues(f, 1, 1, 5) == 72
  {
    StoredValuesPerComponent(Factorization([[1.0]], [p], [[1.0]]), 1, 1, 5);
  }

  /** The footprint with the same rank clamp as the reconstruction. */
  function ClampedSvdBytes(m: nat, n: nat, k: int): int {
    FactorisedChannels * EffectiveRank(k, Min(m, n)) * (m + n + 1) * BytesPerValue
  }

  /** `calculate_memory` with the clamped footprint. */
  function CalculateMemoryClamped(s: Shape, k: int): (r: Result<Memory>)
    ensures r.Ok? <==> 0 < s.rows && 0 < s.cols && 0 < s.channels
    ensures r.Err? ==> r.failure == DivisionByZero
    ensures r.Ok? ==> r.value.originalBytes == OriginalBytes(s) && r.value.svdBytes == ClampedSvdBytes(s.rows, s.cols, k)
    ensures r.Ok? ==> r.value.ratio * r.value.originalBytes as real == r.value.svdBytes as real
  {
    var original := OriginalBytes(s);
    var svd := ClampedSvdBytes(s.rows, s.cols, k);
    if original == 0 then Err(DivisionByZero)
    else Ok(Memory(original, svd, svd as real / original as real))
  }

  /** The clamped footprint is eight bytes per stored value for every
      requested rank, including ranks above `min(m, n)`. */
  lemma ClampedSvdBytesCountsStoredFactors(red: Factorization, green: Factorization, blue: Factorization, m: nat, n: nat, k: int)
    requires ThinShaped(red, m, n) && ThinShaped(green, m, n) && ThinShaped(blue, m, n)
    ensures ClampedSvdBytes(m, n, k)
         == BytesPerValue * (StoredValues(red, m, n, k) + StoredValues(green, m, n, k) + StoredValues(blue, m, n, k))
  {
    StoredValuesPerComponent(red, m, n, k);
    StoredValuesPerComponent(green, m, n, k);
    StoredValuesPerComponent(blue, m, n, k);
  }

  /** Below the clamp both footprints agree. */
  lemma ClampedAgreesWithinRank(m: nat, n: nat, k: int)
    requires 0 <= k <= Min(m, n)
    ensures ClampedSvdBytes(m, n, k) == SvdBytes(m, n, k)
  {
  }
}
