/** Per-channel compression of an RGB raster (`svd_compress_image` after the
    resize): channels 0, 1 and 2 are each reconstructed from their own
    factorisation, stacked back in R, G, B order, clipped to [0, 255] and
    cast to 8-bit values. The decomposition is a parameter: a deterministic
    function from a channel matrix to its factorisation. */
module ImageCompression {
  import opened Matrices
  import opened ChannelCompression
  import opened Pixels
  import opened Outcomes

  /** A decoded image as a rows x columns x channels array of bytes. */
  type Raster = seq<seq<seq<Byte>>>

  /** The same array before quantisation. */
  type RealRaster = seq<seq<seq<real>>>

  /** The decomposition `np.linalg.svd(channel, full_matrices=False)`. */
  type Factoriser = Matrix -> Factorization

  /** `x` is an m x n x c array: m rows, each an n x c matrix. */
  predicate IsRaster<T>(x: seq<seq<seq<T>>>, m: nat, n: nat, c: nat) {
    |x| == m && forall i :: 0 <= i < m ==> IsMatrix(x[i], n, c)
  }

  /** `arr[:, :, ch]` as a real matrix. */
  function ChannelOf(img: Raster, m: nat, n: nat, c: nat, ch: nat): (a: Matrix)
    requires IsRaster(img, m, n, c) && ch < c
    ensures IsMatrix(a, m, n)
  {
    seq(m, i requires 0 <= i < m => seq(n, j requires 0 <= j < n => img[i][j][ch] as real))
  }

  /** The decomposition returns a thin-SVD-shaped triple for every channel
      that is compressed. */
  predicate FactorsChannels(svd: Factoriser, img: Raster, m: nat, n: nat, c: nat)
    requires IsRaster(img, m, n, c)
  {
    forall ch :: 0 <= ch < Min(c, 3) ==> ThinShaped(svd(ChannelOf(img, m, n, c, ch)), m, n)
  }

  /** `np.stack([red, green, blue], axis=2)`. */
  function Stack(red: Matrix, green: Matrix, blue: Matrix, m: nat, n: nat): (x: RealRaster)
    requires IsMatrix(red, m, n) && IsMatrix(green, m, n) && IsMatrix(blue, m, n)
    ensures IsRaster(x, m, n, 3)
  {
    seq(m, i requires 0 <= i < m =>
      seq(n, j requires 0 <= j < n => [red[i][j], green[i][j], blue[i][j]]))
  }

  /** `np.clip(x, 0, 255).astype("uint8")`, entry by entry. */
  function QuantizeRaster(x: RealRaster, m: nat, n: nat, c: nat): (img: Raster)
    requires IsRaster(x, m, n, c)
    ensures IsRaster(img, m, n, c)
  {
    seq(m, i requires 0 <= i < m =>
      seq(n, j requires 0 <= j < n =>
        seq(c, ch requires 0 <= ch < c => Quantize(x[i][j][ch]))))
  }

  /** The reconstructed, not yet quantised, channel `ch`. */
  function ReconstructedChannel(svd: Factoriser, img: Raster, m: nat, n: nat, c: nat, ch: nat, k: int): (a: Matrix)
    requires IsRaster(img, m, n, c) && FactorsChannels(svd, img, m, n, c) && ch < Min(c, 3)
    ensures IsMatrix(a, m, n)
  {
    CompressChannel(svd(ChannelOf(img, m, n, c, ch)), m, n, k)
  }

  /** Compresses an m x n x c image with rank `k`. The result has exactly
      three channels, output channel `ch` is the quantised reconstruction of
      input channel `ch` alone, and channels beyond the third are ignored. */
  function CompressImage(img: Raster, m: nat, n: nat, c: nat, k: int, svd: Factoriser): (r: Result<Raster>)
    requires IsRaster(img, m, n, c) && FactorsChannels(svd, img, m, n, c)
    ensures r.Ok? <==> 3 <= c
    ensures r.Err? ==> r.failure == ChannelIndexOutOfRange
    ensures r.Ok? ==> IsRaster(r.value, m, n, 3)
    ensures r.Ok? ==> forall i, j, ch :: 0 <= i < m && 0 <= j < n && 0 <= ch < 3 ==>
      r.value[i][j][ch] == Quantize(ReconstructedChannel(svd, img, m, n, c, ch, k)[i][j])
  {
    if c < 3 then Err(ChannelIndexOutOfRange)
    else
      var red := ReconstructedChannel(svd, img, m, n, c, 0, k);
      var green := ReconstructedChannel(svd, img, m, n, c, 1, k);
      var blue := ReconstructedChannel(svd, img, m, n, c, 2, k);
      Ok(QuantizeRaster(Stack(red, green, blue, m, n), m, n, 3))
  }

  /** Channels are compressed in isolation: two images whose channel `ch`
      is the same get the same output channel `ch`, whatever their other
      channels hold. */
  lemma ChannelsIndependent(img1: Raster, img2: Raster, m: nat, n: nat, c: nat, k: int, svd: Factoriser, ch: nat)
    requires IsRaster(img1, m, n, c) && FactorsChannels(svd, img1, m, n, c)
    requires IsRaster(img2, m, n, c) && FactorsChannels(svd, img2, m, n, c)
    requires 3 <= c && ch < 3
    requires ChannelOf(img1, m, n, c, ch) == ChannelOf(img2, m, n, c, ch)
    ensures forall i, j :: 0 <= i < m && 0 <= j < n ==>
      CompressImage(img1, m, n, c, k, svd).value[i][j][ch] == CompressImage(img2, m, n, c, k, svd).value[i][j][ch]
  {
  }

  /** With exact factorisations and a rank of at least `min(m, n)`, a
      three-channel image comes back byte for byte. */
  lemma FullRankRoundTrip(img: Raster, m: nat, n: nat, k: int, svd: Factoriser)
    requires IsRaster(img, m, n, 3) && FactorsChannels(svd, img, m, n, 3)
    requires forall ch :: 0 <= ch < 3 ==>
      Factorizes(svd(ChannelOf(img, m, n, 3, ch)), ChannelOf(img, m, n, 3, ch), m, n)
    requires Min(m, n) <= k
    ensures CompressImage(img, m, n, 3, k, svd) == Ok(img)
  {
    var out := CompressImage(img, m, n, 3, k, svd).value;
    forall ch | 0 <= ch < 3
      ensures ReconstructedChannel(svd, img, m, n, 3, ch, k) == ChannelOf(img, m, n, 3, ch)
    {
      FullRankReproduces(svd(ChannelOf(img, m, n, 3, ch)), ChannelOf(img, m, n, 3, ch), m, n, k);
    }
    forall i | 0 <= i < m
      ensures out[i] == img[i]
    {
      forall j | 0 <= j < n
        ensures out[i][j] == img[i][j]
      {
        forall ch | 0 <= ch < 3
          ensures out[i][j][ch] == img[i][j][ch]
        {
          assert ChannelOf(img, m, n, 3, ch)[i][j] == img[i][j][ch] as real;
          QuantizeByteRoundTrip(img[i][j][ch]);
        }
      }
    }
    assert out == img;
  }
}
