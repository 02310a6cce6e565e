# SVD image compression — Dafny model

A model of the compression core of a small image-compression program. The
program replaces each colour channel of an RGB image by a rank-k truncated
singular value decomposition, rebuilds the channel as
`U[:, :k] @ diag(S[:k]) @ Vt[:k, :]`, stacks the three channels back in R, G, B
order, clips every value to [0, 255] and casts it to an 8-bit value. It also
reports the byte size of the original array, a factor size computed by the
formula `3·k·(m+n+1)·8` on that array's shape, and their ratio. The shape is
the un-resized image's, while the factors are computed from a copy shrunk to
fit 900×900. So the formula counts the factors actually computed only when
both sides are at most 900 (see Left out).

Modules, one per component:

- `Matrices` (`matrices.dfy`): real matrices as `seq<seq<real>>` with an
  `IsMatrix` shape predicate; product, diagonal matrix, leading-column slice,
  rank-one terms, entry counts.
- `ChannelCompression` (`channel.dfy`): `compress_channel`. The decomposition
  is an input `Factorization(u, s, vt)` that only has to have the shape of a
  thin SVD (`ThinShaped`). The rank clamp `min(k, len(S))` and Python's slice
  rule for the `[:k]` slices are modelled exactly. A negative `k` keeps
  `max(0, len(S) + k)` components, although the slider's minimum of 5
  (PROGRAM.py:67) never passes one. The
  reconstruction is proved equal to an independent reference, the sum of the
  first `kEff` rank-one terms `s[p] u_p v_pᵀ`.
- `Pixels` (`pixels.dfy`): `np.clip(x, 0, 255)` and the `uint8` cast, which
  truncates toward zero and so is the floor after the clip.
- `ImageCompression` (`image.dfy`): the stack/clip/cast part of
  `svd_compress_image`. The decomposition is passed in as a function from a
  channel matrix to its factorisation. Being a function, it is deterministic.
- `Footprint` (`memory.dfy`): `calculate_memory`, as written: the requested
  rank is not clamped and the factor channel count is fixed at 3.
- `Outcomes` (`outcomes.dfy`): the two failures, as a `Result`.

In some places the code does not do what a reader might expect. The model
follows the code:

- Rounding: rounding to the nearest integer would be natural. The code
  truncates (`astype("uint8")`), and `Pixels.Quantize` truncates.
- Channel count: rejecting every image without exactly three channels would
  be natural. The code only fails, with an index error, when there are fewer
  than three. It ignores any extra channels. `CompressImage` does the same.
- Footprint rank: the footprint might be expected to use the clamped rank, as
  the reconstruction does. The code uses the requested rank (see Findings).
- Stored results: the code keeps only the last result, in a single
  `compressed_image` slot. It has no collection of past results. See Left out.

## Model

| member | source | states |
|---|---|---|
| Matrices.MatMul | PROGRAM.py:29 | the `@` product of an r×p and a p×q matrix is r×q, and entry (i, j) is row i of the left factor dotted with column j of the right |
| ChannelCompression.EffectiveRank | PROGRAM.py:27-29 | the number of components kept never exceeds `len(S)`; it is `min(k, len(S))` for every non-negative k, exactly `len(S)` whenever k ≥ `len(S)`, and `max(0, len(S) + k)` for negative k (Python's slice rule) |
| ChannelCompression.CompressChannel | PROGRAM.py:25-29 | an m×n channel with a thin-SVD-shaped factorisation is rebuilt as an m×n matrix, whatever rank is requested |
| ChannelCompression.ReconstructionIsRankOneSum | PROGRAM.py:28-29 | the truncated product equals the sum of the first `min(k, len(S))` rank-one terms `s[p]·u_p·v_pᵀ`; dropped components contribute nothing |
| ChannelCompression.NextComponentAddsRankOne | PROGRAM.py:28-29 | raising the rank from k to k+1 (below `len(S)`) adds exactly the rank-one term of component k |
| ChannelCompression.ClampedRequestsAgree | PROGRAM.py:27-29 | any requested k ≥ `len(S)` gives exactly the reconstruction for k = `len(S)`; over-large ranks are not an error |
| ChannelCompression.FullRankReproduces | PROGRAM.py:26-29 | if the factorisation reproduces the channel exactly, keeping all `len(S)` components gives back that channel |
| ChannelCompression.SinglePixelKept | PROGRAM.py:25-29 | a 1×1 channel requested at any rank ≥ 1 comes back unchanged |
| Pixels.Clip | PROGRAM.py:42 | every clipped value lies in [0, 255], and values already in range are unchanged |
| Pixels.ClipIdempotent | PROGRAM.py:42 | clipping twice equals clipping once |
| Pixels.ClipMonotone | PROGRAM.py:42 | clipping preserves order |
| Pixels.ClipSaturates | PROGRAM.py:42 | negative values become 0 and values above 255 become 255 |
| Pixels.ToByte | PROGRAM.py:42 | the `uint8` cast of a value in [0, 256) is the greatest byte not above it |
| Pixels.Quantize | PROGRAM.py:42 | the stored byte b satisfies b ≤ clip(x) < b + 1, so it is the floor of the clipped value and lies in 0..255 |
| Pixels.QuantizeIsFloorOfClip | PROGRAM.py:42 | any integer z with z ≤ clip(x) < z + 1 is the stored byte, so no rounding happens |
| Pixels.QuantizeByteRoundTrip | PROGRAM.py:42 | a byte that is converted to a real and then clipped and cast comes back unchanged |
| Pixels.QuantizeIdempotent | PROGRAM.py:42 | quantising a quantised value changes nothing |
| Pixels.QuantizeMonotone | PROGRAM.py:42 | clipping and casting preserves order |
| Pixels.QuantizeTruncates | PROGRAM.py:42 | 254.99 becomes 254 and 0.5 becomes 0, so values are truncated, not rounded; -3.7 becomes 0 and 300.2 becomes 255 |
| ImageCompression.ChannelOf | PROGRAM.py:37-39 | `arr[:, :, ch]` of an m×n×c array is an m×n matrix |
| ImageCompression.ReconstructedChannel | PROGRAM.py:37-39 | each channel is rebuilt from the factorisation of that channel alone, as an m×n matrix |
| ImageCompression.Stack | PROGRAM.py:41 | stacking three m×n matrices along axis 2 gives an m×n×3 array |
| ImageCompression.QuantizeRaster | PROGRAM.py:42 | clipping and casting entry by entry keeps the m×n×c shape |
| ImageCompression.CompressImage | PROGRAM.py:35-42 | succeeds exactly when the array has at least three channels, and fails with an index error otherwise; on success the output is m×n×3 and output channel ch (R, G, B in order) is the quantised rebuild of input channel ch |
| ImageCompression.ChannelsIndependent | PROGRAM.py:37-41 | two images with the same channel ch give the same output channel ch, whatever their other channels hold |
| ImageCompression.FullRankRoundTrip | PROGRAM.py:37-42 | with exact factorisations and k ≥ min(m, n), a three-channel image comes back byte for byte |
| Footprint.CalculateMemory | PROGRAM.py:47-55 | fails with division by zero exactly when a dimension is 0; otherwise returns m·n·c, 3·k·(m+n+1)·8 with k unclamped, and a ratio with ratio · original = svd |
| Footprint.SvdBytesStrictlyIncreasing | PROGRAM.py:51 | because the requested rank is used unclamped, the reported factor size is strictly increasing in k |
| Footprint.FootprintExample | PROGRAM.py:47-55 | shape (100, 80, 3) at rank 10 gives 24000 original bytes, 43440 factor bytes and ratio 1.81 |
| Footprint.OriginalBytesCountsRaster | PROGRAM.py:48-50 | `original_bytes` is exactly the number of channel values held by an m×n×c array |
| Footprint.StoredValuesPerComponent | PROGRAM.py:28-29 | the slices `U[:, :k]`, `S[:k]` and `Vt[:k, :]` hold `kEff·(m+n+1)` values |
| Footprint.SvdBytesCountsStoredFactors | PROGRAM.py:51 | for 0 ≤ k ≤ min(m, n), `svd_bytes` is 8 bytes per value held by the three truncated factorisations |
| Footprint.SvdBytesOverstatesBeyondRank | PROGRAM.py:51 | for k > min(m, n), `svd_bytes` is larger than 8 bytes per value held by the truncated factorisations |
| Footprint.SinglePixelOverstated | PROGRAM.py:51 | a 1×1 image at rank 5 is reported as 360 factor bytes, but its truncated factors hold only 72 |
| Footprint.CalculateMemoryClamped | PROGRAM.py:47-55 | the same triple and failure case as `CalculateMemory`, but the factor size uses the clamped rank |
| Footprint.ClampedSvdBytesCountsStoredFactors | PROGRAM.py:51 | for every requested rank, the clamped factor size is 8 bytes per value held by the three truncated factorisations |
| Footprint.ClampedAgreesWithinRank | PROGRAM.py:51 | for 0 ≤ k ≤ min(m, n), the clamped and unclamped factor sizes agree |

## Left out

- Computing the SVD (`np.linalg.svd`, PROGRAM.py:26). This is a foreign LAPACK call. It is an input that satisfies only the thin-SVD shape. Orthonormal columns, non-increasing singular values and convergence failure are not modelled.
- Error is non-increasing in rank. This is not modelled. It needs orthonormal factors and a norm, and the factorisation here has only its shape.
- Floating-point rounding in the matrix product and in the ratio division. Entries are mathematical reals.
- ImageCompression.FullRankRoundTrip: holds in exact arithmetic only. It is not a property of the program's float output. The cast truncates, so a float rebuild of 200 as 199.9999999 is stored as 199.
- Pixels.ToByte: requires its argument to lie in [0, 256), so the `uint8` cast of out-of-range values is not modelled. The clip runs before the cast, so the program never casts such a value. NaN entries are not modelled.
- Image copy and `thumbnail((900, 900))` resizing (PROGRAM.py:32-33). The model starts from the already resized array.
- Footprint.SvdBytesCountsStoredFactors: `calculate_memory` gets the shape of the un-resized image (PROGRAM.py:48, 88, 98). The factors come from the thumbnail copy (PROGRAM.py:32-33). This lemma, `SvdBytesOverstatesBeyondRank`, `SinglePixelOverstated` and `ClampedSvdBytesCountsStoredFactors` count the factors of an m×n decomposition. They describe the program's actual factors only when both sides of the image are at most 900. Example: a 2000×200 image at rank 100 is factorised as 900×90, which stores 3·90·991 values (2,140,560 bytes). `ClampedSvdBytes(2000, 200, 100)` gives 5,282,400.
- Decoding to an array (PROGRAM.py:35, 48, 73), `Image.fromarray` (PROGRAM.py:44) and JPEG encoding (PROGRAM.py:102-103). These are image library behaviour.
- Streamlit page setup, upload, slider, buttons, columns, display, KB formatting and download (PROGRAM.py:1-23, 57-110). These are user interface only.
- The single `compressed_image` session slot (PROGRAM.py:21-22, 77). It only holds the last result. The program has no keyed artifact store, listing or selection.
- A batch footprint table over several ranks. The program has no such operation.

## Findings

| source | as written | input that shows it | evidently intended | confidence | as-written member | corrected member |
|---|---|---|---|---|---|---|
| PROGRAM.py:51 | `svd_bytes = 3 * k * (m + n + 1) * 8` uses the requested rank, but `compress_channel` keeps only `min(k, len(S))` components (line 27) | a 1×1 RGB image at rank 5: reports 360 bytes, while the truncated factors hold 9 values (72 bytes) | count the clamped rank `min(k, min(m, n))`, matching the reconstruction for images whose sides are both at most 900 (larger images are also resized first, see Left out) | medium; not executed | Footprint.SvdBytesOverstatesBeyondRank | Footprint.ClampedSvdBytesCountsStoredFactors |
