/** Pixel quantisation: `np.clip(x, 0, 255)` followed by `.astype("uint8")`.
    The cast truncates toward zero; after the clip every value is
    non-negative, so truncation is the floor and no rounding happens. */
module Pixels {

  /** An 8-bit unsigned channel value. */
  type Byte = b: int | 0 <= b < 256

  const MaxByte: real := 255.0

  /** `np.clip(x, 0, 255)` on one entry. */
  function Clip(x: real): (y: real)
    ensures 0.0 <= y <= MaxByte
    ensures 0.0 <= x <= MaxByte ==> y == x
  {
    if x < 0.0 then 0.0 else if x > MaxByte then MaxByte else x
  }

  /** `.astype("uint8")` on a value that already lies in [0, 256). The cast
      drops the fractional part, which for a non-negative value is the floor:
      the result is the greatest byte not above `x`. */
  function ToByte(x: real): (b: Byte)
    requires 0.0 <= x < 256.0
    ensures b as real <= x < b as real + 1.0
  {
    x.Floor
  }

  /** Clip then cast: the stored 8-bit value of one reconstructed entry. */
  function Quantize(x: real): (b: Byte)
    ensures b as real <= Clip(x) < b as real + 1.0
  {
    ToByte(Clip(x))
  }

  /** Clipping twice is clipping once. */
  lemma ClipIdempotent(x: real)
    ensures Clip(Clip(x)) == Clip(x)
  {
  }

  /** Clipping preserves order. */
  lemma ClipMonotone(x: real, y: real)
    requires x <= y
    ensures Clip(x) <= Clip(y)
  {
  }

  /** Values below the range become 0 and values above it become 255. */
  lemma ClipSaturates(x: real)
    ensures x < 0.0 ==> Clip(x) == 0.0
    ensures MaxByte < x ==> Clip(x) == MaxByte
  {
  }

  /** Quantisation is the floor of the clipped value: any integer `z` with
      `z <= Clip(x) < z + 1` is the stored byte. */
  lemma QuantizeIsFloorOfClip(x: real, z: int)
    requires z as real <= Clip(x) < z as real + 1.0
    ensures Quantize(x) == z
  {
  }

  /** A byte converted to a real and quantised comes back unchanged. */
  lemma QuantizeByteRoundTrip(b: Byte)
    ensures Quantize(b as real) == b
  {
  }

  /** Quantising an already quantised value changes nothing. */
  lemma QuantizeIdempotent(x: real)
    ensures Quantize(Quantize(x) as real) == Quantize(x)
  {
    QuantizeByteRoundTrip(Quantize(x));
  }

  /** Quantisation preserves order. */
  lemma QuantizeMonotone(x: real, y: real)
    requires x <= y
    ensures Quantize(x) <= Quantize(y)
  {
    ClipMonotone(x, y);
  }

  /** No rounding: a value just below the next integer is still truncated. */
  lemma QuantizeTruncates()
    ensures Quantize(254.99) == 254
    ensures Quantize(0.5) == 0
    ensures Quantize(-3.7) == 0
    ensures Quantize(300.2) == 255
  {
  }
}
