/** Decoded images and the blank image the datasets use when loading fails. */
module Images {
  /** The side and the channel count of the blank image. */
  const FallbackSide: nat := 224
  const FallbackChannels: nat := 3

  /** A decoded image: its shape and its pixel values in row-major order. */
  datatype Image = Image(height: nat, width: nat, channels: nat, pixels: seq<int>)

  /** The 224 x 224 x 3 all-zero image. */
  function ZeroImage(): (img: Image)
    ensures img.height == FallbackSide && img.width == FallbackSide && img.channels == FallbackChannels
    ensures |img.pixels| == FallbackSide * FallbackSide * FallbackChannels
    ensures forall k :: 0 <= k < |img.pixels| ==> img.pixels[k] == 0
  {
    Image(FallbackSide, FallbackSide, FallbackChannels, seq(FallbackSide * FallbackSide * FallbackChannels, _ => 0))
  }
}
