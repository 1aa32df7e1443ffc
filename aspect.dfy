/**
 * The aspect-ratio rule used when an image becomes a layout leaf: the ratio
 * is width over height, and a zero height yields 1.0 instead of a division.
 * Pixel sizes are non-negative integers; `real` stands for `double`.
 */
module Aspect {

  /** Width over height of a `width` x `height` image, guarded against a zero height. */
  function WidthOverHeight(width: nat, height: nat): (r: real)
    ensures height > 0 ==> r * (height as real) == width as real
    ensures height == 0 ==> r == 1.0
    ensures r >= 0.0
  {
    if height > 0 then width as real / height as real else 1.0
  }
}
