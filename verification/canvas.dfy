/**
 * An `image.RGBA` whose bounds start at (0, 0): a width x height array of
 * colours indexed [x, y].
 */
module Canvas {
  import opened Colors

  /** The pixel (px, py) is inside the image. */
  predicate InImage(img: array2<RGBA>, px: int, py: int) {
    0 <= px < img.Length0 && 0 <= py < img.Length1
  }

  /** `image.RGBA.Set`: a pixel inside the image takes the colour; outside, nothing happens. */
  method Set(img: array2<RGBA>, x: int, y: int, col: RGBA)
    modifies img
    ensures forall px, py :: InImage(img, px, py) ==>
      img[px, py] == if px == x && py == y then col else old(img[px, py])
  {
    if 0 <= x < img.Length0 && 0 <= y < img.Length1 {
      img[x, y] := col;
    }
  }
}
