/**
 * The canvas's backing pixel buffer and the one operation the editor
 * performs on it: drawing a rectangular region of one bitmap onto a fresh
 * bitmap of the region's size (the crop's `drawImage` calls).
 */
module Bitmap {

  /** A pixel as packed 8-bit RGBA. */
  newtype Pixel = x: int | 0 <= x < 0x1_0000_0000

  /** What a freshly sized canvas holds, and what a copy takes from outside its source. */
  const Transparent: Pixel := 0

  /** The pixel drawImage reads from img at column x, row y: the bitmap's
      pixel inside it, transparent outside it, where there is nothing to copy. */
  function At(img: array2<Pixel>, x: int, y: int): Pixel
    reads img
  {
    if 0 <= x < img.Length0 && 0 <= y < img.Length1 then img[x, y] else Transparent
  }

  /**
   * A new bitmap of width w and height h whose pixel (i, j) is the pixel of
   * src at (x0 + i, y0 + j): src's region drawn at the origin of a freshly
   * sized canvas. The source is not changed.
   */
  method CopyRegion(src: array2<Pixel>, x0: int, y0: int, w: nat, h: nat) returns (dst: array2<Pixel>)
    ensures fresh(dst)
    ensures dst.Length0 == w && dst.Length1 == h
    ensures forall i, j :: 0 <= i < w && 0 <= j < h ==> dst[i, j] == At(src, x0 + i, y0 + j)
  {
    dst := new Pixel[w, h]((i, j) reads src => At(src, x0 + i, y0 + j));
  }

  /** A region that lies inside src is copied from src's own pixels, with no transparent padding. */
  lemma RegionInsideReadsSource(src: array2<Pixel>, x0: int, y0: int, w: nat, h: nat)
    requires 0 <= x0 && x0 + w <= src.Length0 && 0 <= y0 && y0 + h <= src.Length1
    ensures forall x, y :: x0 <= x < x0 + w && y0 <= y < y0 + h ==> At(src, x, y) == src[x, y]
  {
  }

  /** Bitmaps a and b have the same size and the same pixels. */
  ghost predicate SamePixels(a: array2<Pixel>, b: array2<Pixel>)
    reads a, b
  {
    a.Length0 == b.Length0 && a.Length1 == b.Length1 &&
    forall i, j :: 0 <= i < a.Length0 && 0 <= j < a.Length1 ==> a[i, j] == b[i, j]
  }

  /** A new bitmap of src's size holding src's pixels (drawImage(src, 0, 0) onto a canvas of src's size). */
  method Copy(src: array2<Pixel>) returns (dst: array2<Pixel>)
    ensures fresh(dst)
    ensures SamePixels(dst, src)
  {
    dst := CopyRegion(src, 0, 0, src.Length0, src.Length1);
  }
}
