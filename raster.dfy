/** The sizing decisions of the raster branch: the render matrix, with its
    pre-shrink for large files (pdf-compress.py:61-71), and the choice
    between the pixmap's own JPEG writer and a thumbnail through the image
    library (pdf-compress.py:79-94). Sizes are exact rationals. */
module Raster {
  import opened Wrappers

  /** Files above this many bytes get the pre-shrunk render matrix. */
  const LargeFileBytes: int := 30 * 1024 * 1024
  /** Files above this many bytes get an extra log line, nothing else. */
  const HugeFileBytes: int := 50 * 1024 * 1024

  /** A page rectangle, in points. */
  datatype Rect = Rect(width: real, height: real)

  /** The page rectangles the document library hands out are normalised. */
  predicate Normalized(r: Rect) {
    r.width >= 0.0 && r.height >= 0.0
  }

  predicate Oversized(r: Rect, maxSize: int) {
    r.width > maxSize as real || r.height > maxSize as real
  }

  predicate PreShrinkApplies(fileSize: int, page: Rect, maxSize: int) {
    fileSize > LargeFileBytes && Oversized(page, maxSize)
  }

  /** Multiplying by a positive side keeps the order. */
  lemma MulRight(a: real, b: real, w: real)
    requires w > 0.0
    ensures a <= b ==> a * w <= b * w
    ensures a < b ==> a * w < b * w
  {
  }

  /** The two candidate factors `sw = m/w` and `sh = m/h` of a page with a
      side above `m`: one of them shrinks, both are positive for a positive
      `m`, and the smaller keeps both sides within `m`. */
  lemma CandidateFactors(m: real, w: real, h: real, sw: real, sh: real)
    requires w > 0.0 && h > 0.0 && sw * w == m && sh * h == m
    requires w > m || h > m
    ensures sw < 1.0 || sh < 1.0
    ensures m > 0.0 ==> sw > 0.0 && sh > 0.0
    ensures sh <= sw ==> sh * w <= m
    ensures sw <= sh ==> sw * h <= m
  {
    MulRight(1.0, sw, w);
    MulRight(1.0, sh, h);
    MulRight(sw, 0.0, w);
    MulRight(sh, 0.0, h);
    MulRight(sh, sw, w);
    MulRight(sw, sh, h);
  }

  /** `min(max/width, max/height)`: the largest factor that brings both sides
      of an oversized page within `maxSize`; it always shrinks. */
  function ShrinkFactor(page: Rect, maxSize: int): (s: real)
    requires page.width > 0.0 && page.height > 0.0
    requires Oversized(page, maxSize)
    ensures s < 1.0
    ensures maxSize > 0 ==> 0.0 < s
    ensures s * page.width <= maxSize as real && s * page.height <= maxSize as real
    ensures s * page.width == maxSize as real || s * page.height == maxSize as real
  {
    var m := maxSize as real;
    var sw, sh := m / page.width, m / page.height;
    CandidateFactors(m, page.width, page.height, sw, sh);
    if sh < sw then sh else sw
  }

  /** The diagonal of the render matrix, `dpi/72` scaled by the shrink factor
      when a large file has an oversized page. `None` is the division by zero
      the pre-shrink raises on a page with a zero side. */
  function RenderZoom(fileSize: int, page: Rect, maxSize: int, dpi: int): (r: Option<real>)
    requires Normalized(page)
    ensures r.None? <==> PreShrinkApplies(fileSize, page, maxSize) && (page.width == 0.0 || page.height == 0.0)
    ensures r.Some? && !PreShrinkApplies(fileSize, page, maxSize) ==> r.value == dpi as real / 72.0
    ensures r.Some? && PreShrinkApplies(fileSize, page, maxSize) ==>
      r.value == ShrinkFactor(page, maxSize) * dpi as real / 72.0
    ensures r.Some? && PreShrinkApplies(fileSize, page, maxSize) && dpi > 0 ==>
      && r.value < dpi as real / 72.0
      && r.value * page.width <= maxSize as real * dpi as real / 72.0
      && r.value * page.height <= maxSize as real * dpi as real / 72.0
  {
    if PreShrinkApplies(fileSize, page, maxSize) then
      if page.width == 0.0 || page.height == 0.0 then None
      else
        var s := ShrinkFactor(page, maxSize);
        var z := dpi as real / 72.0;
        assert s * z * page.width == (s * page.width) * z;
        assert s * z * page.height == (s * page.height) * z;
        Some(s * dpi as real / 72.0)
    else Some(dpi as real / 72.0)
  }

  /** Channel layout of a pixmap, named as the image library names the mode
      of its PNG rendering. */
  datatype ImageMode = Gray | GrayAlpha | RGB | RGBA

  /** What the document library's renderer returns; the samples are opaque. */
  datatype Pixmap = Pixmap(width: nat, height: nat, mode: ImageMode)

  /** Only RGBA is flattened to RGB before the JPEG writer. */
  function JpegMode(m: ImageMode): (r: ImageMode)
    ensures r != RGBA
    ensures m != RGBA ==> r == m
    ensures m == RGBA ==> r == RGB
  {
    if m == RGBA then RGB else m
  }

  /** The encoding request a page raster leads to. The encoders themselves
      (the pixmap's JPEG writer, the image library's LANCZOS thumbnail and its
      JPEG writer) are not modelled: the plan records what is handed to them. */
  datatype JpegPlan =
    | PixmapJpeg(quality: int)
      /** PNG round trip into the image library, `thumbnail((box, box))`,
          conversion to `mode`, then JPEG with `optimize`. */
    | ThumbnailJpeg(box: int, mode: ImageMode, quality: int, optimize: bool)

  predicate NeedsThumbnail(pix: Pixmap, maxSize: int) {
    pix.width > maxSize || pix.height > maxSize
  }

  function PlanJpeg(pix: Pixmap, maxSize: int, quality: int): (plan: JpegPlan)
    ensures plan.ThumbnailJpeg? <==> pix.width > maxSize || pix.height > maxSize
    ensures plan.quality == quality
    ensures plan.ThumbnailJpeg? ==>
      plan.box == maxSize && plan.optimize && plan.mode == JpegMode(pix.mode)
  {
    if NeedsThumbnail(pix, maxSize) then ThumbnailJpeg(maxSize, JpegMode(pix.mode), quality, true)
    else PixmapJpeg(quality)
  }
}
