/** One iteration of the page loop (pdf-compress.py:58-131): the render
    matrix is computed for every page, then the strategy decides what page
    is added to the output document. */
module Transcoder {
  import opened Wrappers
  import opened Settings
  import opened Strategy
  import opened Raster
  import opened TextOnly
  import opened Document

  /** What the document library offers about one input page: its rectangle,
      its text dictionary, its annotations and the renderer `get_pixmap`
      (opaque: the pixmap it returns for a zoom factor). */
  datatype SourcePage = SourcePage(
    rect: Rect,
    blocks: seq<Block>,
    annots: seq<AnnotId>,
    render: real -> Pixmap
  )

  /** The text of the exception `int / 0.0` raises. */
  const FloatDivisionByZero: string := "float division by zero"

  /** The page added for input page number `index`, or the exception raised. */
  function TranscodePage(s: Settings, fileSize: int, page: SourcePage, index: nat): (r: Result<OutPage>)
    requires Normalized(page.rect)
    ensures r.Err? <==>
      PreShrinkApplies(fileSize, page.rect, s.maxImageSize) && (page.rect.width == 0.0 || page.rect.height == 0.0)
    ensures r.Err? ==> r.message == FloatDivisionByZero
    ensures r.Ok? ==> r.value.rect == page.rect
    ensures r.Ok? && s.removeImages ==>
      r.value == OutPage(page.rect, TextRuns(PageOps(page.blocks)), [])
    ensures r.Ok? && !s.removeImages && s.quality < 100 ==>
      && r.value.annots == []
      && r.value.content.RasterImage?
      && r.value.content.pixmap == page.render(RenderZoom(fileSize, page.rect, s.maxImageSize, s.dpi).value)
      && r.value.content.plan == PlanJpeg(r.value.content.pixmap, s.maxImageSize, s.quality)
    ensures r.Ok? && !s.removeImages && s.quality >= 100 ==>
      r.value == OutPage(page.rect, CopiedPage(index), page.annots)
  {
    match RenderZoom(fileSize, page.rect, s.maxImageSize, s.dpi)
    case None => Err(FloatDivisionByZero)
    case Some(zoom) =>
      match ChooseStrategy(s.removeImages, s.quality)
      case RasterRecompress =>
        var pix := page.render(zoom);
        Ok(OutPage(page.rect, RasterImage(pix, PlanJpeg(pix, s.maxImageSize, s.quality)), []))
      case TextOnly =>
        Ok(OutPage(page.rect, TextRuns(PageOps(page.blocks)), []))
      case VerbatimCopy =>
        Ok(OutPage(page.rect, CopiedPage(index), page.annots))
  }

  /** Pages that are not copied verbatim come without annotations, so the
      annotation pass only has work on copied pages. */
  lemma OnlyCopiedPagesKeepAnnotations(s: Settings, fileSize: int, page: SourcePage, index: nat)
    requires Normalized(page.rect)
    requires TranscodePage(s, fileSize, page, index).Ok?
    ensures TranscodePage(s, fileSize, page, index).value.annots != [] ==>
      ChooseStrategy(s.removeImages, s.quality) == VerbatimCopy
  {
  }

  /** The same step on the output document, as the worker performs it. */
  method TranscodeInto(doc: OutputDocument, s: Settings, fileSize: int, page: SourcePage, index: nat)
    returns (error: Option<string>)
    requires Normalized(page.rect)
    modifies doc
    ensures error.Some? <==> TranscodePage(s, fileSize, page, index).Err?
    ensures error.Some? ==> error.value == TranscodePage(s, fileSize, page, index).message && doc.pages == old(doc.pages)
    ensures error.None? ==> doc.pages == old(doc.pages) + [TranscodePage(s, fileSize, page, index).value]
  {
    var zoom := RenderZoom(fileSize, page.rect, s.maxImageSize, s.dpi);
    if zoom.None? {
      return Some(FloatDivisionByZero);
    }
    if !s.removeImages && s.quality < 100 {
      var pix := page.render(zoom.value);
      var plan := PlanJpeg(pix, s.maxImageSize, s.quality);
      doc.NewPage(page.rect, RasterImage(pix, plan));
    } else if s.removeImages {
      var ops := WalkSpans(page.blocks);
      doc.NewPage(page.rect, TextRuns(ops));
    } else {
      doc.InsertPdfPage(page.rect, index, page.annots);
    }
    error := None;
  }
}
