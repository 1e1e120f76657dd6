/** The choice, per page, between re-rasterising, keeping the text only and
    copying the page as it is (pdf-compress.py:74, 114, 129). */
module Strategy {
  import opened Settings

  datatype PageStrategy = RasterRecompress | TextOnly | VerbatimCopy

  /** The three branches in the order the worker tests them: the raster test
      comes first, yet `removeImages` still wins whatever the quality. */
  function ChooseStrategy(removeImages: bool, quality: int): (r: PageStrategy)
    ensures r == TextOnly <==> removeImages
    ensures r == RasterRecompress <==> !removeImages && quality < 100
    ensures r == VerbatimCopy <==> !removeImages && quality >= 100
  {
    if !removeImages && quality < 100 then RasterRecompress
    else if removeImages then TextOnly
    else VerbatimCopy
  }

  /** With the dialog's 10-95 slider the verbatim branch is dead code. */
  lemma DialogNeverCopiesVerbatim(s: Settings)
    requires FromDialog(s)
    ensures ChooseStrategy(s.removeImages, s.quality) != VerbatimCopy
    ensures ChooseStrategy(s.removeImages, s.quality) == (if s.removeImages then TextOnly else RasterRecompress)
  {
  }
}
