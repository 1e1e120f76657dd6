/** The keyword arguments of the final `save` call, chosen by the
    compression level (pdf-compress.py:153-179). */
module SaveProfile {
  import opened Wrappers

  /** `None` stands for a key the worker leaves out of its dictionary, so
      that the document library's own default applies. */
  datatype SaveOptions = SaveOptions(
    garbage: int,
    clean: bool,
    deflate: bool,
    deflateImages: bool,
    deflateFonts: bool,
    linear: Option<bool>,
    pretty: Option<bool>
  )

  /** Level 0 (maximum), level 1 (high) and every other level (normal). */
  function SaveProfileFor(level: int, compressFonts: bool): (o: SaveOptions)
    ensures o.clean && o.deflate && o.deflateImages
    ensures level == 0 ==>
      o.garbage == 4 && o.deflateFonts && o.linear == Some(true) && o.pretty == Some(false)
    ensures level == 1 ==>
      o.garbage == 3 && o.deflateFonts == compressFonts && o.linear == Some(false) && o.pretty == None
    ensures level != 0 && level != 1 ==>
      o.garbage == 1 && o.deflateFonts == compressFonts && o.linear == None && o.pretty == None
  {
    if level == 0 then
      SaveOptions(4, true, true, true, true, Some(true), Some(false))
    else if level == 1 then
      SaveOptions(3, true, true, true, compressFonts, Some(false), None)
    else
      SaveOptions(1, true, true, true, compressFonts, None, None)
  }

  /** Only the maximum level ignores the font checkbox. */
  lemma FontFlagMattersBelowMaximum(level: int)
    ensures SaveProfileFor(level, true) == SaveProfileFor(level, false) <==> level == 0
  {
  }

  /** The object clean-up gets weaker from level to level, and the maximum
      level is the only one that asks for a linearised file. */
  lemma GarbageDecreasesWithLevel(level: int, compressFonts: bool)
    requires 0 <= level < 2
    ensures SaveProfileFor(level, compressFonts).garbage > SaveProfileFor(level + 1, compressFonts).garbage
    ensures SaveProfileFor(level, compressFonts).linear == Some(true) <==> level == 0
  {
  }
}
