/** The parameters a compression job is started with (the constructor
    arguments of the worker thread, pdf-compress.py:22-33). */
module Settings {

  datatype Settings = Settings(
    quality: int,            // JPEG quality
    dpi: int,                // rendering resolution
    removeImages: bool,
    removeAnnotations: bool,
    compressFonts: bool,
    maxImageSize: int,       // the longest raster side allowed, in pixels
    compressionLevel: int    // index of the level combo box: 0 max, 1 high, 2 normal
  )

  /** The worker validates nothing; the only values that reach it are those
      the dialog can produce: quality slider 10-95, five dpi presets, five
      size presets and a three-entry combo index. */
  predicate FromDialog(s: Settings) {
    && 10 <= s.quality <= 95
    && s.dpi in {72, 96, 150, 200, 300}
    && s.maxImageSize in {800, 1200, 1600, 2000, 2800}
    && 0 <= s.compressionLevel <= 2
  }
}
