# pdf-compress: the compression worker, modelled and proved in Dafny

`pdf-compress.py` is a desktop tool that shrinks PDF files. Its GUI collects a
list of input files, an output folder and a handful of settings, then starts
a worker thread, `PDFCompressorThread`. The worker's `run` handles the files
one after another:

- It logs the file's name and size.
- It opens the file and builds a new document page by page, choosing one of
  three strategies per page:
  - re-rasterise the page to JPEG;
  - keep only its text spans;
  - copy it verbatim.
- It optionally strips annotations.
- It saves under `<folder>/<stem>_compressed.pdf` with options chosen by the
  compression level.
- It reports the sizes and the reduction, and emits progress values along
  the way.

The first exception ends the job with one failure signal. Otherwise one
success signal follows the last file.

This project models that worker, together with `format_size`, and proves
what it promises. The model has these parts:

- The per-page decisions, all functions:
  - the strategy;
  - the render matrix with its pre-shrink for large files;
  - the JPEG plan;
  - the text walk;
  - the save options;
  - the output path.
- Progress arithmetic and size formatting. `FormatSize` renders
  `format_size`'s loop as a `while` loop, proved against a function.
- The output document, a class whose pages are a `seq` field. The
  annotation removal is the source's `while annot:` loop.
- The worker itself, a class with `events` (everything emitted on the three
  signals) and `written` (the output folder), updated in place by methods
  that mirror the nested loops of `run`.
- Every method is proved against a job model, `Compressor.FileRun` /
  `Compressor.JobEvents`. The module `JobProperties` then proves the job
  model's properties:
  - the files are handled in order;
  - exactly one completion signal comes, at the end;
  - which exception ends a file, and whether its output is still written;
  - what a written file holds;
  - success iff every file succeeds.

Everything the libraries or the operating system decide is an input of the
model. That covers page rectangles, text dictionaries, annotations, rendered
pixmaps, file sizes, and which library call raises with which text. A
`SourceFile` carries it all.

Modules:

- `Wrappers`: Option and Result.
- `Settings`: the thread's parameters.
- `Strategy`: the per-page branch.
- `Raster`: render matrix and JPEG plan.
- `TextOnly`: the text-dictionary walk.
- `Document`: the output document.
- `Transcoder`: one page.
- `SaveProfile`: save options.
- `Paths`: output file name.
- `Progress`: progress values.
- `SizeReport`: `format_size` and the reduction.
- `Compressor`: the job model and the worker class.
- `JobProperties`: the job's properties.

What the code does, though one might expect otherwise:

- The worker validates none of its settings, and the model requires nothing
  of them. Only the dialog restricts them (`Settings.FromDialog`).
- The text branch places each span at the top-left corner of its bounding
  box, not at its baseline origin.
- The stream of progress values is not non-decreasing. It can drop at a
  file boundary. With three files, a one-page first file reports 50 for its
  page and 33 at its end, and the first page of a hundred-page second file
  reports 16 (`Progress.ProgressDropsAtFileBoundaries`).
- Annotation removal reads the successor of an annotation before deleting
  it. It does not take a snapshot of the page's annotations first.

## Model

| member | source | states |
|---|---|---|
| Strategy.ChooseStrategy | pdf-compress.py:74-131 | the page is rasterised iff images are kept and quality < 100; text-only iff images are removed; copied iff images are kept and quality >= 100 |
| Strategy.DialogNeverCopiesVerbatim | pdf-compress.py:331 | with the dialog's quality range the verbatim branch is never taken |
| Raster.CandidateFactors | pdf-compress.py:64-66 | of max/width and max/height one shrinks, both are positive for a positive bound, and the smaller keeps both sides within the bound |
| Raster.ShrinkFactor | pdf-compress.py:65-66 | the pre-shrink factor is below 1 (and positive for a positive bound), brings both page sides within the bound and makes one of them meet it |
| Raster.RenderZoom | pdf-compress.py:61-71 | zoom is dpi/72 unless a file over 30 MB has an oversized page, then dpi/72 times the shrink factor; a zero side then raises; the shrunk zoom keeps the page within bound·dpi/72 |
| Raster.JpegMode | pdf-compress.py:89-90 | only RGBA is converted, to RGB; every other mode is kept |
| Raster.PlanJpeg | pdf-compress.py:79-94 | a pixmap over the bound on either side goes through a thumbnail of the bound with optimize, its RGBA mode converted to RGB and every other mode kept; otherwise through the pixmap's JPEG writer; both with the set quality |
| TextOnly.TextBlocksOnly | pdf-compress.py:120 | the kept blocks are exactly the blocks with lines, and they hold the same spans in the same order |
| TextOnly.FlatMapAppend | pdf-compress.py:119-122 | the walk over two block lists is the walk over each, concatenated |
| TextOnly.SpanOpsOfSpans | pdf-compress.py:122-128 | one line yields one call per span, in order |
| TextOnly.OpsOfAppend | pdf-compress.py:119-128 | calls-per-span correspondence is preserved by concatenation |
| TextOnly.LinesOpsOfSpans | pdf-compress.py:121-128 | the lines of a block yield one call per span of theirs, in order |
| TextOnly.PageOpsOfSpans | pdf-compress.py:119-128 | a page yields one call per span of its text blocks, in order |
| TextOnly.PageOpsAreSpanOps | pdf-compress.py:119-128 | each call of the page is at its span's box top-left, with its text and size, in black |
| TextOnly.ImageBlocksContributeNothing | pdf-compress.py:120 | blocks without lines contribute no calls |
| TextOnly.FlatMapSnoc | pdf-compress.py:119-122 | one more block, line or span adds its own calls at the end |
| TextOnly.WalkLine | pdf-compress.py:122-128 | the span loop of one line makes exactly the line's calls |
| TextOnly.WalkBlock | pdf-compress.py:120-128 | the line loop of one block makes its calls; an image block makes none |
| TextOnly.WalkSpans | pdf-compress.py:118-128 | the nested loops over the text dictionary make exactly the page's calls |
| Document.IndexOf | pdf-compress.py:144 | the first position of an annotation in a page's link order |
| Document.WithoutAnnots | pdf-compress.py:140-146 | same number of pages, each with its rectangle and content and no annotations |
| Document.OutputDocument.constructor | pdf-compress.py:53 | a new document has no pages |
| Document.OutputDocument.NewPage | pdf-compress.py:102-103 | a fresh page, without annotations, is appended |
| Document.OutputDocument.InsertPdfPage | pdf-compress.py:131 | the copied page is appended with its annotations |
| Document.OutputDocument.DeleteAnnot | pdf-compress.py:145 | only that annotation leaves only that page |
| Document.OutputDocument.RemovePageAnnots | pdf-compress.py:142-146 | the loop deletes each annotation of the page once, in link order, and leaves every other page as it was |
| Document.OutputDocument.RemoveAnnots | pdf-compress.py:140-146 | every page keeps its rectangle and content and loses its annotations |
| Transcoder.TranscodePage | pdf-compress.py:58-131 | by strategy: the rendered pixmap and its JPEG plan, the page's text calls, or the copied page with its annotations; always the page's rectangle; the zero-side pre-shrink raises "float division by zero" |
| Transcoder.OnlyCopiedPagesKeepAnnotations | pdf-compress.py:102-131 | only a verbatim copy brings annotations into the output |
| Transcoder.TranscodeInto | pdf-compress.py:58-131 | the page loop body on the document appends exactly the page the function describes, or leaves it unchanged and returns the exception |
| SaveProfile.SaveProfileFor | pdf-compress.py:153-179 | level 0: garbage 4, fonts deflated, linear, not pretty; level 1: garbage 3, fonts as set, not linear; other levels: garbage 1, fonts as set, no linear/pretty keys; always clean and deflate |
| SaveProfile.FontFlagMattersBelowMaximum | pdf-compress.py:153-179 | the font checkbox changes the options iff the level is not 0 |
| SaveProfile.GarbageDecreasesWithLevel | pdf-compress.py:153-179 | garbage collection weakens from level to level; only level 0 linearises |
| Paths.RFind | pdf-compress.py:149 | the last index of a character, or -1 |
| Paths.RFindSkips | pdf-compress.py:149 | characters other than the searched one appended at the end do not move its last index |
| Paths.Basename | pdf-compress.py:149 | the longest separator-free suffix of the path |
| Paths.Splitext | pdf-compress.py:149 | stem + extension is the name; the extension is empty or runs from the last dot, which is not preceded only by dots |
| Paths.Join | pdf-compress.py:150 | a separator is inserted iff the folder is non-empty and does not end in one |
| Paths.StemHasNoSep | pdf-compress.py:149-150 | the output file name has no separator |
| Paths.BasenameAfterSep | pdf-compress.py:149 | the base name of dir/name is name |
| Paths.OutputPathIsInFolder | pdf-compress.py:149-150 | the output lies directly in the folder and is named stem + "_compressed.pdf" |
| Paths.ExampleSplitext | pdf-compress.py:149 | only the last extension is removed; a lone leading dot starts no extension |
| Paths.SameBasenameSameOutput | pdf-compress.py:149-150 | inputs with the same base name overwrite the same output |
| Progress.Min | pdf-compress.py:137 | the cap is one of the two values and below both |
| Progress.FileShareBounds | pdf-compress.py:202 | the end-of-file value lies in 0..100 and reaches 100 only after the last file |
| Progress.PageProgress | pdf-compress.py:134-137 | a per-page value lies in 0..95 and at least at the files' share, which is at most 49 |
| Progress.PageProgressMonotone | pdf-compress.py:134-137 | within a file the per-page values never go down |
| Progress.LastPageReachesHalf | pdf-compress.py:134-137 | the last page of a file reports at least 50 |
| Progress.FileProgress | pdf-compress.py:202-203 | the end-of-file value lies in 0..100 and is 100 iff the file is the last |
| Progress.FileProgressMonotone | pdf-compress.py:202-203 | end-of-file values never go down from one file to the next |
| Progress.ProgressDropsAtFileBoundaries | pdf-compress.py:134-137 | with three files the stream goes 50, 33, 16: it is not monotone |
| SizeReport.UnitIndexFrom | pdf-compress.py:212-216 | the unit index is the first whose threshold the size is below, or TB |
| SizeReport.UnitIndex | pdf-compress.py:212-216 | the size is below the chosen unit's threshold and at or above all earlier ones |
| SizeReport.UnitIndexUnique | pdf-compress.py:212-216 | the unit is determined by those thresholds |
| SizeReport.SizeTextOf | pdf-compress.py:210-216 | the printed value times the unit's power of 1024 is the size |
| SizeReport.FormatSize | pdf-compress.py:210-216 | the divide-by-1024 loop returns the unit the thresholds pick and the size counted in that unit |
| SizeReport.FormatSizeText | pdf-compress.py:210-216 | the unit and the scaled value determine the text |
| SizeReport.RatioAgainstOne | pdf-compress.py:193 | compressed/original is below 1 iff the output is smaller, 1 iff equal |
| SizeReport.Reduction | pdf-compress.py:193 | the reduction raises iff the original is empty; otherwise it is positive iff the output is smaller, zero iff equal, negative iff larger, and at most 100 |
| Compressor.FaultAt | pdf-compress.py:42-192 | a library fault is reported at exactly its own stage |
| Compressor.Install | pdf-compress.py:181 | a saved file replaces the one of the same name and leaves the others |
| Compressor.OutcomesExist | pdf-compress.py:35-208 | every job has a sequence of per-file outcomes |
| Compressor.OutcomesUnique | pdf-compress.py:35-208 | and only one |
| Compressor.PagesLoopStops | pdf-compress.py:57-137 | after an exception the page loop adds nothing more |
| Compressor.JobRunStops | pdf-compress.py:36-38 | after an exception the job starts no further file |
| Compressor.CompressorThread.constructor | pdf-compress.py:22-33 | the thread holds its files, folder and settings, and has emitted nothing |
| Compressor.CompressorThread.OpenFile | pdf-compress.py:39-50 | the name line, the size line, the large-file notice above 50 MB, or the exception of getsize or open |
| Compressor.CompressorThread.ProcessPage | pdf-compress.py:58-137 | page p is either added with its progress value or the exception is returned with nothing changed |
| Compressor.CompressorThread.ProcessPages | pdf-compress.py:56-137 | the page loop emits the progress and builds the pages of the page-loop model, stopping at the first exception |
| Compressor.CompressorThread.LoadPages | pdf-compress.py:50-137 | the page-count line, then the page loop |
| Compressor.CompressorThread.Save | pdf-compress.py:140-181 | the document loses its annotations when asked and is otherwise unchanged; it is saved at the output path with the level's options, or the save's exception is returned |
| Compressor.CompressorThread.Report | pdf-compress.py:184-203 | after closing, the summary and the end-of-file progress, or the division by zero of an empty original |
| Compressor.CompressorThread.LogSummary | pdf-compress.py:195-203 | the completion line, both sizes, the reduction, the separator, then the end-of-file progress |
| Compressor.CompressorThread.SaveAndReport | pdf-compress.py:140-203 | the save installs the file in the folder before the report can raise; the document only loses its annotations, when asked |
| Compressor.CompressorThread.ProcessLoaded | pdf-compress.py:50-203 | one open file, as the file model says |
| Compressor.CompressorThread.ProcessFile | pdf-compress.py:39-203 | the loop body for one file emits and writes exactly what its outcome says |
| Compressor.CompressorThread.Run | pdf-compress.py:35-208 | the events are the job's events, completion signal included, and the folder holds what the job wrote |
| JobProperties.QuietAppend | pdf-compress.py:35-208 | no completion signal and bounded progress survive concatenation |
| JobProperties.NamesAppend | pdf-compress.py:39 | the names of two event runs are concatenated |
| JobProperties.NamesOfOthers | pdf-compress.py:39 | events without a processing line name no file |
| JobProperties.LoopLengths | pdf-compress.py:57-137 | one progress value per page added; all pages when none raised |
| JobProperties.LoopOut | pdf-compress.py:57-137 | page k of the output is the result of input page k, with progress value k |
| JobProperties.LoopFinishes | pdf-compress.py:57-137 | the page loop finishes iff no page raises |
| JobProperties.LoopError | pdf-compress.py:57-137 | the loop's exception is that of the page right after the pages added |
| JobProperties.PageStepMeaning | pdf-compress.py:58-131 | a page succeeds iff no library fault fires on it and it transcodes; the library's exception comes first |
| JobProperties.PagesRunSpec | pdf-compress.py:56-137 | the page loop of a file: the pages before the first exception, in order, with their progress values, and that exception |
| JobProperties.PagesFinish | pdf-compress.py:56-137 | the page loop completes iff no page fault fires and no page has a zero side under the pre-shrink |
| JobProperties.NamesOfProcessing | pdf-compress.py:39 | a processing line names exactly its file |
| JobProperties.OpeningEventsFacts | pdf-compress.py:39-46 | once getsize returns, the file's name comes first and the size lines after it name no file and carry no completion signal |
| JobProperties.OpeningRunFacts | pdf-compress.py:39-50 | the first event names the file; nothing is written; the exception is that of getsize or open |
| JobProperties.OpeningRunFaults | pdf-compress.py:39-49 | getsize or fitz.open raises exactly when its fault fires, with that fault's text, and nothing is written |
| JobProperties.OpenedFileRun | pdf-compress.py:49-203 | once the file is open, its exception and its written file are those of the rest of the run |
| JobProperties.ReportRunFacts | pdf-compress.py:184-203 | the report ends with the end-of-file progress iff closing does not raise and the original is non-empty; otherwise it emits nothing and raises the closing fault, or the division by zero |
| JobProperties.SaveRunFacts | pdf-compress.py:140-203 | the file is written iff save does not raise, and with the output of the pages; a raised exception is save's, then closing's, then the division by zero, and emits nothing after the save |
| JobProperties.PageLoopEvents | pdf-compress.py:50-137 | the page count and page progress hold no completion signal, no file name and only values in 0..100 |
| JobProperties.LoadedRunEvents | pdf-compress.py:50-203 | an open file's events name no file and end with its progress when it succeeds |
| JobProperties.LoadedRunResult | pdf-compress.py:50-203 | an open file is written iff its pages finish and save does not raise; the page loop's exception ends it first (a page's library fault, or the zero-side division), then save's, then closing's, then the division by zero of an empty original |
| JobProperties.FileRunEvents | pdf-compress.py:39-203 | a file's events start with its name, name only it and emit no completion signal |
| JobProperties.FileRunSucceeds | pdf-compress.py:39-203 | a file succeeds iff no library call raises, its original is non-empty and every page transcodes; it then ends on its progress value |
| JobProperties.OpenedFileEndsOnProgress | pdf-compress.py:195-203 | an opened file that succeeds ends on its end-of-file progress value |
| JobProperties.FileRunFaults | pdf-compress.py:39-203 | which exception ends a file: getsize's or open's, else the page loop's (a page's library fault, or the zero-side division, which comes before a save or closing fault), else save's or closing's, else the division by zero of an empty original; it is written iff its pages finish and the only fault, if any, comes after the save |
| JobProperties.OutputFacts | pdf-compress.py:140-181 | what save is given: the output path, the level's options, the pages with or without annotations |
| JobProperties.SavedPagesAreTranscoded | pdf-compress.py:56-181 | a written file holds one page per input page, each as its strategy made it, stripped when asked, saved with the level's options |
| JobProperties.WrittenIsOutput | pdf-compress.py:56-181 | a file is written only from a finished page loop |
| JobProperties.CompletedPagesAreTranscoded | pdf-compress.py:56-137 | a finished page loop holds every page as the strategy made it |
| JobProperties.FirstFailure | pdf-compress.py:36-208 | the first file that raised, or the number of files |
| JobProperties.Started | pdf-compress.py:36-208 | the files before the first exception, plus the one that raised |
| JobProperties.JobRunBeforeFailure | pdf-compress.py:36-203 | before the first exception the job is the files' events in order |
| JobProperties.JobEventsSpec | pdf-compress.py:35-208 | all a job emits: the events of the files it starts, then success, or failure with the first exception's text |
| JobProperties.AllEventsQuiet | pdf-compress.py:36-203 | the files' events together hold no completion signal |
| JobProperties.AllEventsNames | pdf-compress.py:38-39 | the names logged by the files in order are their names in order |
| JobProperties.FinishedOnceAtEnd | pdf-compress.py:35-208 | the completion signal is the job's last event and its only one; every progress value lies in 0..100 |
| JobProperties.JobNames | pdf-compress.py:35-208 | a job logs the names of exactly the files it starts |
| JobProperties.ProcessedInOrder | pdf-compress.py:35-208 | files are handled in input order and none after the first that raised |
| JobProperties.SucceedsIffEveryFileDoes | pdf-compress.py:35-208 | the job signals success iff every file succeeds |
| JobProperties.SuccessEndsAtHundred | pdf-compress.py:202-205 | a successful job reports 100 just before the success signal |

## Left out

- The GUI, the Qt signals as a transport, and threading. Emitting a signal
  is modelled as appending to `events`.
- The document and imaging libraries' internals are inputs or plans:
  - rendering, PNG/JPEG encoding, the LANCZOS thumbnail;
  - `insert_image`, `insert_text`, `insert_pdf`, `save`.
  The model records what is handed to them, not the bytes they produce.
- Temporary files (`tempfile`, `os.unlink`) and `gc.collect` are left out.
  They have no effect on what is emitted or written. An exception from
  them at lines 184-192 is the `Closing` stage.
- Exceptions from the libraries and the file system are an input of the
  model (`SourceFile.fault`), with their text. At most one is modelled per
  file.
- Exceptions the code raises itself are derived by the model, not given as
  input:
  - the float division by zero of the pre-shrink on a zero-sided page;
  - the integer division by zero of the reduction on an empty original.
- The size read at line 42 and the one read again at line 191 are taken to
  be the same value, `SourceFile.size`.
- Progress: the source truncates a floating-point product, and the model
  uses exact integer floor division instead. The two can differ where
  float rounding lands just below an integer.
- Floating-point formatting (`:.1f`) of sizes and of the reduction is left
  out. Sizes and the reduction are exact rationals.
- Paths use the POSIX rules of `os.path`: no drive letters and no
  backslashes.
- The settings are taken as the worker receives them, with no
  restriction. `Settings.FromDialog` describes what the dialog can produce.
  It is used only to show that the verbatim branch is dead there.
