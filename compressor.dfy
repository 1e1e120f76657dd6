/** The worker's `run` (pdf-compress.py:35-208): files one after another,
    pages one after another, every event it emits appended to a sequence.
    What the document library and the file system do is an input: each
    source file says what its pages look like, what size the saved file has
    and, if a library call raises, at which stage and with which text. */
module Compressor {
  import opened Wrappers
  import opened Settings
  import opened Raster
  import opened Progress
  import opened Document
  import opened Transcoder
  import opened SaveProfile
  import opened Paths
  import opened SizeReport

  /** The log lines of one file, in the order they are emitted. */
  datatype LogLine =
    | Processing(name: string)            // "İşleniyor: <base name>"
    | FileSize(size: SizeText)            // "Dosya boyutu: ..."
    | LargeFileNotice                     // the notice for files over 50 MB
    | PageCount(count: nat)               // "Toplam sayfa sayısı: ..."
    | Completed(name: string)             // "✓ Tamamlandı: <base name>"
    | OriginalSize(size: SizeText)
    | CompressedSize(size: SizeText)
    | SizeReduction(percent: real)
    | Separator                           // sixty dashes

  /** The three signals of the worker. */
  datatype Event =
    | Progress(percent: int)
    | Log(line: LogLine)
    | Finished(success: bool, message: string)

  const SuccessMessage: string := "Tüm dosyalar başarıyla sıkıştırıldı!"
  const ErrorPrefix: string := "Hata oluştu: "
  /** The text of the exception `int / 0` raises. */
  const DivisionByZero: string := "division by zero"

  /** Where a call into the libraries or the file system raises:
      `getsize` on the input (pdf-compress.py:42), `fitz.open`
      (pdf-compress.py:49), while handling page `index`
      (pdf-compress.py:58-137), in annotation removal or `save`
      (pdf-compress.py:140-181), or after the file is written, in `close`,
      `gc.collect` or `getsize` (pdf-compress.py:184-192). */
  datatype Stage = Measuring | Opening | AtPage(index: nat) | Saving | Closing

  datatype Fault = Fault(stage: Stage, message: string)

  /** One input file as the libraries see it: its path, its size in bytes,
      its pages, the size of the file `save` writes, and the exception a
      library call raises on it, if any. */
  datatype SourceFile = SourceFile(
    path: string,
    size: nat,
    pages: seq<SourcePage>,
    compressedSize: nat,
    fault: Option<Fault>
  )

  predicate ValidFile(f: SourceFile) {
    forall p :: 0 <= p < |f.pages| ==> Normalized(f.pages[p].rect)
  }

  predicate ValidFiles(files: seq<SourceFile>) {
    forall k :: 0 <= k < |files| ==> ValidFile(files[k])
  }

  function FaultAt(f: SourceFile, stage: Stage): (m: Option<string>)
    ensures m.Some? <==> f.fault.Some? && f.fault.value.stage == stage
  {
    if f.fault.Some? && f.fault.value.stage == stage then Some(f.fault.value.message) else None
  }

  /** What `save` writes: the pages and the options it is called with. */
  datatype SavedDoc = SavedDoc(pages: seq<OutPage>, options: SaveOptions)

  /** The page loop after `p` pages: the pages added, the progress emitted
      and the exception that stopped it, if any. */
  datatype PagesState = PagesState(out: seq<OutPage>, progress: seq<Event>, error: Option<string>)

  /** What handling page `k` comes to: the page added, or the exception
      raised, the library's before the pre-shrink's. */
  function PageStep(s: Settings, f: SourceFile, k: nat): Result<OutPage>
    requires ValidFile(f) && k < |f.pages|
  {
    match FaultAt(f, AtPage(k))
    case Some(m) => Err(m)
    case None => TranscodePage(s, f.size, f.pages[k], k)
  }

  /** The result of every page of `f`, in order. */
  function PageSteps(s: Settings, f: SourceFile): seq<Result<OutPage>>
    requires ValidFile(f)
  {
    seq(|f.pages|, k requires 0 <= k < |f.pages| => PageStep(s, f, k))
  }

  /** The page loop over the results `steps` of the `t` pages of file `i`
      of `n`, after `p` pages: it stops at the first exception. */
  function PagesLoop(steps: seq<Result<OutPage>>, i: nat, n: nat, t: nat, p: nat): PagesState
    requires i < n && p <= |steps| <= t
    decreases p
  {
    if p == 0 then PagesState([], [], None)
    else
      var st := PagesLoop(steps, i, n, t, p - 1);
      if st.error.Some? then st
      else
        match steps[p - 1]
        case Err(m) => st.(error := Some(m))
        case Ok(page) => PagesState(st.out + [page], st.progress + [Progress(PageProgress(i, n, p - 1, t))], None)
  }

  function PagesRun(s: Settings, f: SourceFile, i: nat, n: nat, p: nat): PagesState
    requires ValidFile(f) && i < n && p <= |f.pages|
  {
    PagesLoop(PageSteps(s, f), i, n, |f.pages|, p)
  }

  /** One file: the events emitted, the file written and the exception that
      ended it, if any. */
  datatype FileOutcome = FileOutcome(events: seq<Event>, written: Option<(string, SavedDoc)>, error: Option<string>)

  function OpeningEvents(f: SourceFile): seq<Event> {
    [Log(Processing(Basename(f.path))), Log(FileSize(SizeTextOf(f.size)))]
    + (if f.size > HugeFileBytes then [Log(LargeFileNotice)] else [])
  }

  /** From the first log line to `fitz.open`. */
  function OpeningRun(f: SourceFile): FileOutcome {
    if FaultAt(f, Measuring).Some? then FileOutcome([Log(Processing(Basename(f.path)))], None, FaultAt(f, Measuring))
    else FileOutcome(OpeningEvents(f), None, FaultAt(f, Opening))
  }

  function Summary(f: SourceFile, reduction: real, i: nat, n: nat): seq<Event>
    requires i < n
  {
    [ Log(Completed(Basename(f.path))),
      Log(OriginalSize(SizeTextOf(f.size))),
      Log(CompressedSize(SizeTextOf(f.compressedSize))),
      Log(SizeReduction(reduction)),
      Log(Separator),
      Progress(FileProgress(i, n)) ]
  }

  function Output(s: Settings, folder: string, f: SourceFile, out: seq<OutPage>): (string, SavedDoc) {
    (OutputPath(folder, f.path),
     SavedDoc(if s.removeAnnotations then WithoutAnnots(out) else out,
              SaveProfileFor(s.compressionLevel, s.compressFonts)))
  }

  /** What follows a page loop that raised nothing: the save, the report
      and the final progress of file `i` of `n`, given the pages made. */
  function SaveRun(s: Settings, folder: string, i: nat, n: nat, f: SourceFile, out: seq<OutPage>): FileOutcome
    requires i < n
  {
    if FaultAt(f, Saving).Some? then FileOutcome([], None, FaultAt(f, Saving))
    else
      var r := ReportRun(f, i, n);
      FileOutcome(r.events, Some(Output(s, folder, f, out)), r.error)
  }

  /** What follows the save: closing, the reduction, the report, the
      progress. */
  function ReportRun(f: SourceFile, i: nat, n: nat): FileOutcome
    requires i < n
  {
    if FaultAt(f, Closing).Some? then FileOutcome([], None, FaultAt(f, Closing))
    else
    match Reduction(f.size, f.compressedSize)
    case None => FileOutcome([], None, Some(DivisionByZero))
    case Some(r) => FileOutcome(Summary(f, r, i, n), None, None)
  }

  /** `o` after the events `evs`. */
  function Then(evs: seq<Event>, o: FileOutcome): FileOutcome {
    FileOutcome(evs + o.events, o.written, o.error)
  }

  /** One file, from its first log line to its final progress value. */
  function FileRun(s: Settings, folder: string, i: nat, n: nat, f: SourceFile): FileOutcome
    requires ValidFile(f) && i < n
  {
    var head := OpeningRun(f);
    if head.error.Some? then head else Then(head.events, LoadedRun(s, folder, i, n, f))
  }

  /** One file once it is open: the page count, the pages, the rest. */
  function LoadedRun(s: Settings, folder: string, i: nat, n: nat, f: SourceFile): FileOutcome
    requires ValidFile(f) && i < n
  {
    var st := PagesRun(s, f, i, n, |f.pages|);
    var evs := [Log(PageCount(|f.pages|))] + st.progress;
    if st.error.Some? then FileOutcome(evs, None, st.error)
    else Then(evs, SaveRun(s, folder, i, n, f, st.out))
  }

  /** The `k`-th entry of `outs`; named so that `OutcomesOf` is only
      unfolded where a proof asks for it. */
  function OutcomeAt(outs: seq<FileOutcome>, k: nat): FileOutcome
    requires k < |outs|
  {
    outs[k]
  }

  /** `outs` holds what each file of a job comes to when the job reaches it. */
  ghost predicate OutcomesOf(outs: seq<FileOutcome>, s: Settings, folder: string, files: seq<SourceFile>)
    requires ValidFiles(files)
  {
    && |outs| == |files|
    && forall k {:trigger OutcomeAt(outs, k)} :: 0 <= k < |files| ==>
         OutcomeAt(outs, k) == FileRun(s, folder, k, |files|, files[k])
  }

  lemma OutcomesExist(s: Settings, folder: string, files: seq<SourceFile>) returns (outs: seq<FileOutcome>)
    requires ValidFiles(files)
    ensures OutcomesOf(outs, s, folder, files)
  {
    outs := seq(|files|, k requires 0 <= k < |files| => FileRun(s, folder, k, |files|, files[k]));
  }

  /** One sequence of outcomes fits a job. */
  lemma OutcomesUnique(outs: seq<FileOutcome>, outs': seq<FileOutcome>, s: Settings, folder: string, files: seq<SourceFile>)
    requires ValidFiles(files)
    requires OutcomesOf(outs, s, folder, files) && OutcomesOf(outs', s, folder, files)
    ensures outs == outs'
  {
    forall k | 0 <= k < |files|
      ensures outs[k] == outs'[k]
    {
      assert OutcomeAt(outs, k) == OutcomeAt(outs', k);
    }
  }

  /** The job after its first `k` files, starting from the output folder
      `disk`: events, the files in the folder, the exception, if any. The
      first exception ends the job. */
  datatype JobState = JobState(events: seq<Event>, written: map<string, SavedDoc>, error: Option<string>)

  function JobRun(outs: seq<FileOutcome>, k: nat, disk: map<string, SavedDoc>): (st: JobState)
    requires k <= |outs|
    decreases k
  {
    if k == 0 then JobState([], disk, None)
    else
      var st := JobRun(outs, k - 1, disk);
      if st.error.Some? then st
      else JobState(st.events + outs[k - 1].events, Install(st.written, outs[k - 1].written), outs[k - 1].error)
  }

  function Completion(error: Option<string>): Event {
    if error.Some? then Finished(false, ErrorPrefix + error.value) else Finished(true, SuccessMessage)
  }

  /** Everything the worker emits for a job. */
  function JobEvents(outs: seq<FileOutcome>, disk: map<string, SavedDoc>): seq<Event> {
    var st := JobRun(outs, |outs|, disk);
    st.events + [Completion(st.error)]
  }

  /** The output folder after a file: a written file replaces one of the
      same name. */
  function Install(disk: map<string, SavedDoc>, w: Option<(string, SavedDoc)>): (d: map<string, SavedDoc>)
    ensures w.None? ==> d == disk
    ensures w.Some? ==> d.Keys == disk.Keys + {w.value.0} && d[w.value.0] == w.value.1
    ensures forall name :: name in disk && (w.None? || name != w.value.0) ==> name in d && d[name] == disk[name]
  {
    if w.Some? then disk[w.value.0 := w.value.1] else disk
  }

  lemma {:induction false} PagesLoopStops(steps: seq<Result<OutPage>>, i: nat, n: nat, t: nat, p: nat, q: nat)
    requires i < n && p <= q <= |steps| <= t
    requires PagesLoop(steps, i, n, t, p).error.Some?
    ensures PagesLoop(steps, i, n, t, q) == PagesLoop(steps, i, n, t, p)
    decreases q
  {
    if q > p {
      PagesLoopStops(steps, i, n, t, p, q - 1);
    }
  }

  lemma {:induction false} JobRunStops(outs: seq<FileOutcome>, k: nat, m: nat, disk: map<string, SavedDoc>)
    requires k <= m <= |outs|
    requires JobRun(outs, k, disk).error.Some?
    ensures JobRun(outs, m, disk) == JobRun(outs, k, disk)
    decreases m
  {
    if m > k {
      JobRunStops(outs, k, m - 1, disk);
    }
  }

  lemma AppendAssociates<T>(a: seq<T>, b: seq<T>, c: seq<T>)
    ensures (a + b) + c == a + (b + c)
  {
  }

  class CompressorThread {
    const inputFiles: seq<SourceFile>
    const outputFolder: string
    const settings: Settings
    /** Everything emitted on the three signals so far. */
    var events: seq<Event>
    /** The output folder: file name to what was saved there. */
    var written: map<string, SavedDoc>

    constructor (inputFiles: seq<SourceFile>, outputFolder: string, settings: Settings, disk: map<string, SavedDoc>)
      ensures this.inputFiles == inputFiles && this.outputFolder == outputFolder && this.settings == settings
      ensures events == [] && written == disk
    {
      this.inputFiles := inputFiles;
      this.outputFolder := outputFolder;
      this.settings := settings;
      events := [];
      written := disk;
    }

    /** The page count line, then the page loop into the fresh document
        `doc`. */
    method LoadPages(doc: OutputDocument, i: nat, n: nat, f: SourceFile) returns (error: Option<string>)
      requires ValidFile(f) && i < n && doc.pages == []
      modifies this, doc
      ensures var st := PagesRun(settings, f, i, n, |f.pages|);
        events == old(events) + ([Log(PageCount(|f.pages|))] + st.progress)
        && error == st.error && (error.None? ==> doc.pages == st.out)
      ensures written == old(written)
    {
      ghost var st := PagesRun(settings, f, i, n, |f.pages|);
      AppendAssociates(old(events), [Log(PageCount(|f.pages|))], st.progress);
      events := events + [Log(PageCount(|f.pages|))];
      error := ProcessPages(doc, i, n, f);
    }

    /** The page loop of file `i` of `n` into the fresh document `doc`. */
    method ProcessPages(doc: OutputDocument, i: nat, n: nat, f: SourceFile) returns (error: Option<string>)
      requires ValidFile(f) && i < n && doc.pages == []
      modifies this, doc
      ensures var st := PagesRun(settings, f, i, n, |f.pages|);
        events == old(events) + st.progress && error == st.error && (error.None? ==> doc.pages == st.out)
      ensures written == old(written)
    {
      var total := |f.pages|;
      var p := 0;
      error := None;
      while p < total
        invariant 0 <= p <= total && error.None?
        invariant PagesRun(settings, f, i, n, p).error.None?
        invariant doc.pages == PagesRun(settings, f, i, n, p).out
        invariant events == old(events) + PagesRun(settings, f, i, n, p).progress
        invariant written == old(written)
      {
        error := ProcessPage(doc, i, n, f, p);
        assert PageSteps(settings, f)[p] == PageStep(settings, f, p);
        if error.Some? {
          PagesLoopStops(PageSteps(settings, f), i, n, total, p + 1, total);
          return;
        }
        p := p + 1;
      }
    }

    /** The body of the page loop: page `p` of file `i` of `n` added to
        `doc` and its progress value emitted, or the exception raised. */
    method ProcessPage(doc: OutputDocument, i: nat, n: nat, f: SourceFile, p: nat) returns (error: Option<string>)
      requires ValidFile(f) && i < n && p < |f.pages|
      modifies this, doc
      ensures var r := PageStep(settings, f, p);
        && (r.Err? ==> error == Some(r.message) && doc.pages == old(doc.pages) && events == old(events))
        && (r.Ok? ==> error.None? && doc.pages == old(doc.pages) + [r.value]
                      && events == old(events) + [Progress(PageProgress(i, n, p, |f.pages|))])
      ensures written == old(written)
    {
      var fault := FaultAt(f, AtPage(p));
      if fault.Some? {
        return fault;
      }
      error := TranscodeInto(doc, settings, f.size, f.pages[p], p);
      if error.None? {
        events := events + [Progress(PageProgress(i, n, p, |f.pages|))];
      }
    }

    /** The first lines of the loop body for a file. */
    method OpenFile(f: SourceFile) returns (name: string, error: Option<string>)
      modifies this
      ensures name == Basename(f.path)
      ensures var o := OpeningRun(f);
        events == old(events) + o.events && error == o.error && written == old(written)
    {
      name := Basename(f.path);
      events := events + [Log(Processing(name))];
      if FaultAt(f, Measuring).Some? {
        return name, FaultAt(f, Measuring);
      }
      var sizeText := FormatSize(f.size);
      events := events + [Log(FileSize(sizeText))];
      if f.size > HugeFileBytes {
        events := events + [Log(LargeFileNotice)];
      }
      error := FaultAt(f, Opening);
    }

    /** The lines after the page loop: annotations, `save`, the report. */
    method SaveAndReport(doc: OutputDocument, name: string, i: nat, n: nat, f: SourceFile) returns (error: Option<string>)
      requires i < n && name == Basename(f.path)
      modifies this, doc
      ensures var t := SaveRun(settings, outputFolder, i, n, f, old(doc.pages));
        events == old(events) + t.events && written == Install(old(written), t.written) && error == t.error
      ensures doc.pages == if settings.removeAnnotations then WithoutAnnots(old(doc.pages)) else old(doc.pages)
    {
      var outputPath, saved;
      error, outputPath, saved := Save(doc, f);
      if error.Some? {
        return;
      }
      written := written[outputPath := saved];
      error := Report(name, i, n, f);
    }

    /** Annotation removal, then `save` with the path and options of the
        settings: what is written, or the exception raised. */
    method Save(doc: OutputDocument, f: SourceFile) returns (error: Option<string>, outputPath: string, saved: SavedDoc)
      modifies doc
      ensures error == FaultAt(f, Saving)
      ensures (outputPath, saved) == Output(settings, outputFolder, f, old(doc.pages))
      ensures doc.pages == if settings.removeAnnotations then WithoutAnnots(old(doc.pages)) else old(doc.pages)
    {
      if settings.removeAnnotations {
        doc.RemoveAnnots();
      }
      outputPath := OutputPath(outputFolder, f.path);
      var options := SaveProfileFor(settings.compressionLevel, settings.compressFonts);
      saved := SavedDoc(doc.pages, options);
      error := FaultAt(f, Saving);
    }

    /** Closing, the reduction, the report logged for a file written, and
        its progress value. */
    method Report(name: string, i: nat, n: nat, f: SourceFile) returns (error: Option<string>)
      requires i < n && name == Basename(f.path)
      modifies this
      ensures var r := ReportRun(f, i, n);
        events == old(events) + r.events && error == r.error && written == old(written)
    {
      if FaultAt(f, Closing).Some? {
        return FaultAt(f, Closing);
      }
      var reduction := Reduction(f.size, f.compressedSize);
      if reduction.None? {
        return Some(DivisionByZero);
      }
      LogSummary(name, i, n, f, reduction.value);
      error := None;
    }

    /** The report logged for a file written, and its progress value. */
    method LogSummary(name: string, i: nat, n: nat, f: SourceFile, reduction: real)
      requires i < n && name == Basename(f.path)
      modifies this
      ensures events == old(events) + Summary(f, reduction, i, n) && written == old(written)
    {
      var originalText := FormatSize(f.size);
      var compressedText := FormatSize(f.compressedSize);
      events := events + [Log(Completed(name)), Log(OriginalSize(originalText)),
                          Log(CompressedSize(compressedText)), Log(SizeReduction(reduction)),
                          Log(Separator), Progress(FileProgress(i, n))];
    }

    /** The body of the loop for file `i`, up to the exception, if any. */
    method ProcessFile(i: nat, ghost outs: seq<FileOutcome>) returns (error: Option<string>)
      requires ValidFiles(inputFiles) && i < |inputFiles|
      requires OutcomesOf(outs, settings, outputFolder, inputFiles)
      modifies this
      ensures events == old(events) + outs[i].events
      ensures written == Install(old(written), outs[i].written)
      ensures error == outs[i].error
    {
      var f := inputFiles[i];
      var n := |inputFiles|;
      assert OutcomeAt(outs, i) == FileRun(settings, outputFolder, i, n, f);
      ghost var start := events;
      var name;
      name, error := OpenFile(f);
      if error.Some? {
        return;
      }
      ghost var head := OpeningRun(f).events;
      ghost var rest := LoadedRun(settings, outputFolder, i, n, f);
      error := ProcessLoaded(name, i, n, f);
      AppendAssociates(start, head, rest.events);
    }

    /** The loop body once `fitz.open` has returned. */
    method ProcessLoaded(name: string, i: nat, n: nat, f: SourceFile) returns (error: Option<string>)
      requires ValidFile(f) && i < n && name == Basename(f.path)
      modifies this
      ensures var o := LoadedRun(settings, outputFolder, i, n, f);
        events == old(events) + o.events && written == Install(old(written), o.written) && error == o.error
    {
      ghost var start := events;
      ghost var o := LoadedRun(settings, outputFolder, i, n, f);
      ghost var st := PagesRun(settings, f, i, n, |f.pages|);
      ghost var evs := [Log(PageCount(|f.pages|))] + st.progress;
      var doc := new OutputDocument();
      error := LoadPages(doc, i, n, f);
      if error.Some? {
        assert o == FileOutcome(evs, None, st.error);
        return;
      }
      ghost var t := SaveRun(settings, outputFolder, i, n, f, st.out);
      assert o == Then(evs, t);
      error := SaveAndReport(doc, name, i, n, f);
      AppendAssociates(start, evs, t.events);
    }

    /** `run`: any exception ends the job with one failure signal; otherwise
        one success signal follows the last file. `outs` is what each file
        comes to (`OutcomesOf` fixes it). */
    method Run() returns (ghost outs: seq<FileOutcome>)
      requires ValidFiles(inputFiles)
      modifies this
      ensures OutcomesOf(outs, settings, outputFolder, inputFiles)
      ensures events == old(events) + JobEvents(outs, old(written))
      ensures written == JobRun(outs, |outs|, old(written)).written
    {
      ghost var disk := written;
      ghost var start := events;
      outs := OutcomesExist(settings, outputFolder, inputFiles);
      var n := |inputFiles|;
      var i := 0;
      while i < n
        invariant 0 <= i <= n
        invariant JobRun(outs, i, disk).error.None?
        invariant events == start + JobRun(outs, i, disk).events
        invariant written == JobRun(outs, i, disk).written
      {
        ghost var before := JobRun(outs, i, disk);
        var error := ProcessFile(i, outs);
        assert events == start + (before.events + outs[i].events) by {
          AppendAssociates(start, before.events, outs[i].events);
        }
        if error.Some? {
          JobRunStops(outs, i + 1, n, disk);
          events := events + [Finished(false, ErrorPrefix + error.value)];
          return;
        }
        i := i + 1;
      }
      events := events + [Finished(true, SuccessMessage)];
    }
  }
}
