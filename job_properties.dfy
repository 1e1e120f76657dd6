/** What the worker's `run` promises, proved about the job model of
    `Compressor`: the pages of a file, stage by stage what one file comes to,
    and over the whole job the order of the files, the single completion
    signal and the files written. */
module JobProperties {
  import opened Wrappers
  import opened Settings
  import opened Progress
  import opened Document
  import opened Transcoder
  import opened SaveProfile
  import opened Paths
  import opened Compressor

  // ---------------------------------------------------------------------
  // Events

  /** No completion signal, and every progress value within 0..100. */
  predicate Quiet(evs: seq<Event>) {
    forall k :: 0 <= k < |evs| ==> !evs[k].Finished? && (evs[k].Progress? ==> 0 <= evs[k].percent <= 100)
  }

  lemma QuietAppend(a: seq<Event>, b: seq<Event>)
    requires Quiet(a) && Quiet(b)
    ensures Quiet(a + b)
  {
    forall k | 0 <= k < |a + b|
      ensures !(a + b)[k].Finished? && ((a + b)[k].Progress? ==> 0 <= (a + b)[k].percent <= 100)
    {
      if k < |a| { assert (a + b)[k] == a[k]; } else { assert (a + b)[k] == b[k - |a|]; }
    }
  }

  /** The file names of the `İşleniyor:` lines, in order. */
  function Names(evs: seq<Event>): seq<string> {
    if evs == [] then []
    else
      var e := evs[|evs| - 1];
      Names(evs[..|evs| - 1]) + (if e.Log? && e.line.Processing? then [e.line.name] else [])
  }

  lemma {:induction false} NamesAppend(a: seq<Event>, b: seq<Event>)
    ensures Names(a + b) == Names(a) + Names(b)
    decreases |b|
  {
    if b == [] {
      assert a + b == a;
    } else {
      var c := a + b;
      assert c[|c| - 1] == b[|b| - 1];
      assert c[..|c| - 1] == a + b[..|b| - 1];
      NamesAppend(a, b[..|b| - 1]);
    }
  }

  /** Events without an `İşleniyor:` line name no file. */
  lemma {:induction false} NamesOfOthers(evs: seq<Event>)
    requires forall k :: 0 <= k < |evs| ==> !(evs[k].Log? && evs[k].line.Processing?)
    ensures Names(evs) == []
    decreases |evs|
  {
    if evs != [] {
      NamesOfOthers(evs[..|evs| - 1]);
    }
  }

  // ---------------------------------------------------------------------
  // The page loop

  /** One progress value per page added; all `p` pages when none raised. */
  lemma {:induction false} LoopLengths(steps: seq<Result<OutPage>>, i: nat, n: nat, t: nat, p: nat)
    requires i < n && p <= |steps| <= t
    ensures var st := PagesLoop(steps, i, n, t, p);
      && |st.out| == |st.progress| <= p
      && (st.error.None? ==> |st.out| == p)
    decreases p
  {
    if p > 0 {
      LoopLengths(steps, i, n, t, p - 1);
    }
  }

  /** After `p` steps the loop has added, in order, the page of each step
      before the first that raised, each with its progress value. */
  lemma {:induction false} LoopOut(steps: seq<Result<OutPage>>, i: nat, n: nat, t: nat, p: nat)
    requires i < n && p <= |steps| <= t
    ensures var st := PagesLoop(steps, i, n, t, p);
      && |st.out| == |st.progress| <= p
      && forall k :: 0 <= k < |st.out| ==>
           && steps[k].Ok?
           && st.out[k] == steps[k].value
           && st.progress[k] == Progress(PageProgress(i, n, k, t))
    decreases p
  {
    LoopLengths(steps, i, n, t, p);
    if p > 0 {
      LoopOut(steps, i, n, t, p - 1);
      LoopLengths(steps, i, n, t, p - 1);
    }
  }

  /** The loop gets through `p` steps iff none of them raises. */
  lemma {:induction false} LoopFinishes(steps: seq<Result<OutPage>>, i: nat, n: nat, t: nat, p: nat)
    requires i < n && p <= |steps| <= t
    ensures PagesLoop(steps, i, n, t, p).error.None? <==> forall k :: 0 <= k < p ==> steps[k].Ok?
    decreases p
  {
    if p > 0 {
      LoopFinishes(steps, i, n, t, p - 1);
    }
  }

  /** The loop stops at the first step that raises, with its exception. */
  lemma {:induction false} LoopError(steps: seq<Result<OutPage>>, i: nat, n: nat, t: nat, p: nat)
    requires i < n && p <= |steps| <= t
    ensures var st := PagesLoop(steps, i, n, t, p);
      st.error.Some? ==> |st.out| < p && steps[|st.out|].Err? && st.error == Some(steps[|st.out|].message)
    decreases p
  {
    if p > 0 {
      LoopLengths(steps, i, n, t, p - 1);
      LoopError(steps, i, n, t, p - 1);
    }
  }

  /** A page step raises the library's exception for that page if there is
      one, else the pre-shrink's division by zero if it fails, and otherwise
      gives the page the strategy makes. */
  lemma PageStepMeaning(s: Settings, f: SourceFile, k: nat)
    requires ValidFile(f) && k < |f.pages|
    ensures var r := PageStep(s, f, k);
      && (r.Ok? <==> FaultAt(f, AtPage(k)).None? && TranscodePage(s, f.size, f.pages[k], k).Ok?)
      && (r.Ok? ==> r.value == TranscodePage(s, f.size, f.pages[k], k).value)
      && (r.Err? ==> r.message == if FaultAt(f, AtPage(k)).Some? then FaultAt(f, AtPage(k)).value else FloatDivisionByZero)
  {
  }

  /** The page loop of a whole file: the pages of the steps before the first
      that raised, in order, with their progress values; the exception of
      that step; all pages when none raised. */
  lemma PagesRunSpec(s: Settings, f: SourceFile, i: nat, n: nat)
    requires ValidFile(f) && i < n
    ensures var st := PagesRun(s, f, i, n, |f.pages|);
      && |st.out| == |st.progress| <= |f.pages|
      && (st.error.None? <==> forall k :: 0 <= k < |f.pages| ==> PageStep(s, f, k).Ok?)
      && (st.error.None? ==> |st.out| == |f.pages|)
      && (forall k :: 0 <= k < |st.out| ==>
            && PageStep(s, f, k).Ok?
            && st.out[k] == PageStep(s, f, k).value
            && st.progress[k] == Progress(PageProgress(i, n, k, |f.pages|)))
      && (st.error.Some? ==>
            |st.out| < |f.pages| && PageStep(s, f, |st.out|).Err? && st.error == Some(PageStep(s, f, |st.out|).message))
  {
    var steps := PageSteps(s, f);
    var t := |f.pages|;
    LoopLengths(steps, i, n, t, t);
    LoopOut(steps, i, n, t, t);
    LoopFinishes(steps, i, n, t, t);
    LoopError(steps, i, n, t, t);
    forall k | 0 <= k < t ensures steps[k] == PageStep(s, f, k) {
    }
  }

  /** The library raises on one of the pages that exist. */
  predicate Fires(f: SourceFile) {
    f.fault.Some? && (f.fault.value.stage.AtPage? ==> f.fault.value.stage.index < |f.pages|)
  }

  /** No page has a zero side the pre-shrink divides by. */
  predicate PagesOk(s: Settings, f: SourceFile)
    requires ValidFile(f)
  {
    forall k :: 0 <= k < |f.pages| ==> TranscodePage(s, f.size, f.pages[k], k).Ok?
  }

  /** The whole page loop finishes iff no page fault fires and every page
      transcodes. */
  lemma PagesFinish(s: Settings, f: SourceFile, i: nat, n: nat)
    requires ValidFile(f) && i < n
    ensures PagesRun(s, f, i, n, |f.pages|).error.None? <==>
      PagesOk(s, f) && !(Fires(f) && f.fault.value.stage.AtPage?)
  {
    PagesRunSpec(s, f, i, n);
    if Fires(f) && f.fault.value.stage.AtPage? {
      var j := f.fault.value.stage.index;
      PageStepMeaning(s, f, j);
    }
    if PagesRun(s, f, i, n, |f.pages|).error.None? {
      forall k | 0 <= k < |f.pages| ensures TranscodePage(s, f.size, f.pages[k], k).Ok? {
        PageStepMeaning(s, f, k);
      }
    }
  }

  // ---------------------------------------------------------------------
  // One file, stage by stage

  /** A processing line names its file. */
  lemma NamesOfProcessing(name: string)
    ensures Names([Log(Processing(name))]) == [name]
  {
    assert [Log(Processing(name))][..0] == [];
  }

  /** The lines logged once `getsize` has returned: the name first, then
      only lines that name no file. */
  lemma OpeningEventsFacts(f: SourceFile)
    ensures var evs := OpeningEvents(f);
      && |evs| > 0 && evs[0] == Log(Processing(Basename(f.path)))
      && Names(evs) == [Basename(f.path)]
      && Quiet(evs)
  {
    var name := Basename(f.path);
    var rest := OpeningEvents(f)[1..];
    assert OpeningEvents(f) == [Log(Processing(name))] + rest;
    NamesOfOthers(rest);
    NamesAppend([Log(Processing(name))], rest);
    NamesOfProcessing(name);
    AppendEmpty([name]);
  }

  lemma AppendEmpty<T>(s: seq<T>)
    ensures s + [] == s
  {
  }

  lemma OpeningRunFacts(f: SourceFile)
    ensures var o := OpeningRun(f);
      && |o.events| > 0 && o.events[0] == Log(Processing(Basename(f.path)))
      && Names(o.events) == [Basename(f.path)]
      && Quiet(o.events)
      && o.written.None?
      && (o.error.Some? <==> f.fault.Some? && (f.fault.value.stage == Measuring || f.fault.value.stage == Opening))
      && (o.error.Some? ==> o.error.value == f.fault.value.message)
  {
    if FaultAt(f, Measuring).Some? {
      NamesOfProcessing(Basename(f.path));
    } else {
      OpeningEventsFacts(f);
    }
  }

  lemma ReportRunFacts(f: SourceFile, i: nat, n: nat)
    requires i < n
    ensures var o := ReportRun(f, i, n);
      && Names(o.events) == []
      && Quiet(o.events)
      && o.written.None?
      && (o.error.None? <==> FaultAt(f, Closing).None? && f.size > 0)
      && (o.error.None? ==> |o.events| > 0 && o.events[|o.events| - 1] == Progress(FileProgress(i, n)))
      && (o.error.Some? ==> o.error == if FaultAt(f, Closing).Some? then FaultAt(f, Closing) else Some(DivisionByZero))
      && (o.error.Some? ==> o.events == [])
  {
    var o := ReportRun(f, i, n);
    NamesOfOthers(o.events);
  }

  lemma SaveRunFacts(s: Settings, folder: string, i: nat, n: nat, f: SourceFile, out: seq<OutPage>)
    requires i < n
    ensures var o := SaveRun(s, folder, i, n, f, out);
      && Names(o.events) == []
      && Quiet(o.events)
      && (o.written.Some? <==> FaultAt(f, Saving).None?)
      && (o.written.Some? ==> o.written.value == Output(s, folder, f, out))
      && (o.error.None? <==> FaultAt(f, Saving).None? && FaultAt(f, Closing).None? && f.size > 0)
      && (o.error.None? ==> |o.events| > 0 && o.events[|o.events| - 1] == Progress(FileProgress(i, n)))
      && (o.error.Some? ==> o.error == if FaultAt(f, Saving).Some? then FaultAt(f, Saving)
                                      else if FaultAt(f, Closing).Some? then FaultAt(f, Closing)
                                      else Some(DivisionByZero))
      && (o.error.Some? ==> o.events == [])
  {
    ReportRunFacts(f, i, n);
  }

  /** The page count line and the page loop's progress values. */
  lemma PageLoopEvents(s: Settings, f: SourceFile, i: nat, n: nat)
    requires ValidFile(f) && i < n
    ensures var evs := [Log(PageCount(|f.pages|))] + PagesRun(s, f, i, n, |f.pages|).progress;
      Quiet(evs) && Names(evs) == []
  {
    var st := PagesRun(s, f, i, n, |f.pages|);
    PagesRunSpec(s, f, i, n);
    var evs := [Log(PageCount(|f.pages|))] + st.progress;
    forall k | 0 <= k < |evs|
      ensures !evs[k].Finished? && (evs[k].Progress? ==> 0 <= evs[k].percent <= 100)
      ensures !(evs[k].Log? && evs[k].line.Processing?)
    {
      if k > 0 { assert evs[k] == st.progress[k - 1]; }
    }
    NamesOfOthers(evs);
  }

  lemma LoadedRunEvents(s: Settings, folder: string, i: nat, n: nat, f: SourceFile)
    requires ValidFile(f) && i < n
    ensures var o := LoadedRun(s, folder, i, n, f);
      && Names(o.events) == []
      && Quiet(o.events)
      && (o.error.None? ==> o.events[|o.events| - 1] == Progress(FileProgress(i, n)))
  {
    var st := PagesRun(s, f, i, n, |f.pages|);
    var evs := [Log(PageCount(|f.pages|))] + st.progress;
    PageLoopEvents(s, f, i, n);
    if st.error.None? {
      var t := SaveRun(s, folder, i, n, f, st.out);
      SaveRunFacts(s, folder, i, n, f, st.out);
      QuietAppend(evs, t.events);
      NamesAppend(evs, t.events);
      if t.error.None? {
        assert (evs + t.events)[|evs + t.events| - 1] == t.events[|t.events| - 1];
      }
    }
  }

  lemma LoadedRunResult(s: Settings, folder: string, i: nat, n: nat, f: SourceFile)
    requires ValidFile(f) && i < n
    requires !(Fires(f) && (f.fault.value.stage == Measuring || f.fault.value.stage == Opening))
    ensures var o := LoadedRun(s, folder, i, n, f);
      && (o.written.Some? <==> PagesOk(s, f) && !(Fires(f) && (f.fault.value.stage.AtPage? || f.fault.value.stage == Saving)))
      && (o.written.Some? ==> o.written.value == Output(s, folder, f, PagesRun(s, f, i, n, |f.pages|).out))
      && (o.error.None? <==> PagesOk(s, f) && !Fires(f) && f.size > 0)
      && (PagesOk(s, f) && Fires(f) && f.fault.value.stage == Closing ==> o.error == Some(f.fault.value.message))
      && (PagesOk(s, f) && !Fires(f) && f.size == 0 ==> o.error == Some(DivisionByZero))
      && (PagesOk(s, f) && Fires(f) && f.fault.value.stage == Saving ==> o.error == Some(f.fault.value.message))
      && (PagesOk(s, f) && Fires(f) && f.fault.value.stage.AtPage? ==> o.error == Some(f.fault.value.message))
      && (!PagesOk(s, f) && !(Fires(f) && f.fault.value.stage.AtPage?) ==> o.error == Some(FloatDivisionByZero))
      && (PagesRun(s, f, i, n, |f.pages|).error.Some? ==> o.error == PagesRun(s, f, i, n, |f.pages|).error)
  {
    var st := PagesRun(s, f, i, n, |f.pages|);
    PagesFinish(s, f, i, n);
    if st.error.None? {
      SaveRunFacts(s, folder, i, n, f, st.out);
    } else {
      PagesRunSpec(s, f, i, n);
      PageStepMeaning(s, f, |st.out|);
    }
  }

  /** One file from its first log line on: it is named once, first, and
      emits no completion signal and only progress values within 0..100. */
  lemma FileRunEvents(s: Settings, folder: string, i: nat, n: nat, f: SourceFile)
    requires ValidFile(f) && i < n
    ensures var o := FileRun(s, folder, i, n, f);
      && |o.events| > 0 && o.events[0] == Log(Processing(Basename(f.path)))
      && Names(o.events) == [Basename(f.path)]
      && Quiet(o.events)
  {
    var head := OpeningRun(f);
    OpeningRunFacts(f);
    if head.error.None? {
      var rest := LoadedRun(s, folder, i, n, f);
      LoadedRunEvents(s, folder, i, n, f);
      QuietAppend(head.events, rest.events);
      NamesAppend(head.events, rest.events);
      assert (head.events + rest.events)[0] == head.events[0];
    }
  }

  /** A file ends without an exception iff no library call raises on it, no
      page has a zero side under the pre-shrink and the original is not
      empty; its last event is then its end-of-file progress. */
  lemma FileRunSucceeds(s: Settings, folder: string, i: nat, n: nat, f: SourceFile)
    requires ValidFile(f) && i < n
    ensures var o := FileRun(s, folder, i, n, f);
      && (o.error.None? <==> !Fires(f) && f.size > 0 && PagesOk(s, f))
      && (o.error.None? ==> |o.events| > 0 && o.events[|o.events| - 1] == Progress(FileProgress(i, n)))
  {
    var head := OpeningRun(f);
    OpeningRunFaults(f);
    if head.error.None? {
      OpenedFileRun(s, folder, i, n, f);
      LoadedRunResult(s, folder, i, n, f);
      if LoadedRun(s, folder, i, n, f).error.None? {
        OpenedFileEndsOnProgress(s, folder, i, n, f);
      }
    }
  }

  /** A file that is opened and then succeeds ends on its end-of-file
      progress. */
  lemma OpenedFileEndsOnProgress(s: Settings, folder: string, i: nat, n: nat, f: SourceFile)
    requires ValidFile(f) && i < n
    requires OpeningRun(f).error.None? && LoadedRun(s, folder, i, n, f).error.None?
    ensures var o := FileRun(s, folder, i, n, f);
      |o.events| > 0 && o.events[|o.events| - 1] == Progress(FileProgress(i, n))
  {
    var head := OpeningRun(f);
    var rest := LoadedRun(s, folder, i, n, f);
    LoadedRunEvents(s, folder, i, n, f);
    assert (head.events + rest.events)[|head.events + rest.events| - 1] == rest.events[|rest.events| - 1];
  }

  /** Which exception ends a file, and whether its output is written: a
      fault of `getsize` or `fitz.open` writes nothing; a fault after the
      save, or an empty original, still leaves the file written. */
  lemma FileRunFaults(s: Settings, folder: string, i: nat, n: nat, f: SourceFile)
    requires ValidFile(f) && i < n
    ensures var o := FileRun(s, folder, i, n, f);
      && (o.written.Some? <==> PagesOk(s, f) && (!Fires(f) || f.fault.value.stage == Closing))
      && (o.written.Some? ==> o.written.value == Output(s, folder, f, PagesRun(s, f, i, n, |f.pages|).out))
      && (Fires(f) && (f.fault.value.stage == Measuring || f.fault.value.stage == Opening) ==>
            o.error == Some(f.fault.value.message))
      && (PagesOk(s, f) && Fires(f) && (f.fault.value.stage == Saving || f.fault.value.stage == Closing) ==>
            o.error == Some(f.fault.value.message))
      && (PagesOk(s, f) && !Fires(f) && f.size == 0 ==> o.error == Some(DivisionByZero))
      && (PagesOk(s, f) && Fires(f) && f.fault.value.stage.AtPage? ==> o.error == Some(f.fault.value.message))
      && (!PagesOk(s, f) && (!Fires(f) || f.fault.value.stage == Saving || f.fault.value.stage == Closing) ==>
            o.error == Some(FloatDivisionByZero))
      && (OpeningRun(f).error.None? && PagesRun(s, f, i, n, |f.pages|).error.Some? ==>
            o.error == PagesRun(s, f, i, n, |f.pages|).error)
  {
    OpeningRunFaults(f);
    if OpeningRun(f).error.None? {
      OpenedFileRun(s, folder, i, n, f);
      LoadedRunResult(s, folder, i, n, f);
    }
  }

  /** `getsize` or `fitz.open` raises exactly when their fault fires. */
  lemma OpeningRunFaults(f: SourceFile)
    ensures var o := OpeningRun(f);
      && o.written.None?
      && (o.error.Some? <==> Fires(f) && (f.fault.value.stage == Measuring || f.fault.value.stage == Opening))
      && (o.error.Some? ==> o.error == Some(f.fault.value.message))
  {
  }

  /** Once the file is open, it comes to what the rest of `run` makes of it. */
  lemma OpenedFileRun(s: Settings, folder: string, i: nat, n: nat, f: SourceFile)
    requires ValidFile(f) && i < n
    requires OpeningRun(f).error.None?
    ensures FileRun(s, folder, i, n, f).error == LoadedRun(s, folder, i, n, f).error
    ensures FileRun(s, folder, i, n, f).written == LoadedRun(s, folder, i, n, f).written
  {
  }

  /** What `save` is handed for the pages `out`. */
  lemma OutputFacts(s: Settings, folder: string, f: SourceFile, out: seq<OutPage>)
    ensures var w := Output(s, folder, f, out);
      && w.0 == OutputPath(folder, f.path)
      && w.1.options == SaveProfileFor(s.compressionLevel, s.compressFonts)
      && |w.1.pages| == |out|
      && forall k :: 0 <= k < |out| ==>
           && w.1.pages[k].rect == out[k].rect
           && w.1.pages[k].content == out[k].content
           && w.1.pages[k].annots == (if s.removeAnnotations then [] else out[k].annots)
  {
  }

  /** What a written file holds: one page per input page, each the page the
      strategy made of it, stripped of annotations when the settings ask
      for it, saved with the level's options at the output path. */
  lemma SavedPagesAreTranscoded(s: Settings, folder: string, i: nat, n: nat, f: SourceFile)
    requires ValidFile(f) && i < n
    requires FileRun(s, folder, i, n, f).written.Some?
    ensures var w := FileRun(s, folder, i, n, f).written.value;
      && w.0 == OutputPath(folder, f.path)
      && w.1.options == SaveProfileFor(s.compressionLevel, s.compressFonts)
      && |w.1.pages| == |f.pages|
      && forall k :: 0 <= k < |f.pages| ==>
           && TranscodePage(s, f.size, f.pages[k], k).Ok?
           && w.1.pages[k].rect == f.pages[k].rect
           && w.1.pages[k].content == TranscodePage(s, f.size, f.pages[k], k).value.content
           && w.1.pages[k].annots == (if s.removeAnnotations then [] else TranscodePage(s, f.size, f.pages[k], k).value.annots)
  {
    var out := PagesRun(s, f, i, n, |f.pages|).out;
    WrittenIsOutput(s, folder, i, n, f);
    CompletedPagesAreTranscoded(s, f, i, n);
    OutputFacts(s, folder, f, out);
  }

  /** A file is written only with the pages of a page loop that finished. */
  lemma WrittenIsOutput(s: Settings, folder: string, i: nat, n: nat, f: SourceFile)
    requires ValidFile(f) && i < n
    requires FileRun(s, folder, i, n, f).written.Some?
    ensures PagesRun(s, f, i, n, |f.pages|).error.None?
    ensures FileRun(s, folder, i, n, f).written.value == Output(s, folder, f, PagesRun(s, f, i, n, |f.pages|).out)
  {
    FileRunFaults(s, folder, i, n, f);
    PagesFinish(s, f, i, n);
  }

  /** A page loop that finished holds every page as the strategy made it. */
  lemma CompletedPagesAreTranscoded(s: Settings, f: SourceFile, i: nat, n: nat)
    requires ValidFile(f) && i < n
    requires PagesRun(s, f, i, n, |f.pages|).error.None?
    ensures var out := PagesRun(s, f, i, n, |f.pages|).out;
      && |out| == |f.pages|
      && forall k :: 0 <= k < |f.pages| ==>
           TranscodePage(s, f.size, f.pages[k], k).Ok? && out[k] == TranscodePage(s, f.size, f.pages[k], k).value
  {
    PagesRunSpec(s, f, i, n);
    forall k | 0 <= k < |f.pages|
      ensures TranscodePage(s, f.size, f.pages[k], k).Ok? && PagesRun(s, f, i, n, |f.pages|).out[k] == TranscodePage(s, f.size, f.pages[k], k).value
    {
      PageStepMeaning(s, f, k);
    }
  }

  // ---------------------------------------------------------------------
  // The job

  /** The events of the files in order. */
  function AllEvents(outs: seq<FileOutcome>): seq<Event> {
    if outs == [] then [] else AllEvents(outs[..|outs| - 1]) + outs[|outs| - 1].events
  }

  /** The index of the first file that raised, or the number of files. */
  function FirstFailure(outs: seq<FileOutcome>): (r: nat)
    ensures r <= |outs|
    ensures forall j :: 0 <= j < r ==> outs[j].error.None?
    ensures r < |outs| ==> outs[r].error.Some?
  {
    if outs == [] then 0
    else if outs[0].error.Some? then 0
    else 1 + FirstFailure(outs[1..])
  }

  /** The number of files the job starts: up to and including the first that
      raised. */
  function Started(outs: seq<FileOutcome>): (m: nat)
    ensures m <= |outs|
  {
    if FirstFailure(outs) < |outs| then FirstFailure(outs) + 1 else |outs|
  }

  /** Before the first failure, the job is the files' events one after the
      other. */
  lemma {:induction false} JobRunBeforeFailure(outs: seq<FileOutcome>, k: nat, disk: map<string, SavedDoc>)
    requires k <= |outs| && forall j :: 0 <= j < k - 1 ==> outs[j].error.None?
    ensures JobRun(outs, k, disk).events == AllEvents(outs[..k])
    ensures k > 0 ==> JobRun(outs, k, disk).error == outs[k - 1].error
    ensures k == 0 ==> JobRun(outs, k, disk).error.None?
    decreases k
  {
    if k > 0 {
      JobRunBeforeFailure(outs, k - 1, disk);
      assert outs[..k][..k - 1] == outs[..k - 1];
    }
  }

  /** All a job emits: the events of the files it starts, in input order,
      then one completion signal, failing with the first exception, or
      succeeding if no file raised. */
  lemma JobEventsSpec(outs: seq<FileOutcome>, disk: map<string, SavedDoc>)
    ensures var j := FirstFailure(outs);
      && (j == |outs| ==> JobEvents(outs, disk) == AllEvents(outs) + [Finished(true, SuccessMessage)])
      && (j < |outs| ==>
            JobEvents(outs, disk) == AllEvents(outs[..j + 1]) + [Finished(false, ErrorPrefix + outs[j].error.value)])
  {
    var j := FirstFailure(outs);
    if j == |outs| {
      JobRunBeforeFailure(outs, |outs|, disk);
      assert outs[..|outs|] == outs;
    } else {
      JobRunBeforeFailure(outs, j + 1, disk);
      JobRunStops(outs, j + 1, |outs|, disk);
    }
  }

  lemma {:induction false} AllEventsQuiet(outs: seq<FileOutcome>)
    requires forall k :: 0 <= k < |outs| ==> Quiet(outs[k].events)
    ensures Quiet(AllEvents(outs))
    decreases |outs|
  {
    if outs != [] {
      AllEventsQuiet(outs[..|outs| - 1]);
      QuietAppend(AllEvents(outs[..|outs| - 1]), outs[|outs| - 1].events);
    }
  }

  /** A non-empty sequence is its front with its last element appended. */
  lemma DropLast<T>(s: seq<T>)
    requires |s| > 0
    ensures s[..|s| - 1] + [s[|s| - 1]] == s
  {
  }

  /** Every file of a job names itself first; the names of the files it
      starts, in order. */
  lemma {:induction false} AllEventsNames(outs: seq<FileOutcome>, names: seq<string>)
    requires |names| == |outs|
    requires forall k :: 0 <= k < |outs| ==> Names(outs[k].events) == [names[k]]
    ensures Names(AllEvents(outs)) == names
    decreases |outs|
  {
    if outs != [] {
      var m := |outs| - 1;
      var pre, front := outs[..m], names[..m];
      forall k | 0 <= k < |pre| ensures Names(pre[k].events) == [front[k]] {
        assert pre[k] == outs[k] && front[k] == names[k];
      }
      AllEventsNames(pre, front);
      assert AllEvents(outs) == AllEvents(pre) + outs[m].events;
      NamesAppend(AllEvents(pre), outs[m].events);
      DropLast(names);
    }
  }

  // ---------------------------------------------------------------------
  // The job over its input files

  /** The completion signal is the last event and the only one, and every
      progress value lies within 0..100. */
  lemma FinishedOnceAtEnd(s: Settings, folder: string, files: seq<SourceFile>, outs: seq<FileOutcome>, disk: map<string, SavedDoc>)
    requires ValidFiles(files) && OutcomesOf(outs, s, folder, files)
    ensures var ev := JobEvents(outs, disk);
      && |ev| > 0 && ev[|ev| - 1].Finished?
      && (forall k :: 0 <= k < |ev| - 1 ==> !ev[k].Finished?)
      && (forall k :: 0 <= k < |ev| && ev[k].Progress? ==> 0 <= ev[k].percent <= 100)
  {
    forall k | 0 <= k < |outs| ensures Quiet(outs[k].events) {
      assert OutcomeAt(outs, k) == FileRun(s, folder, k, |files|, files[k]);
      FileRunEvents(s, folder, k, |files|, files[k]);
    }
    JobEventsSpec(outs, disk);
    var j := FirstFailure(outs);
    var done := if j == |outs| then outs else outs[..j + 1];
    assert forall k :: 0 <= k < |done| ==> done[k] == outs[k];
    AllEventsQuiet(done);
  }

  /** The names a job's events give are those of the files it starts. */
  lemma JobNames(outs: seq<FileOutcome>, disk: map<string, SavedDoc>, names: seq<string>)
    requires |names| == |outs|
    requires forall k :: 0 <= k < |outs| ==> Names(outs[k].events) == [names[k]]
    ensures Names(JobEvents(outs, disk)) == names[..Started(outs)]
  {
    var m := Started(outs);
    var done := outs[..m];
    AllEventsNames(done, names[..m]);
    JobEventsSpec(outs, disk);
    var j := FirstFailure(outs);
    var last := if j == |outs| then Finished(true, SuccessMessage) else Finished(false, ErrorPrefix + outs[j].error.value);
    if j == |outs| {
      assert done == outs;
    }
    assert JobEvents(outs, disk) == AllEvents(done) + [last];
    NamesAppend(AllEvents(done), [last]);
    assert Names([last]) == [] by { assert [last][..0] == []; }
    AppendEmpty(names[..m]);
  }

  /** Files are worked on in input order, and no file after the first that
      raised is started: the `İşleniyor:` lines name exactly the first
      `Started(outs)` files, in order. */
  lemma ProcessedInOrder(s: Settings, folder: string, files: seq<SourceFile>, outs: seq<FileOutcome>, disk: map<string, SavedDoc>)
    requires ValidFiles(files) && OutcomesOf(outs, s, folder, files)
    ensures var names := Names(JobEvents(outs, disk));
      && |names| == Started(outs)
      && forall k :: 0 <= k < |names| ==> names[k] == Basename(files[k].path)
  {
    var names := seq(|files|, k requires 0 <= k < |files| => Basename(files[k].path));
    forall k | 0 <= k < |outs| ensures Names(outs[k].events) == [names[k]] {
      assert OutcomeAt(outs, k) == FileRun(s, folder, k, |files|, files[k]);
      FileRunEvents(s, folder, k, |files|, files[k]);
    }
    JobNames(outs, disk, names);
  }

  /** The job succeeds iff every file does. */
  lemma SucceedsIffEveryFileDoes(s: Settings, folder: string, files: seq<SourceFile>, outs: seq<FileOutcome>, disk: map<string, SavedDoc>)
    requires ValidFiles(files) && OutcomesOf(outs, s, folder, files)
    ensures var ev := JobEvents(outs, disk);
      (ev[|ev| - 1] == Finished(true, SuccessMessage)) <==>
      forall k :: 0 <= k < |files| ==> !Fires(files[k]) && files[k].size > 0 && PagesOk(s, files[k])
  {
    JobEventsSpec(outs, disk);
    var j := FirstFailure(outs);
    if j < |outs| {
      assert OutcomeAt(outs, j) == FileRun(s, folder, j, |files|, files[j]);
      FileRunSucceeds(s, folder, j, |files|, files[j]);
      assert ErrorPrefix[0] != SuccessMessage[0];
    } else {
      forall k | 0 <= k < |files| ensures !Fires(files[k]) && files[k].size > 0 && PagesOk(s, files[k]) {
        assert OutcomeAt(outs, k) == FileRun(s, folder, k, |files|, files[k]);
        FileRunSucceeds(s, folder, k, |files|, files[k]);
      }
    }
  }

  /** A job that succeeds over at least one file reports 100 just before its
      completion signal. */
  lemma SuccessEndsAtHundred(s: Settings, folder: string, files: seq<SourceFile>, outs: seq<FileOutcome>, disk: map<string, SavedDoc>)
    requires ValidFiles(files) && OutcomesOf(outs, s, folder, files)
    requires |files| > 0 && FirstFailure(outs) == |outs|
    ensures var ev := JobEvents(outs, disk);
      |ev| >= 2 && ev[|ev| - 2] == Progress(100) && ev[|ev| - 1] == Finished(true, SuccessMessage)
  {
    var n := |files|;
    JobEventsSpec(outs, disk);
    assert OutcomeAt(outs, n - 1) == FileRun(s, folder, n - 1, n, files[n - 1]);
    FileRunSucceeds(s, folder, n - 1, n, files[n - 1]);
    assert outs != [];
    var evs := outs[n - 1].events;
    assert AllEvents(outs) == AllEvents(outs[..n - 1]) + evs;
    assert AllEvents(outs)[|AllEvents(outs)| - 1] == evs[|evs| - 1];
  }
}
