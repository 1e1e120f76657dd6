/** The output document `new_doc`: the pages the worker adds to it and the
    removal of their annotations (pdf-compress.py:140-146). */
module Document {
  import opened Wrappers
  import opened Raster
  import opened TextOnly

  /** An annotation handle (its object number in the file). */
  type AnnotId = nat

  /** What a page of the output holds. */
  datatype PageContent =
      /** One JPEG image, encoded as `plan` says from `pixmap`, filling the page. */
    | RasterImage(pixmap: Pixmap, plan: JpegPlan)
      /** The `insert_text` calls made on a fresh page. */
    | TextRuns(ops: seq<TextOp>)
      /** Page `sourceIndex` of the input, copied by `insert_pdf`. */
    | CopiedPage(sourceIndex: nat)

  /** A page: its rectangle, content and, in link order, its annotations. */
  datatype OutPage = OutPage(rect: Rect, content: PageContent, annots: seq<AnnotId>)

  /** The position of the first occurrence of `a`. */
  function IndexOf(s: seq<AnnotId>, a: AnnotId): (i: nat)
    requires a in s
    ensures i < |s| && s[i] == a && a !in s[..i]
  {
    if s[0] == a then 0
    else
      var j := IndexOf(s[1..], a);
      assert s[..j + 1] == [s[0]] + s[1..][..j];
      j + 1
  }

  /** The pages with every annotation gone and nothing else changed. */
  function WithoutAnnots(pages: seq<OutPage>): (r: seq<OutPage>)
    ensures |r| == |pages|
    ensures forall k :: 0 <= k < |r| ==>
      r[k].annots == [] && r[k].rect == pages[k].rect && r[k].content == pages[k].content
  {
    seq(|pages|, k requires 0 <= k < |pages| => pages[k].(annots := []))
  }

  class OutputDocument {
    var pages: seq<OutPage>

    /** `fitz.open()`: an empty document. */
    constructor ()
      ensures pages == []
    {
      pages := [];
    }

    /** `new_page(width, height)` followed by the drawing calls that fill it;
        a new page has no annotations. */
    method NewPage(rect: Rect, content: PageContent)
      modifies this
      ensures pages == old(pages) + [OutPage(rect, content, [])]
    {
      pages := pages + [OutPage(rect, content, [])];
    }

    /** `insert_pdf(doc, from_page=index, to_page=index)`: the page comes
        over with its annotations. */
    method InsertPdfPage(rect: Rect, index: nat, annots: seq<AnnotId>)
      modifies this
      ensures pages == old(pages) + [OutPage(rect, CopiedPage(index), annots)]
    {
      pages := pages + [OutPage(rect, CopiedPage(index), annots)];
    }

    /** `page.first_annot`. */
    function FirstAnnot(k: nat): Option<AnnotId>
      reads this
      requires k < |pages|
    {
      if pages[k].annots == [] then None else Some(pages[k].annots[0])
    }

    /** `annot.next`: the annotation linked after `a` on page `k`. */
    function NextAnnot(k: nat, a: AnnotId): Option<AnnotId>
      reads this
      requires k < |pages| && a in pages[k].annots
    {
      var i := IndexOf(pages[k].annots, a);
      if i + 1 < |pages[k].annots| then Some(pages[k].annots[i + 1]) else None
    }

    /** `page.delete_annot(a)`: unlinks `a` from page `k`. */
    method DeleteAnnot(k: nat, a: AnnotId)
      requires k < |pages| && a in pages[k].annots
      modifies this
      ensures |pages| == |old(pages)|
      ensures pages == old(pages)[k := old(pages)[k].(annots :=
        var s := old(pages)[k].annots; s[..IndexOf(s, a)] + s[IndexOf(s, a) + 1..])]
    {
      var s := pages[k].annots;
      var i := IndexOf(s, a);
      pages := pages[k := pages[k].(annots := s[..i] + s[i + 1..])];
    }

    /** The `while annot:` loop of one page: read the successor, delete the
        current annotation, move on. `visited` lists the annotations deleted,
        in order: each one of the page, once. */
    method RemovePageAnnots(k: nat) returns (ghost visited: seq<AnnotId>)
      requires k < |pages|
      modifies this
      ensures pages == old(pages)[k := old(pages)[k].(annots := [])]
      ensures visited == old(pages)[k].annots
    {
      visited := [];
      var annot := FirstAnnot(k);
      while annot.Some?
        invariant k < |pages| && |pages| == |old(pages)|
        invariant pages == old(pages)[k := old(pages)[k].(annots := pages[k].annots)]
        invariant visited + pages[k].annots == old(pages)[k].annots
        invariant annot == FirstAnnot(k)
        decreases |pages[k].annots|
      {
        var next := NextAnnot(k, annot.value);
        ghost var s := pages[k].annots;
        DeleteAnnot(k, annot.value);
        assert pages[k].annots == s[1..];
        visited := visited + [annot.value];
        annot := next;
      }
    }

    /** `for page in new_doc`, each page's loop in turn: the page count and
        every page's content stay, the annotations go. */
    method RemoveAnnots()
      modifies this
      ensures pages == WithoutAnnots(old(pages))
    {
      for k := 0 to |pages|
        invariant |pages| == |old(pages)|
        invariant forall j :: 0 <= j < k ==> pages[j] == old(pages)[j].(annots := [])
        invariant forall j :: k <= j < |pages| ==> pages[j] == old(pages)[j]
      {
        ghost var deleted := RemovePageAnnots(k);
      }
    }
  }
}
