/** The text-only branch (pdf-compress.py:116-128): the page's text
    dictionary is walked block by block, line by line, span by span, and each
    span becomes one `insert_text` call on the new page. */
module TextOnly {

  datatype BBox = BBox(x0: real, y0: real, x1: real, y1: real)

  /** One entry of a line's `"spans"`: its bounding box, its baseline origin
      (present in the dictionary but not used by the worker), its text and
      font size. */
  datatype Span = Span(bbox: BBox, origin: (real, real), text: string, size: real)

  datatype Line = Line(spans: seq<Span>)

  /** A block with a `"lines"` entry, or one without (an image block). */
  datatype Block = TextBlock(lines: seq<Line>) | ImageBlock

  const Black: (int, int, int) := (0, 0, 0)

  /** One `insert_text(point, text, fontsize=…, color=…)` call. */
  datatype TextOp = InsertText(point: (real, real), text: string, fontSize: real, color: (int, int, int))

  /** Concatenation of `f` over `s`, in order. */
  function FlatMap<T, U>(s: seq<T>, f: T -> seq<U>): seq<U> {
    if s == [] then [] else f(s[0]) + FlatMap(s[1..], f)
  }

  lemma {:induction false} FlatMapAppend<T, U>(a: seq<T>, b: seq<T>, f: T -> seq<U>)
    ensures FlatMap(a + b, f) == FlatMap(a, f) + FlatMap(b, f)
  {
    if a != [] {
      assert (a + b)[0] == a[0] && (a + b)[1..] == a[1..] + b;
      FlatMapAppend(a[1..], b, f);
    } else {
      assert a + b == b;
    }
  }

  /** The call a span leads to: at the top-left corner of its box, with its
      own text and size, always black. */
  function SpanOp(s: Span): TextOp {
    InsertText((s.bbox.x0, s.bbox.y0), s.text, s.size, Black)
  }

  function LineOps(l: Line): seq<TextOp> {
    FlatMap(l.spans, (s: Span) => [SpanOp(s)])
  }

  function BlockOps(b: Block): seq<TextOp> {
    match b
    case TextBlock(lines) => FlatMap(lines, LineOps)
    case ImageBlock => []
  }

  /** The calls the walk makes for a whole page. */
  function PageOps(blocks: seq<Block>): seq<TextOp> {
    FlatMap(blocks, BlockOps)
  }

  /** The spans of the text blocks, in reading order: the independent
      description of what the walk visits. */
  function BlockSpans(b: Block): seq<Span> {
    match b
    case TextBlock(lines) => FlatMap(lines, (l: Line) => l.spans)
    case ImageBlock => []
  }

  function TextSpans(blocks: seq<Block>): seq<Span> {
    FlatMap(blocks, BlockSpans)
  }

  function TextBlocksOnly(blocks: seq<Block>): (r: seq<Block>)
    ensures forall k :: 0 <= k < |r| ==> r[k].TextBlock?
    ensures forall b :: b in r <==> b in blocks && b.TextBlock?
    ensures TextSpans(r) == TextSpans(blocks)
  {
    if blocks == [] then []
    else if blocks[0].TextBlock? then [blocks[0]] + TextBlocksOnly(blocks[1..])
    else TextBlocksOnly(blocks[1..])
  }

  lemma {:induction false} SpanOpsOfSpans(spans: seq<Span>)
    ensures |FlatMap(spans, (s: Span) => [SpanOp(s)])| == |spans|
    ensures forall k :: 0 <= k < |spans| ==> FlatMap(spans, (s: Span) => [SpanOp(s)])[k] == SpanOp(spans[k])
  {
    if spans != [] {
      SpanOpsOfSpans(spans[1..]);
    }
  }

  predicate OpsOf(ops: seq<TextOp>, spans: seq<Span>) {
    |ops| == |spans| && forall k :: 0 <= k < |ops| ==> ops[k] == SpanOp(spans[k])
  }

  lemma OpsOfAppend(o1: seq<TextOp>, s1: seq<Span>, o2: seq<TextOp>, s2: seq<Span>)
    requires OpsOf(o1, s1) && OpsOf(o2, s2)
    ensures OpsOf(o1 + o2, s1 + s2)
  {
  }

  lemma {:induction false} LinesOpsOfSpans(lines: seq<Line>)
    ensures OpsOf(FlatMap(lines, LineOps), FlatMap(lines, (l: Line) => l.spans))
  {
    if lines != [] {
      SpanOpsOfSpans(lines[0].spans);
      LinesOpsOfSpans(lines[1..]);
      OpsOfAppend(LineOps(lines[0]), lines[0].spans,
                  FlatMap(lines[1..], LineOps), FlatMap(lines[1..], (l: Line) => l.spans));
    }
  }

  /** The walk makes exactly one call per span of a text block, in order,
      each at that span's box corner with its own text and size, in black. */
  lemma {:induction false} PageOpsAreSpanOps(blocks: seq<Block>)
    ensures |PageOps(blocks)| == |TextSpans(blocks)|
    ensures forall k :: 0 <= k < |PageOps(blocks)| ==>
      PageOps(blocks)[k] == InsertText((TextSpans(blocks)[k].bbox.x0, TextSpans(blocks)[k].bbox.y0),
                                       TextSpans(blocks)[k].text, TextSpans(blocks)[k].size, (0, 0, 0))
  {
    PageOpsOfSpans(blocks);
  }

  lemma {:induction false} PageOpsOfSpans(blocks: seq<Block>)
    ensures OpsOf(PageOps(blocks), TextSpans(blocks))
  {
    if blocks != [] {
      match blocks[0] {
        case TextBlock(lines) => LinesOpsOfSpans(lines);
        case ImageBlock =>
      }
      PageOpsOfSpans(blocks[1..]);
      OpsOfAppend(BlockOps(blocks[0]), BlockSpans(blocks[0]),
                  PageOps(blocks[1..]), TextSpans(blocks[1..]));
    }
  }

  /** Blocks without `"lines"` contribute nothing. */
  lemma {:induction false} ImageBlocksContributeNothing(blocks: seq<Block>)
    ensures PageOps(blocks) == PageOps(TextBlocksOnly(blocks))
  {
    if blocks != [] {
      ImageBlocksContributeNothing(blocks[1..]);
      if blocks[0].TextBlock? {
        assert TextBlocksOnly(blocks)[1..] == TextBlocksOnly(blocks[1..]);
      }
    }
  }

  /** One more element at the end adds its own image at the end. */
  lemma FlatMapSnoc<T, U>(a: seq<T>, x: T, f: T -> seq<U>)
    ensures FlatMap(a + [x], f) == FlatMap(a, f) + f(x)
  {
    FlatMapAppend(a, [x], f);
    assert FlatMap([x], f) == f(x) + FlatMap([], f);
  }

  /** The innermost loop of the worker: one call per span of a line. */
  method WalkLine(line: Line) returns (ops: seq<TextOp>)
    ensures ops == LineOps(line)
  {
    ops := [];
    for s := 0 to |line.spans|
      invariant ops == FlatMap(line.spans[..s], (sp: Span) => [SpanOp(sp)])
    {
      FlatMapSnoc(line.spans[..s], line.spans[s], (sp: Span) => [SpanOp(sp)]);
      assert line.spans[..s + 1] == line.spans[..s] + [line.spans[s]];
      ops := ops + [SpanOp(line.spans[s])];
    }
    assert line.spans[..|line.spans|] == line.spans;
  }

  /** The middle loop: the lines of a block that has `"lines"`; nothing for
      one that has not. */
  method WalkBlock(block: Block) returns (ops: seq<TextOp>)
    ensures ops == BlockOps(block)
  {
    ops := [];
    if block.TextBlock? {
      for l := 0 to |block.lines|
        invariant ops == FlatMap(block.lines[..l], LineOps)
      {
        var lineOps := WalkLine(block.lines[l]);
        FlatMapSnoc(block.lines[..l], block.lines[l], LineOps);
        assert block.lines[..l + 1] == block.lines[..l] + [block.lines[l]];
        ops := ops + lineOps;
      }
      assert block.lines[..|block.lines|] == block.lines;
    }
  }

  /** The outer loop of the worker; `ops` is the sequence of calls made on
      the new page. */
  method WalkSpans(blocks: seq<Block>) returns (ops: seq<TextOp>)
    ensures ops == PageOps(blocks)
  {
    ops := [];
    for b := 0 to |blocks|
      invariant ops == PageOps(blocks[..b])
    {
      var blockOps := WalkBlock(blocks[b]);
      FlatMapSnoc(blocks[..b], blocks[b], BlockOps);
      assert blocks[..b + 1] == blocks[..b] + [blocks[b]];
      ops := ops + blockOps;
    }
    assert blocks[..|blocks|] == blocks;
  }
}
