/**
 * `exportAnalysisToPDF` and its `addSection` helper (script.js): a second
 * cursor machine with fixed geometry. `y` starts at 20; a section title moves
 * to a new page when `y > 260`; a text block moves when its lines would pass
 * 280; every line is 5 units tall.
 */
module ReportPdf {
  import opened Wrappers
  import opened Analysis
  import opened Pager
  import Text

  datatype ReportBlock =
    | ReportTitle(text: string)
    | ScoreLine(text: string)
    | SectionHeading(title: string)
    | TextBlock(text: string, lines: nat)

  /** `doc.splitTextToSize(text, width).length`. */
  type Measure = (string, int) -> nat

  const Top: int := 20
  const HeadingLimit: int := 260
  const BlockLimit: int := 280
  const LineHeight: int := 5
  const TextWidth: int := 180

  const ReportTitleText: string := "Resume Analysis Report"
  const MatchedTitle: string := "Matched Keywords"
  const MissingTitle: string := "Missing Keywords"
  const GapsTitle: string := "Skill Gaps"
  const SuggestionsTitle: string := "Improvement Suggestions"

  datatype ReportLayout = ReportLayout(placed: seq<Placed<ReportBlock>>, pageCount: nat)

  // ---------------------------------------------------------------------------
  // The block sequence of a report, in drawing order.
  // ---------------------------------------------------------------------------

  function LinesBlock(text: string, measure: Measure): ReportBlock
  {
    TextBlock(text, measure(text, TextWidth))
  }

  function ListBlocks(items: seq<string>, measure: Measure): seq<ReportBlock>
  {
    if items == [] then []
    else ListBlocks(items[..|items| - 1], measure) + [LinesBlock("• " + items[|items| - 1], measure)]
  }

  /** A list section draws one block per item; a keyword section draws all keywords as one block. */
  function SectionBlocks(title: string, items: seq<string>, isList: bool, measure: Measure): seq<ReportBlock>
  {
    [SectionHeading(title)]
    + (if isList then ListBlocks(items, measure) else [LinesBlock(Text.Join(items, ", "), measure)])
  }

  /** The four sections, in their fixed order. */
  function ReportSectionsBlocks(a: AnalysisResult, measure: Measure): seq<ReportBlock>
  {
    SectionBlocks(MatchedTitle, a.matchedKeywords, false, measure)
    + SectionBlocks(MissingTitle, a.missingKeywords, false, measure)
    + SectionBlocks(GapsTitle, a.skillGaps, true, measure)
    + SectionBlocks(SuggestionsTitle, a.suggestions, true, measure)
  }

  function ReportBlocks(a: AnalysisResult, measure: Measure): seq<ReportBlock>
  {
    [ReportTitle(ReportTitleText), ScoreLine(ScoreText(a.atsScore))] + ReportSectionsBlocks(a, measure)
  }

  /** How far `y` moves down after a block is drawn. */
  function Advance(b: ReportBlock): int {
    match b
    case ReportTitle(_) => 10
    case ScoreLine(_) => 15
    case SectionHeading(_) => 8
    case TextBlock(_, n) => n * LineHeight
  }

  lemma ListBlocksSnoc(items: seq<string>, i: nat, measure: Measure)
    requires i < |items|
    ensures ListBlocks(items[..i + 1], measure) == ListBlocks(items[..i], measure) + [LinesBlock("• " + items[i], measure)]
  {
    assert items[..i + 1][..i] == items[..i];
  }

  /** A report has the two head lines, then per section a heading and one block per item (lists) or one block. */
  lemma {:induction false} ListBlocksLength(items: seq<string>, measure: Measure)
    ensures |ListBlocks(items, measure)| == |items|
  {
    if items != [] {
      ListBlocksLength(items[..|items| - 1], measure);
    }
  }

  lemma ReportBlockCount(a: AnalysisResult, measure: Measure)
    ensures |ReportBlocks(a, measure)| == 8 + |a.skillGaps| + |a.suggestions|
  {
    ListBlocksLength(a.skillGaps, measure);
    ListBlocksLength(a.suggestions, measure);
  }

  // ---------------------------------------------------------------------------
  // The greedy placement: where each block lands, given where the one before did.
  // ---------------------------------------------------------------------------

  /** The blocks of a section; once a section is finished `y` moves a further 5. */
  predicate SectionPart(b: ReportBlock) {
    b.SectionHeading? || b.TextBlock?
  }

  /** How far `y` moves between drawing `prev` and the check before `next`. */
  function Gap(prev: ReportBlock, next: ReportBlock): int {
    Advance(prev) + (if SectionPart(prev) && next.SectionHeading? then 5 else 0)
  }

  /** The check before `b`, with the cursor at `y`, starts a new page. */
  predicate ForcesBreak(y: int, b: ReportBlock) {
    || (b.SectionHeading? && y > HeadingLimit)
    || (b.TextBlock? && y + b.lines * LineHeight > BlockLimit)
  }

  /**
   * Where `b` is drawn when the drawing before it was `a`: at the top of the
   * next page when its check forces a break, otherwise on the same page at
   * the cursor.
   */
  function PlaceAfter(a: Placed<ReportBlock>, b: ReportBlock): (p: Placed<ReportBlock>)
    ensures p.block == b
    ensures ForcesBreak(a.y + Gap(a.block, b), b) ==> p.page == a.page + 1 && p.y == Top
    ensures !ForcesBreak(a.y + Gap(a.block, b), b) ==> p.page == a.page && p.y == a.y + Gap(a.block, b)
  {
    var y := a.y + Gap(a.block, b);
    if ForcesBreak(y, b) then Placed(a.page + 1, Top, b) else Placed(a.page, y, b)
  }

  /** The reference layout of a whole report: the title at the top of the first page, every other block placed greedily. */
  function ReportLayoutOf(a: AnalysisResult, measure: Measure): (ps: seq<Placed<ReportBlock>>)
    ensures Blocks(ps) == ReportBlocks(a, measure)
  {
    var first := Placed(0, Top, ReportTitle(ReportTitleText));
    var bs := ReportBlocks(a, measure);
    LayoutFromBlocks(PlaceAfter, first, bs);
    [first] + GreedyLayout(PlaceAfter, first, bs[1..])
  }

  // ---------------------------------------------------------------------------
  // What the break checks guarantee.
  // ---------------------------------------------------------------------------

  /**
   * The `k`-th drawing respects its check: a heading is never drawn below 260;
   * a text block ends by 280, or else it was moved to the top of a fresh page.
   */
  ghost predicate KeptReserve(ps: seq<Placed<ReportBlock>>, k: int)
    requires 0 <= k < |ps|
  {
    match ps[k].block
    case SectionHeading(_) => ps[k].y <= HeadingLimit
    case TextBlock(_, n) =>
      ps[k].y + n * LineHeight <= BlockLimit
      || (0 < k && ps[k].page == ps[k - 1].page + 1 && ps[k].y == Top)
    case _ => true
  }

  ghost predicate ReservesKept(ps: seq<Placed<ReportBlock>>) {
    forall k :: 0 <= k < |ps| ==> KeptReserve(ps, k)
  }

  /** The greedy placement keeps every check when the first block has none. */
  lemma GreedyKeepsReserves(ps: seq<Placed<ReportBlock>>)
    requires Greedy(PlaceAfter, ps) && (ps != [] ==> !SectionPart(ps[0].block))
    ensures ReservesKept(ps)
  {
    forall k | 0 <= k < |ps| ensures KeptReserve(ps, k) {
      if 0 < k {
        assert Follows(PlaceAfter, ps[k - 1], ps[k]);
      }
    }
  }

  // ---------------------------------------------------------------------------
  // The exporter.
  // ---------------------------------------------------------------------------

  ghost predicate Laid(c: PageCursor<ReportBlock>)
    reads c
  {
    c.Valid() && c.top == Top
  }

  /** The cursor sits right below the last drawing. */
  ghost predicate Open(c: PageCursor<ReportBlock>)
    reads c
  {
    c.placed != [] && c.y == Last(c.placed).y + Advance(Last(c.placed).block)
  }

  /** The cursor sits right below the last drawing and, if that was part of a section, 5 further down. */
  ghost predicate Closed(c: PageCursor<ReportBlock>)
    reads c
  {
    c.placed != []
    && c.y == Last(c.placed).y + Advance(Last(c.placed).block) + (if SectionPart(Last(c.placed).block) then 5 else 0)
  }

  /** A text block of `measure(text)` lines: a new page first when it would pass 280; `y` then moves down by its height. */
  method PlaceLines(c: PageCursor<ReportBlock>, text: string, measure: Measure)
    requires Laid(c) && c.PageUsed() && Open(c)
    modifies c
    ensures Laid(c) && c.PageUsed() && Open(c)
    ensures c.placed == old(c.placed) + [PlaceAfter(Last(old(c.placed)), LinesBlock(text, measure))]
    ensures old(c.y) + measure(text, TextWidth) * LineHeight > BlockLimit ==>
              c.pageCount == old(c.pageCount) + 1 && c.y == Top + measure(text, TextWidth) * LineHeight
    ensures old(c.y) + measure(text, TextWidth) * LineHeight <= BlockLimit ==>
              c.pageCount == old(c.pageCount) && c.y == old(c.y) + measure(text, TextWidth) * LineHeight
  {
    var lines := measure(text, TextWidth);
    if c.y + lines * LineHeight > BlockLimit {
      c.AddPage();
    }
    c.Draw(TextBlock(text, lines));
    c.Advance(lines * LineHeight);
  }

  /** The section title: a new page first when `y > 260`; then `y` moves down 8. */
  method PlaceHeading(c: PageCursor<ReportBlock>, title: string)
    requires Laid(c) && c.PageUsed() && Closed(c)
    modifies c
    ensures Laid(c) && c.PageUsed() && Open(c)
    ensures c.placed == old(c.placed) + [PlaceAfter(Last(old(c.placed)), SectionHeading(title))]
    ensures old(c.y) > HeadingLimit ==> c.pageCount == old(c.pageCount) + 1 && c.y == Top + 8
    ensures old(c.y) <= HeadingLimit ==> c.pageCount == old(c.pageCount) && c.y == old(c.y) + 8
  {
    if c.y > HeadingLimit {
      c.AddPage();
    }
    c.Draw(SectionHeading(title));
    c.Advance(8);
  }

  /** The list branch of `addSection`: one bulleted block per item, in order. */
  method AddListItems(c: PageCursor<ReportBlock>, items: seq<string>, measure: Measure)
    requires Laid(c) && c.PageUsed() && Open(c) && SectionPart(Last(c.placed).block)
    modifies c
    ensures Laid(c) && c.PageUsed() && Open(c) && SectionPart(Last(c.placed).block)
    ensures c.placed == old(c.placed) + GreedyLayout(PlaceAfter, Last(old(c.placed)), ListBlocks(items, measure))
  {
    ghost var start := c.placed;
    assert start + GreedyLayout(PlaceAfter, Last(start), ListBlocks(items[..0], measure)) == start;
    var i := 0;
    while i < |items|
      invariant 0 <= i <= |items|
      invariant Laid(c) && c.PageUsed() && Open(c) && SectionPart(Last(c.placed).block)
      invariant c.placed == start + GreedyLayout(PlaceAfter, Last(start), ListBlocks(items[..i], measure))
    {
      ghost var before := c.placed;
      PlaceLines(c, "• " + items[i], measure);
      Extend(PlaceAfter, start, before, ListBlocks(items[..i], measure), LinesBlock("• " + items[i], measure));
      ListBlocksSnoc(items, i, measure);
      i := i + 1;
    }
    assert items[..i] == items;
  }

  /** `addSection(title, items, isList)`; the section ends 5 units below its last block. */
  method AddSection(c: PageCursor<ReportBlock>, title: string, items: seq<string>, isList: bool, measure: Measure)
    requires Laid(c) && c.PageUsed() && Closed(c)
    modifies c
    ensures Laid(c) && c.PageUsed() && Closed(c) && SectionPart(Last(c.placed).block)
    ensures c.placed == old(c.placed) + GreedyLayout(PlaceAfter, Last(old(c.placed)), SectionBlocks(title, items, isList, measure))
    ensures c.y == Last(c.placed).y + Advance(Last(c.placed).block) + 5
  {
    ghost var start := c.placed;
    PlaceHeading(c, title);
    GreedySingle(PlaceAfter, Last(start), SectionHeading(title));
    ghost var mid := c.placed;
    if isList {
      AddListItems(c, items, measure);
      Chain(PlaceAfter, start, mid, c.placed, [SectionHeading(title)], ListBlocks(items, measure));
    } else {
      PlaceLines(c, Text.Join(items, ", "), measure);
      Extend(PlaceAfter, start, mid, [SectionHeading(title)], LinesBlock(Text.Join(items, ", "), measure));
    }
    c.Advance(5);
  }

  /** The report title at 20 and the score line 10 below it, on the first page; `y` is left at 45. */
  method DrawReportHead(c: PageCursor<ReportBlock>, a: AnalysisResult)
    requires c.Valid() && c.top == Top && c.y == Top && c.pageCount == 1 && c.placed == []
    modifies c
    ensures Laid(c) && c.PageUsed() && Closed(c)
    ensures c.placed == [Placed(0, Top, ReportTitle(ReportTitleText)),
                         Placed(0, Top + 10, ScoreLine(ScoreText(a.atsScore)))]
    ensures c.placed == [c.placed[0]] + GreedyLayout(PlaceAfter, c.placed[0], [ScoreLine(ScoreText(a.atsScore))])
    ensures c.y == Top + 25 && c.pageCount == 1
  {
    c.Draw(ReportTitle(ReportTitleText));
    c.Advance(10);
    c.Draw(ScoreLine(ScoreText(a.atsScore)));
    c.Advance(15);
    GreedySingle(PlaceAfter, c.placed[0], ScoreLine(ScoreText(a.atsScore)));
  }

  /** The four `addSection` calls, in their fixed order. */
  method AddReportSections(c: PageCursor<ReportBlock>, a: AnalysisResult, measure: Measure)
    requires Laid(c) && c.PageUsed() && Closed(c)
    modifies c
    ensures Laid(c) && c.PageUsed() && Closed(c)
    ensures c.placed == old(c.placed) + GreedyLayout(PlaceAfter, Last(old(c.placed)), ReportSectionsBlocks(a, measure))
  {
    ghost var s1 := SectionBlocks(MatchedTitle, a.matchedKeywords, false, measure);
    ghost var s2 := SectionBlocks(MissingTitle, a.missingKeywords, false, measure);
    ghost var s3 := SectionBlocks(GapsTitle, a.skillGaps, true, measure);
    ghost var s4 := SectionBlocks(SuggestionsTitle, a.suggestions, true, measure);
    ghost var p0 := c.placed;
    AddSection(c, MatchedTitle, a.matchedKeywords, false, measure);
    ghost var p1 := c.placed;
    AddSection(c, MissingTitle, a.missingKeywords, false, measure);
    Chain(PlaceAfter, p0, p1, c.placed, s1, s2);
    ghost var p2 := c.placed;
    AddSection(c, GapsTitle, a.skillGaps, true, measure);
    Chain(PlaceAfter, p0, p2, c.placed, s1 + s2, s3);
    ghost var p3 := c.placed;
    AddSection(c, SuggestionsTitle, a.suggestions, true, measure);
    Chain(PlaceAfter, p0, p3, c.placed, s1 + s2 + s3, s4);
  }

  /**
   * Everything the export promises about a finished report layout: the
   * title and score line at the top of the first page, every other block
   * where the greedy placement puts it, so the layout and the page count
   * are determined.
   */
  ghost predicate WellLaidOut(doc: ReportLayout, a: AnalysisResult, measure: Measure) {
    var ps := doc.placed;
    && ps == ReportLayoutOf(a, measure)
    && Blocks(ps) == ReportBlocks(a, measure)
    && |ps| >= 2
    && ps[0] == Placed(0, Top, ReportTitle(ReportTitleText))
    && ps[1] == Placed(0, Top + 10, ScoreLine(ScoreText(a.atsScore)))
    && Greedy(PlaceAfter, ps)
    && Flow(ps, Top)
    && Last(ps).page + 1 == doc.pageCount
    && doc.pageCount == 1 + Breaks(ps)
    && ReservesKept(ps)
  }

  /** The reference layout starts with the title and score line on the first page, and keeps every check. */
  lemma ReportLayoutShape(a: AnalysisResult, measure: Measure)
    ensures var ps := ReportLayoutOf(a, measure);
      && |ps| >= 2
      && ps[0] == Placed(0, Top, ReportTitle(ReportTitleText))
      && ps[1] == Placed(0, Top + 10, ScoreLine(ScoreText(a.atsScore)))
      && Greedy(PlaceAfter, ps)
      && ReservesKept(ps)
  {
    var ps := ReportLayoutOf(a, measure);
    var first := Placed(0, Top, ReportTitle(ReportTitleText));
    var bs := ReportBlocks(a, measure);
    assert ps == [first] + GreedyLayout(PlaceAfter, first, bs[1..]);
    assert bs[1] == ScoreLine(ScoreText(a.atsScore));
    assert ps[1] == PlaceAfter(first, bs[1]);
    PlaceAfterKeepsBlock();
    LayoutIsGreedy(PlaceAfter, first, bs[1..]);
    GreedyKeepsReserves(ps);
  }

  lemma PlaceAfterKeepsBlock()
    ensures forall x, b :: PlaceAfter(x, b).block == b
  {
  }

  lemma FinishedReport(c: PageCursor<ReportBlock>, head: seq<Placed<ReportBlock>>, a: AnalysisResult, measure: Measure)
    requires Laid(c) && c.PageUsed()
    requires head == [Placed(0, Top, ReportTitle(ReportTitleText)),
                      Placed(0, Top + 10, ScoreLine(ScoreText(a.atsScore)))]
    requires head == [head[0]] + GreedyLayout(PlaceAfter, head[0], [ScoreLine(ScoreText(a.atsScore))])
    requires c.placed == head + GreedyLayout(PlaceAfter, Last(head), ReportSectionsBlocks(a, measure))
    ensures WellLaidOut(ReportLayout(c.placed, c.pageCount), a, measure)
  {
    var ps := c.placed;
    Chain(PlaceAfter, [head[0]], head, ps, [ScoreLine(ScoreText(a.atsScore))], ReportSectionsBlocks(a, measure));
    assert ReportBlocks(a, measure)[1..] == [ScoreLine(ScoreText(a.atsScore))] + ReportSectionsBlocks(a, measure);
    assert ps == ReportLayoutOf(a, measure);
    ReportLayoutShape(a, measure);
    LastPageIsBreaks(ps, Top);
  }

  /**
   * `exportAnalysisToPDF`: nothing without an analysis; otherwise the title
   * and score on the first page, then the four sections in their fixed order,
   * every block once and where the greedy placement puts it: a new page
   * exactly when a check fails, and then at the top margin.
   */
  method ExportAnalysisToPdf(analysis: Option<AnalysisResult>, measure: Measure) returns (doc: Option<ReportLayout>)
    ensures analysis.None? ==> doc.None?
    ensures analysis.Some? ==> doc.Some? && WellLaidOut(doc.value, analysis.value, measure)
  {
    if analysis.None? {
      return None;
    }
    var a := analysis.value;
    var c := new PageCursor<ReportBlock>(Top);
    DrawReportHead(c, a);
    ghost var head := c.placed;
    AddReportSections(c, a, measure);
    FinishedReport(c, head, a, measure);
    doc := Some(ReportLayout(c.placed, c.pageCount));
  }
}
