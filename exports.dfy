/**
 * The PDF and the Word exporters of script.js walk the same analysis in the
 * same order. This module states that agreement: the résumé's Word paragraphs
 * are exactly its PDF blocks with the two horizontal rules dropped, and the
 * report's Word paragraphs carry, one for one, the texts of its PDF blocks.
 */
module ExportsAgree {
  import opened Analysis
  import opened Word
  import ResumePdf
  import ReportPdf
  import Text

  // ---------------------------------------------------------------------------
  // Enhanced résumé.
  // ---------------------------------------------------------------------------

  /** The Word paragraph a PDF block stands for; the rules have none. */
  function ParagraphOf(b: ResumePdf.ResumeBlock): seq<Paragraph>
  {
    match b
    case NameLine(t) => [NameParagraph(t)]
    case ContactLine(t) => [ContactParagraph(t)]
    case HeaderRule => []
    case SummaryText(t, _) => [SummaryParagraph(t)]
    case SectionTitle(t) => [SectionTitleParagraph(t)]
    case SectionRule => []
    case ItemHeader(t) => [HeaderParagraph(t)]
    case ItemSubheader(t) => [SubheaderParagraph(t)]
    case Point(t, _) => [BulletParagraph(t)]
  }

  function WordOf(bs: seq<ResumePdf.ResumeBlock>): seq<Paragraph>
  {
    if bs == [] then [] else WordOf(bs[..|bs| - 1]) + ParagraphOf(bs[|bs| - 1])
  }

  lemma {:induction false} WordOfConcat(a: seq<ResumePdf.ResumeBlock>, b: seq<ResumePdf.ResumeBlock>)
    ensures WordOf(a + b) == WordOf(a) + WordOf(b)
    decreases |b|
  {
    if b == [] {
      assert a + b == a;
    } else {
      var b' := b[..|b| - 1];
      assert (a + b)[..|a + b| - 1] == a + b';
      assert (a + b)[|a + b| - 1] == b[|b| - 1];
      WordOfConcat(a, b');
    }
  }

  lemma {:induction false} PointsAgree(points: seq<string>, measure: ResumePdf.Measure, pageWidth: int)
    ensures WordOf(ResumePdf.PointBlocks(points, measure, pageWidth)) == PointParagraphs(points)
  {
    if points != [] {
      var p' := points[..|points| - 1];
      PointsAgree(p', measure, pageWidth);
      var bs := ResumePdf.PointBlocks(points, measure, pageWidth);
      assert bs[..|bs| - 1] == ResumePdf.PointBlocks(p', measure, pageWidth);
    }
  }

  lemma WordOfSingle(b: ResumePdf.ResumeBlock)
    ensures WordOf([b]) == ParagraphOf(b)
  {
    assert [b][..0] == [];
  }

  lemma ItemAgrees(item: Item, measure: ResumePdf.Measure, pageWidth: int)
    ensures WordOf(ResumePdf.ItemBlocks(item, measure, pageWidth)) == ItemParagraphs(item)
  {
    var h := [ResumePdf.ItemHeader(item.header)];
    var sub := if HasSubheader(item) then [ResumePdf.ItemSubheader(item.subheader)] else [];
    WordOfSingle(ResumePdf.ItemHeader(item.header));
    WordOfConcat(h, sub);
    if HasSubheader(item) {
      WordOfSingle(ResumePdf.ItemSubheader(item.subheader));
    }
    assert WordOf(h + sub) == ItemHeadParagraphs(item);
    WordOfConcat(h + sub, ResumePdf.PointBlocks(item.points, measure, pageWidth));
    PointsAgree(item.points, measure, pageWidth);
  }

  lemma {:induction false} ItemsAgree(items: seq<Item>, measure: ResumePdf.Measure, pageWidth: int)
    ensures WordOf(ResumePdf.ItemsBlocks(items, measure, pageWidth)) == ItemsParagraphs(items)
  {
    if items != [] {
      var i' := items[..|items| - 1];
      ItemsAgree(i', measure, pageWidth);
      ItemAgrees(items[|items| - 1], measure, pageWidth);
      WordOfConcat(ResumePdf.ItemsBlocks(i', measure, pageWidth), ResumePdf.ItemBlocks(items[|items| - 1], measure, pageWidth));
    }
  }

  lemma SectionAgrees(s: Section, measure: ResumePdf.Measure, pageWidth: int)
    ensures WordOf(ResumePdf.SectionBlocks(s, measure, pageWidth)) == SectionParagraphs(s)
  {
    var head := [ResumePdf.SectionTitle(Text.ToUpper(s.title)), ResumePdf.SectionRule];
    var items := ResumePdf.ItemsBlocks(s.items, measure, pageWidth);
    assert head[..1] == [head[0]];
    WordOfSingle(head[0]);
    assert WordOf(head) == [SectionTitleParagraph(Text.ToUpper(s.title))];
    WordOfConcat(head, items);
    ItemsAgree(s.items, measure, pageWidth);
  }

  lemma {:induction false} SectionsAgree(ss: seq<Section>, measure: ResumePdf.Measure, pageWidth: int)
    ensures WordOf(ResumePdf.SectionsBlocks(ss, measure, pageWidth)) == SectionsParagraphs(ss)
  {
    if ss != [] {
      var s' := ss[..|ss| - 1];
      SectionsAgree(s', measure, pageWidth);
      SectionAgrees(ss[|ss| - 1], measure, pageWidth);
      WordOfConcat(ResumePdf.SectionsBlocks(s', measure, pageWidth), ResumePdf.SectionBlocks(ss[|ss| - 1], measure, pageWidth));
    }
  }

  /**
   * Both résumé exports show the same content in the same order: dropping
   * the rule under the header and the rule under each section title from
   * the PDF's blocks gives exactly the Word document's paragraphs.
   */
  lemma ResumeExportsAgree(r: Resume, measure: ResumePdf.Measure, pageWidth: int)
    ensures WordOf(ResumePdf.ResumeBlocks(r, measure, pageWidth)) == ResumeParagraphs(r)
  {
    var head := ResumePdf.HeadBlocks(r, measure, pageWidth);
    assert head == [head[0]] + [head[1]] + [head[2]] + [head[3]];
    WordOfSingle(head[0]);
    WordOfSingle(head[1]);
    WordOfSingle(head[2]);
    WordOfSingle(head[3]);
    WordOfConcat([head[0]], [head[1]]);
    WordOfConcat([head[0]] + [head[1]], [head[2]]);
    WordOfConcat([head[0]] + [head[1]] + [head[2]], [head[3]]);
    assert WordOf(head) == HeadParagraphs(r);
    WordOfConcat(head, ResumePdf.SectionsBlocks(r.sections, measure, pageWidth));
    SectionsAgree(r.sections, measure, pageWidth);
  }

  // ---------------------------------------------------------------------------
  // Analysis report.
  // ---------------------------------------------------------------------------

  /** The text a paragraph shows: its runs, concatenated. */
  function RunsText(runs: seq<Run>): string
  {
    if runs == [] then [] else runs[0].text + RunsText(runs[1..])
  }

  lemma RunsTextPair(a: Run, b: Run)
    ensures RunsText([a, b]) == a.text + b.text
  {
    assert [a, b][1..] == [b];
    RunsTextSingle(b);
  }

  lemma RunsTextSingle(a: Run)
    ensures RunsText([a]) == a.text
  {
    assert [a][1..] == [];
    assert a.text + [] == a.text;
  }

  function BlockText(b: ReportPdf.ReportBlock): string
  {
    match b
    case ReportTitle(t) => t
    case ScoreLine(t) => t
    case SectionHeading(t) => t
    case TextBlock(t, _) => t
  }

  function ParagraphTexts(ps: seq<Paragraph>): seq<string>
  {
    seq(|ps|, k requires 0 <= k < |ps| => RunsText(ps[k].runs))
  }

  function BlockTexts(bs: seq<ReportPdf.ReportBlock>): seq<string>
  {
    seq(|bs|, k requires 0 <= k < |bs| => BlockText(bs[k]))
  }

  lemma ParagraphTextsConcat(a: seq<Paragraph>, b: seq<Paragraph>)
    ensures ParagraphTexts(a + b) == ParagraphTexts(a) + ParagraphTexts(b)
  {
    assert forall k :: 0 <= k < |a + b| ==> ParagraphTexts(a + b)[k] == (ParagraphTexts(a) + ParagraphTexts(b))[k];
  }

  lemma BlockTextsConcat(a: seq<ReportPdf.ReportBlock>, b: seq<ReportPdf.ReportBlock>)
    ensures BlockTexts(a + b) == BlockTexts(a) + BlockTexts(b)
  {
    assert forall k :: 0 <= k < |a + b| ==> BlockTexts(a + b)[k] == (BlockTexts(a) + BlockTexts(b))[k];
  }

  lemma {:induction false} ListAgrees(items: seq<string>, measure: ReportPdf.Measure)
    ensures ParagraphTexts(ListParagraphs(items)) == BlockTexts(ReportPdf.ListBlocks(items, measure))
  {
    if items != [] {
      var i' := items[..|items| - 1];
      var x := items[|items| - 1];
      ListAgrees(i', measure);
      ParagraphTextsConcat(ListParagraphs(i'), [BulletParagraph(x)]);
      BlockTextsConcat(ReportPdf.ListBlocks(i', measure), [ReportPdf.LinesBlock("• " + x, measure)]);
      RunsTextPair(Plain("• "), Plain(x));
    }
  }

  lemma SectionAgreesInReport(title: string, items: seq<string>, isList: bool, measure: ReportPdf.Measure)
    ensures ParagraphTexts(ReportSectionParagraphs(title, items, isList))
            == BlockTexts(ReportPdf.SectionBlocks(title, items, isList, measure))
  {
    var ps := if isList then ListParagraphs(items) else [KeywordParagraph(items)];
    var bs := if isList then ReportPdf.ListBlocks(items, measure) else [ReportPdf.LinesBlock(Text.Join(items, ", "), measure)];
    ParagraphTextsConcat([ReportSectionHeading(title)], ps);
    BlockTextsConcat([ReportPdf.SectionHeading(title)], bs);
    if isList {
      ListAgrees(items, measure);
    } else {
      RunsTextSingle(Plain(Text.Join(items, ", ")));
    }
    RunsTextSingle(Plain(title));
  }

  /**
   * Both report exports show the same lines in the same order: the k-th
   * Word paragraph reads exactly as the k-th PDF text block.
   */
  lemma ReportExportsAgree(a: AnalysisResult, measure: ReportPdf.Measure)
    ensures |ReportParagraphs(a)| == |ReportPdf.ReportBlocks(a, measure)|
    ensures ParagraphTexts(ReportParagraphs(a)) == BlockTexts(ReportPdf.ReportBlocks(a, measure))
  {
    var p0 := [ReportTitleParagraph(), ReportScoreParagraph(a.atsScore)];
    var b0 := [ReportPdf.ReportTitle(ReportPdf.ReportTitleText), ReportPdf.ScoreLine(ScoreText(a.atsScore))];
    var p1 := ReportSectionParagraphs(ReportPdf.MatchedTitle, a.matchedKeywords, false);
    var b1 := ReportPdf.SectionBlocks(ReportPdf.MatchedTitle, a.matchedKeywords, false, measure);
    var p2 := ReportSectionParagraphs(ReportPdf.MissingTitle, a.missingKeywords, false);
    var b2 := ReportPdf.SectionBlocks(ReportPdf.MissingTitle, a.missingKeywords, false, measure);
    var p3 := ReportSectionParagraphs(ReportPdf.GapsTitle, a.skillGaps, true);
    var b3 := ReportPdf.SectionBlocks(ReportPdf.GapsTitle, a.skillGaps, true, measure);
    var p4 := ReportSectionParagraphs(ReportPdf.SuggestionsTitle, a.suggestions, true);
    var b4 := ReportPdf.SectionBlocks(ReportPdf.SuggestionsTitle, a.suggestions, true, measure);
    RunsTextSingle(Plain(ReportPdf.ReportTitleText));
    RunsTextSingle(Plain(ScoreText(a.atsScore)));
    assert ParagraphTexts(p0) == BlockTexts(b0);
    SectionAgreesInReport(ReportPdf.MatchedTitle, a.matchedKeywords, false, measure);
    SectionAgreesInReport(ReportPdf.MissingTitle, a.missingKeywords, false, measure);
    SectionAgreesInReport(ReportPdf.GapsTitle, a.skillGaps, true, measure);
    SectionAgreesInReport(ReportPdf.SuggestionsTitle, a.suggestions, true, measure);
    ParagraphTextsConcat(p1, p2);
    ParagraphTextsConcat(p1 + p2, p3);
    ParagraphTextsConcat(p1 + p2 + p3, p4);
    ParagraphTextsConcat(p0, p1 + p2 + p3 + p4);
    BlockTextsConcat(b1, b2);
    BlockTextsConcat(b1 + b2, b3);
    BlockTextsConcat(b1 + b2 + b3, b4);
    BlockTextsConcat(b0, b1 + b2 + b3 + b4);
    assert ReportPdf.ReportBlocks(a, measure) == b0 + (b1 + b2 + b3 + b4);
    assert ReportParagraphs(a) == p0 + (p1 + p2 + p3 + p4);
  }
}
