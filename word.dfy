/**
 * The two Word exporters of script.js, `exportEnhancedResumeToWord` and
 * `exportAnalysisToWord` with its `createSection` helper: each builds the
 * ordered list of docx paragraphs handed to `new Document`.
 */
module Word {
  import opened Wrappers
  import opened Analysis
  import Text
  import Pager

  /** `HeadingLevel.TITLE`, `HEADING_1`, `HEADING_2`, or no heading. */
  datatype Heading = Title | Heading1 | Heading2 | Body

  /** A `TextRun`. */
  datatype Run = Run(text: string, italics: bool)

  /**
   * A `Paragraph`: heading level, runs, whether it is centred, and the
   * `spacing` before and after it (0 where the source gives none).
   */
  datatype Paragraph = Paragraph(heading: Heading, runs: seq<Run>, centered: bool, before: nat, after: nat)

  function Plain(text: string): Run { Run(text, false) }

  // ---------------------------------------------------------------------------
  // The enhanced résumé.
  // ---------------------------------------------------------------------------

  function NameParagraph(name: string): Paragraph { Paragraph(Title, [Plain(name)], true, 0, 200) }

  function ContactParagraph(contact: string): Paragraph { Paragraph(Body, [Plain(contact)], true, 0, 400) }

  function SummaryParagraph(summary: string): Paragraph { Paragraph(Body, [Plain(summary)], false, 200, 400) }

  function SectionTitleParagraph(title: string): Paragraph { Paragraph(Heading1, [Plain(title)], false, 400, 200) }

  function HeaderParagraph(header: string): Paragraph { Paragraph(Heading2, [Plain(header)], false, 200, 100) }

  function SubheaderParagraph(subheader: string): Paragraph { Paragraph(Body, [Run(subheader, true)], false, 100, 200) }

  /** A bulleted line: a `"• "` run followed by the text. */
  function BulletParagraph(text: string): Paragraph {
    Paragraph(Body, [Plain("• "), Plain(text)], false, 100, 100)
  }

  function PointParagraphs(points: seq<string>): seq<Paragraph>
  {
    if points == [] then [] else PointParagraphs(points[..|points| - 1]) + [BulletParagraph(points[|points| - 1])]
  }

  function ItemHeadParagraphs(item: Item): seq<Paragraph>
  {
    [HeaderParagraph(item.header)] + (if HasSubheader(item) then [SubheaderParagraph(item.subheader)] else [])
  }

  function ItemParagraphs(item: Item): seq<Paragraph>
  {
    ItemHeadParagraphs(item) + PointParagraphs(item.points)
  }

  function ItemsParagraphs(items: seq<Item>): seq<Paragraph>
  {
    if items == [] then [] else ItemsParagraphs(items[..|items| - 1]) + ItemParagraphs(items[|items| - 1])
  }

  function SectionParagraphs(s: Section): seq<Paragraph>
  {
    [SectionTitleParagraph(Text.ToUpper(s.title))] + ItemsParagraphs(s.items)
  }

  function SectionsParagraphs(ss: seq<Section>): seq<Paragraph>
  {
    if ss == [] then [] else SectionsParagraphs(ss[..|ss| - 1]) + SectionParagraphs(ss[|ss| - 1])
  }

  function HeadParagraphs(r: Resume): seq<Paragraph>
  {
    [NameParagraph(r.name), ContactParagraph(Text.Join(r.contact, " | ")), SummaryParagraph(r.summary)]
  }

  /** The paragraphs of the enhanced résumé, in model order. */
  function ResumeParagraphs(r: Resume): seq<Paragraph>
  {
    HeadParagraphs(r) + SectionsParagraphs(r.sections)
  }

  // ---------------------------------------------------------------------------
  // How many paragraphs, and of which level, the résumé produces.
  // ---------------------------------------------------------------------------

  /** One header, one subheader when present, one bullet per point. */
  function ItemSize(item: Item): nat
  {
    1 + (if HasSubheader(item) then 1 else 0) + |item.points|
  }

  function ItemsSize(items: seq<Item>): nat
  {
    if items == [] then 0 else ItemSize(items[0]) + ItemsSize(items[1..])
  }

  /** Per section its heading plus what its items contribute. */
  function SectionsSize(ss: seq<Section>): nat
  {
    if ss == [] then 0 else 1 + ItemsSize(ss[0].items) + SectionsSize(ss[1..])
  }

  /** How many paragraphs of a list are at heading level `h`. */
  function LevelCount(ps: seq<Paragraph>, h: Heading): nat
  {
    if ps == [] then 0 else (if ps[0].heading == h then 1 else 0) + LevelCount(ps[1..], h)
  }

  lemma {:induction false} ItemsSizeConcat(a: seq<Item>, b: seq<Item>)
    ensures ItemsSize(a + b) == ItemsSize(a) + ItemsSize(b)
  {
    if a == [] {
      assert a + b == b;
    } else {
      assert (a + b)[1..] == a[1..] + b;
      ItemsSizeConcat(a[1..], b);
    }
  }

  lemma {:induction false} SectionsSizeConcat(a: seq<Section>, b: seq<Section>)
    ensures SectionsSize(a + b) == SectionsSize(a) + SectionsSize(b)
  {
    if a == [] {
      assert a + b == b;
    } else {
      assert (a + b)[1..] == a[1..] + b;
      SectionsSizeConcat(a[1..], b);
    }
  }

  lemma {:induction false} ItemCountConcat(a: seq<Section>, b: seq<Section>)
    ensures ItemCount(a + b) == ItemCount(a) + ItemCount(b)
  {
    if a == [] {
      assert a + b == b;
    } else {
      assert (a + b)[1..] == a[1..] + b;
      ItemCountConcat(a[1..], b);
    }
  }

  lemma {:induction false} LevelCountConcat(a: seq<Paragraph>, b: seq<Paragraph>, h: Heading)
    ensures LevelCount(a + b, h) == LevelCount(a, h) + LevelCount(b, h)
  {
    if a == [] {
      assert a + b == b;
    } else {
      assert (a + b)[1..] == a[1..] + b;
      LevelCountConcat(a[1..], b, h);
    }
  }

  /** One bullet paragraph per point, none of them a heading. */
  lemma {:induction false} PointParagraphsShape(points: seq<string>)
    ensures |PointParagraphs(points)| == |points|
    ensures LevelCount(PointParagraphs(points), Heading1) == 0
    ensures LevelCount(PointParagraphs(points), Heading2) == 0
  {
    if points != [] {
      var p' := points[..|points| - 1];
      PointParagraphsShape(p');
      var b := [BulletParagraph(points[|points| - 1])];
      assert b[1..] == [];
      LevelCountConcat(PointParagraphs(p'), b, Heading1);
      LevelCountConcat(PointParagraphs(p'), b, Heading2);
    }
  }

  lemma ItemParagraphsShape(item: Item)
    ensures |ItemParagraphs(item)| == ItemSize(item)
    ensures LevelCount(ItemParagraphs(item), Heading1) == 0
    ensures LevelCount(ItemParagraphs(item), Heading2) == 1
  {
    PointParagraphsShape(item.points);
    var head := ItemHeadParagraphs(item);
    assert head[1..] == (if HasSubheader(item) then [SubheaderParagraph(item.subheader)] else []);
    if HasSubheader(item) {
      assert head[1..][1..] == [];
    }
    LevelCountConcat(head, PointParagraphs(item.points), Heading1);
    LevelCountConcat(head, PointParagraphs(item.points), Heading2);
  }

  /** Each item gives exactly one HEADING_2, and the sections' items give no HEADING_1. */
  lemma {:induction false} ItemsParagraphsShape(items: seq<Item>)
    ensures |ItemsParagraphs(items)| == ItemsSize(items)
    ensures LevelCount(ItemsParagraphs(items), Heading1) == 0
    ensures LevelCount(ItemsParagraphs(items), Heading2) == |items|
  {
    if items != [] {
      var i' := items[..|items| - 1];
      var last := items[|items| - 1];
      ItemsParagraphsShape(i');
      ItemParagraphsShape(last);
      assert i' + [last] == items;
      ItemsSizeConcat(i', [last]);
      assert [last][1..] == [];
      LevelCountConcat(ItemsParagraphs(i'), ItemParagraphs(last), Heading1);
      LevelCountConcat(ItemsParagraphs(i'), ItemParagraphs(last), Heading2);
    }
  }

  lemma {:induction false} SectionsParagraphsShape(ss: seq<Section>)
    ensures |SectionsParagraphs(ss)| == SectionsSize(ss)
    ensures LevelCount(SectionsParagraphs(ss), Heading1) == |ss|
    ensures LevelCount(SectionsParagraphs(ss), Heading2) == ItemCount(ss)
  {
    if ss != [] {
      var s' := ss[..|ss| - 1];
      var last := ss[|ss| - 1];
      SectionsParagraphsShape(s');
      ItemsParagraphsShape(last.items);
      assert s' + [last] == ss;
      SectionsSizeConcat(s', [last]);
      ItemCountConcat(s', [last]);
      assert [last][1..] == [];
      var title := [SectionTitleParagraph(Text.ToUpper(last.title))];
      assert title[1..] == [];
      LevelCountConcat(title, ItemsParagraphs(last.items), Heading1);
      LevelCountConcat(title, ItemsParagraphs(last.items), Heading2);
      LevelCountConcat(SectionsParagraphs(s'), SectionParagraphs(last), Heading1);
      LevelCountConcat(SectionsParagraphs(s'), SectionParagraphs(last), Heading2);
    }
  }

  /**
   * The enhanced résumé in Word: 3 + the sum over sections of (1 + the sum
   * over items of 1 + [subheader] + |points|) paragraphs, one TITLE, one
   * HEADING_1 per section and one HEADING_2 per item.
   */
  lemma ResumeParagraphsShape(r: Resume)
    ensures |ResumeParagraphs(r)| == 3 + SectionsSize(r.sections)
    ensures LevelCount(ResumeParagraphs(r), Title) == 1
    ensures LevelCount(ResumeParagraphs(r), Heading1) == |r.sections|
    ensures LevelCount(ResumeParagraphs(r), Heading2) == ItemCount(r.sections)
  {
    var head := HeadParagraphs(r);
    HeadShape(r);
    SectionsParagraphsShape(r.sections);
    LevelCountConcat(head, SectionsParagraphs(r.sections), Title);
    LevelCountConcat(head, SectionsParagraphs(r.sections), Heading1);
    LevelCountConcat(head, SectionsParagraphs(r.sections), Heading2);
    TitleFree(SectionsParagraphs(r.sections), r.sections);
  }

  lemma LevelCountSingle(p: Paragraph, h: Heading)
    ensures LevelCount([p], h) == if p.heading == h then 1 else 0
  {
    assert [p][1..] == [];
  }

  lemma HeadShape(r: Resume)
    ensures LevelCount(HeadParagraphs(r), Title) == 1
    ensures LevelCount(HeadParagraphs(r), Heading1) == 0
    ensures LevelCount(HeadParagraphs(r), Heading2) == 0
  {
    var head := HeadParagraphs(r);
    assert head == [head[0]] + [head[1], head[2]];
    assert [head[1], head[2]] == [head[1]] + [head[2]];
    forall h: Heading | h != Body
      ensures LevelCount(head, h) == (if h == Title then 1 else 0)
    {
      LevelCountSingle(head[0], h);
      LevelCountSingle(head[1], h);
      LevelCountSingle(head[2], h);
      LevelCountConcat([head[1]], [head[2]], h);
      LevelCountConcat([head[0]], [head[1], head[2]], h);
    }
  }

  /** Only the name paragraph is a TITLE. */
  lemma TitleFree(ps: seq<Paragraph>, ss: seq<Section>)
    requires ps == SectionsParagraphs(ss)
    ensures LevelCount(ps, Title) == 0
  {
    SectionsNoTitle(ss);
    NoTitleCount(ps);
  }

  lemma {:induction false} NoTitleCount(ps: seq<Paragraph>)
    requires forall k :: 0 <= k < |ps| ==> ps[k].heading != Title
    ensures LevelCount(ps, Title) == 0
  {
    if ps != [] {
      NoTitleCount(ps[1..]);
    }
  }

  lemma {:induction false} SectionsNoTitle(ss: seq<Section>)
    ensures forall k :: 0 <= k < |SectionsParagraphs(ss)| ==> SectionsParagraphs(ss)[k].heading != Title
  {
    if ss != [] {
      SectionsNoTitle(ss[..|ss| - 1]);
      ItemsNoTitle(ss[|ss| - 1].items);
    }
  }

  lemma {:induction false} ItemsNoTitle(items: seq<Item>)
    ensures forall k :: 0 <= k < |ItemsParagraphs(items)| ==> ItemsParagraphs(items)[k].heading != Title
  {
    if items != [] {
      ItemsNoTitle(items[..|items| - 1]);
      PointsNoTitle(items[|items| - 1].points);
    }
  }

  lemma {:induction false} PointsNoTitle(points: seq<string>)
    ensures forall k :: 0 <= k < |PointParagraphs(points)| ==> PointParagraphs(points)[k].heading != Title
  {
    if points != [] {
      PointsNoTitle(points[..|points| - 1]);
    }
  }

  /** The body of the item callback: header, optional italic subheader, then one bullet per point. */
  method PushItem(children: seq<Paragraph>, item: Item) returns (result: seq<Paragraph>)
    ensures result == children + ItemParagraphs(item)
  {
    result := children + [HeaderParagraph(item.header)];
    if HasSubheader(item) {
      result := result + [SubheaderParagraph(item.subheader)];
    }
    var k := 0;
    while k < |item.points|
      invariant 0 <= k <= |item.points|
      invariant result == children + ItemHeadParagraphs(item) + PointParagraphs(item.points[..k])
    {
      assert item.points[..k + 1][..k] == item.points[..k];
      Pager.ConcatAssoc(children + ItemHeadParagraphs(item), PointParagraphs(item.points[..k]), [BulletParagraph(item.points[k])]);
      result := result + [BulletParagraph(item.points[k])];
      k := k + 1;
    }
    assert item.points[..k] == item.points;
    Pager.ConcatAssoc(children, ItemHeadParagraphs(item), PointParagraphs(item.points));
  }

  /**
   * `exportEnhancedResumeToWord`: nothing without an enhanced résumé;
   * otherwise title, contact and summary paragraphs, then per section its
   * heading, per item its header, optional italic subheader and bullets.
   */
  method ExportEnhancedResumeToWord(analysis: Option<AnalysisResult>) returns (doc: Option<seq<Paragraph>>)
    ensures analysis.None? || analysis.value.enhancedResume.None? ==> doc.None?
    ensures analysis.Some? && analysis.value.enhancedResume.Some? ==>
              doc == Some(ResumeParagraphs(analysis.value.enhancedResume.value))
  {
    if analysis.None? || analysis.value.enhancedResume.None? {
      return None;
    }
    var r := analysis.value.enhancedResume.value;
    var children := [NameParagraph(r.name), ContactParagraph(Text.Join(r.contact, " | ")), SummaryParagraph(r.summary)];
    var i := 0;
    while i < |r.sections|
      invariant 0 <= i <= |r.sections|
      invariant children == HeadParagraphs(r) + SectionsParagraphs(r.sections[..i])
    {
      var section := r.sections[i];
      ghost var before := children;
      children := children + [SectionTitleParagraph(Text.ToUpper(section.title))];
      var j := 0;
      while j < |section.items|
        invariant 0 <= j <= |section.items|
        invariant children == before + [SectionTitleParagraph(Text.ToUpper(section.title))] + ItemsParagraphs(section.items[..j])
      {
        var item := section.items[j];
        children := PushItem(children, item);
        assert section.items[..j + 1][..j] == section.items[..j];
        Pager.ConcatAssoc(before + [SectionTitleParagraph(Text.ToUpper(section.title))], ItemsParagraphs(section.items[..j]), ItemParagraphs(item));
        j := j + 1;
      }
      assert section.items[..j] == section.items;
      assert r.sections[..i + 1][..i] == r.sections[..i];
      Pager.ConcatAssoc(before, [SectionTitleParagraph(Text.ToUpper(section.title))], ItemsParagraphs(section.items));
      Pager.ConcatAssoc(HeadParagraphs(r), SectionsParagraphs(r.sections[..i]), SectionParagraphs(section));
      i := i + 1;
    }
    assert r.sections[..i] == r.sections;
    doc := Some(children);
  }

  // ---------------------------------------------------------------------------
  // The analysis report.
  // ---------------------------------------------------------------------------

  function ReportTitleParagraph(): Paragraph {
    Paragraph(Title, [Plain("Resume Analysis Report")], false, 200, 200)
  }

  function ReportScoreParagraph(atsScore: Option<int>): Paragraph {
    Paragraph(Heading1, [Plain(ScoreText(atsScore))], false, 200, 200)
  }

  function ReportSectionHeading(title: string): Paragraph { Paragraph(Heading2, [Plain(title)], false, 400, 200) }

  /** The whole keyword list on one line, separated by commas. */
  function KeywordParagraph(items: seq<string>): Paragraph {
    Paragraph(Body, [Plain(Text.Join(items, ", "))], false, 100, 100)
  }

  function ListParagraphs(items: seq<string>): seq<Paragraph>
  {
    if items == [] then [] else ListParagraphs(items[..|items| - 1]) + [BulletParagraph(items[|items| - 1])]
  }

  function ReportSectionParagraphs(title: string, items: seq<string>, isList: bool): seq<Paragraph>
  {
    [ReportSectionHeading(title)] + (if isList then ListParagraphs(items) else [KeywordParagraph(items)])
  }

  function ReportParagraphs(a: AnalysisResult): seq<Paragraph>
  {
    [ReportTitleParagraph(), ReportScoreParagraph(a.atsScore)]
    + ReportSectionParagraphs("Matched Keywords", a.matchedKeywords, false)
    + ReportSectionParagraphs("Missing Keywords", a.missingKeywords, false)
    + ReportSectionParagraphs("Skill Gaps", a.skillGaps, true)
    + ReportSectionParagraphs("Improvement Suggestions", a.suggestions, true)
  }

  lemma {:induction false} ListParagraphsLength(items: seq<string>)
    ensures |ListParagraphs(items)| == |items|
  {
    if items != [] {
      ListParagraphsLength(items[..|items| - 1]);
    }
  }

  /** Title, score, two headed keyword lines, and two headed lists with one paragraph per entry. */
  lemma ReportParagraphCount(a: AnalysisResult)
    ensures |ReportParagraphs(a)| == 8 + |a.skillGaps| + |a.suggestions|
  {
    ListParagraphsLength(a.skillGaps);
    ListParagraphsLength(a.suggestions);
  }

  /**
   * `createSection(title, items, isList)`: a HEADING_2 title, then one bullet
   * per item for a list, or a single comma-joined paragraph otherwise.
   */
  method CreateSection(title: string, items: seq<string>, isList: bool) returns (children: seq<Paragraph>)
    ensures |children| == 1 + (if isList then |items| else 1)
    ensures children[0] == ReportSectionHeading(title)
    ensures isList ==> forall k :: 0 <= k < |items| ==> children[k + 1] == BulletParagraph(items[k])
    ensures !isList ==> children[1] == KeywordParagraph(items)
    ensures children == ReportSectionParagraphs(title, items, isList)
  {
    children := [ReportSectionHeading(title)];
    if isList {
      var i := 0;
      while i < |items|
        invariant 0 <= i <= |items|
        invariant children == [ReportSectionHeading(title)] + ListParagraphs(items[..i])
        invariant |children| == 1 + i
        invariant forall k :: 0 <= k < i ==> children[k + 1] == BulletParagraph(items[k])
      {
        assert items[..i + 1][..i] == items[..i];
        children := children + [BulletParagraph(items[i])];
        i := i + 1;
      }
      assert items[..i] == items;
    } else {
      children := children + [KeywordParagraph(items)];
    }
  }

  /** `exportAnalysisToWord`: nothing without an analysis; otherwise title, score, then the four sections. */
  method ExportAnalysisToWord(analysis: Option<AnalysisResult>) returns (doc: Option<seq<Paragraph>>)
    ensures analysis.None? ==> doc.None?
    ensures analysis.Some? ==> doc == Some(ReportParagraphs(analysis.value))
  {
    if analysis.None? {
      return None;
    }
    var a := analysis.value;
    var matched := CreateSection("Matched Keywords", a.matchedKeywords, false);
    var missing := CreateSection("Missing Keywords", a.missingKeywords, false);
    var gaps := CreateSection("Skill Gaps", a.skillGaps, true);
    var suggestions := CreateSection("Improvement Suggestions", a.suggestions, true);
    doc := Some([ReportTitleParagraph(), ReportScoreParagraph(a.atsScore)] + matched + missing + gaps + suggestions);
  }
}
