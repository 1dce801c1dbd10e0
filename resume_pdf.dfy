/**
 * `exportEnhancedResumeToPDF` (script.js): a single greedy pass that draws the
 * enhanced résumé top to bottom, starting a new page whenever the space a
 * block reserves would cross the bottom margin.
 */
module ResumePdf {
  import opened Wrappers
  import opened Analysis
  import opened Pager
  import Text

  /** What the exporter draws, in the order it draws it. */
  datatype ResumeBlock =
    | NameLine(text: string)
    | ContactLine(text: string)
    | HeaderRule
    | SummaryText(text: string, lines: nat)
    | SectionTitle(text: string)
    | SectionRule
    | ItemHeader(text: string)
    | ItemSubheader(text: string)
    | Point(text: string, lines: nat)

  /** `doc.splitTextToSize(text, width).length`: the wrapped line count of a text at a width. */
  type Measure = (string, int) -> nat

  /** The page margin in points. */
  const Margin: int := 40

  /** Result of one export: everything drawn, and the page count. */
  datatype Layout = Layout(placed: seq<Placed<ResumeBlock>>, pageCount: nat)

  function SummaryWidth(pageWidth: int): int { pageWidth - Margin * 2 }

  function PointWidth(pageWidth: int): int { pageWidth - Margin * 2 - 15 }

  // ---------------------------------------------------------------------------
  // The block sequence of a résumé, in model order: the reference the page
  // layout is checked against.
  // ---------------------------------------------------------------------------

  function HeadBlocks(r: Resume, measure: Measure, pageWidth: int): seq<ResumeBlock>
  {
    [NameLine(r.name), ContactLine(Text.Join(r.contact, " | ")), HeaderRule,
     SummaryText(r.summary, measure(r.summary, SummaryWidth(pageWidth)))]
  }

  function PointBlock(point: string, measure: Measure, pageWidth: int): ResumeBlock
  {
    Point(point, measure(point, PointWidth(pageWidth)))
  }

  function PointBlocks(points: seq<string>, measure: Measure, pageWidth: int): seq<ResumeBlock>
  {
    if points == [] then []
    else PointBlocks(points[..|points| - 1], measure, pageWidth)
         + [PointBlock(points[|points| - 1], measure, pageWidth)]
  }

  /** An item's header, and its subheader when it has one. */
  function ItemHeadBlocks(item: Item): seq<ResumeBlock>
  {
    [ItemHeader(item.header)] + (if HasSubheader(item) then [ItemSubheader(item.subheader)] else [])
  }

  function ItemBlocks(item: Item, measure: Measure, pageWidth: int): seq<ResumeBlock>
  {
    ItemHeadBlocks(item) + PointBlocks(item.points, measure, pageWidth)
  }

  function ItemsBlocks(items: seq<Item>, measure: Measure, pageWidth: int): seq<ResumeBlock>
  {
    if items == [] then []
    else ItemsBlocks(items[..|items| - 1], measure, pageWidth)
         + ItemBlocks(items[|items| - 1], measure, pageWidth)
  }

  function SectionBlocks(s: Section, measure: Measure, pageWidth: int): seq<ResumeBlock>
  {
    [SectionTitle(Text.ToUpper(s.title)), SectionRule] + ItemsBlocks(s.items, measure, pageWidth)
  }

  function SectionsBlocks(ss: seq<Section>, measure: Measure, pageWidth: int): seq<ResumeBlock>
  {
    if ss == [] then []
    else SectionsBlocks(ss[..|ss| - 1], measure, pageWidth)
         + SectionBlocks(ss[|ss| - 1], measure, pageWidth)
  }

  function ResumeBlocks(r: Resume, measure: Measure, pageWidth: int): seq<ResumeBlock>
  {
    HeadBlocks(r, measure, pageWidth) + SectionsBlocks(r.sections, measure, pageWidth)
  }

  lemma PointBlocksSnoc(points: seq<string>, i: nat, measure: Measure, pageWidth: int)
    requires i < |points|
    ensures PointBlocks(points[..i + 1], measure, pageWidth)
            == PointBlocks(points[..i], measure, pageWidth) + [PointBlock(points[i], measure, pageWidth)]
  {
    assert points[..i + 1][..i] == points[..i];
  }

  lemma ItemsBlocksSnoc(items: seq<Item>, i: nat, measure: Measure, pageWidth: int)
    requires i < |items|
    ensures ItemsBlocks(items[..i + 1], measure, pageWidth)
            == ItemsBlocks(items[..i], measure, pageWidth) + ItemBlocks(items[i], measure, pageWidth)
  {
    assert items[..i + 1][..i] == items[..i];
  }

  lemma SectionsBlocksSnoc(ss: seq<Section>, i: nat, measure: Measure, pageWidth: int)
    requires i < |ss|
    ensures SectionsBlocks(ss[..i + 1], measure, pageWidth)
            == SectionsBlocks(ss[..i], measure, pageWidth) + SectionBlocks(ss[i], measure, pageWidth)
  {
    assert ss[..i + 1][..i] == ss[..i];
  }

  // ---------------------------------------------------------------------------
  // The greedy placement: where each block lands, given where the one before did.
  // ---------------------------------------------------------------------------

  /** Blocks that are preceded by a `checkPageBreak`. */
  predicate Checked(b: ResumeBlock) {
    b.SectionTitle? || b.ItemHeader? || b.ItemSubheader? || b.Point?
  }

  /** The space the check before a block asks for. */
  function Reserve(b: ResumeBlock): int
    requires Checked(b)
  {
    match b
    case SectionTitle(_) => 50
    case ItemHeader(_) => 30
    case ItemSubheader(_) => 15
    case Point(_, n) => n * 14
  }

  /** How far below the checked position the block is drawn (a section title sits 20 lower). */
  function Offset(b: ResumeBlock): int {
    if b.SectionTitle? then 20 else 0
  }

  /** How far `y` moves down right after a block is drawn. */
  function Advance(b: ResumeBlock): int {
    match b
    case NameLine(_) => 20
    case ContactLine(_) => 20
    case HeaderRule => 25
    case SummaryText(_, n) => n * 14
    case SectionTitle(_) => 8
    case SectionRule => 20
    case ItemHeader(_) => 15
    case ItemSubheader(_) => 15
    case Point(_, n) => n * 14
  }

  /** The blocks of an item; once an item is finished `y` moves a further 10. */
  predicate ItemPart(b: ResumeBlock) {
    b.ItemHeader? || b.ItemSubheader? || b.Point?
  }

  /** The blocks that start a new item or section, and so finish the item before them. */
  predicate OpensUnit(b: ResumeBlock) {
    b.ItemHeader? || b.SectionTitle?
  }

  /** How far `y` moves between drawing `prev` and the check (or drawing) before `next`. */
  function Gap(prev: ResumeBlock, next: ResumeBlock): int {
    Advance(prev) + (if ItemPart(prev) && OpensUnit(next) then 10 else 0)
  }

  /** `checkPageBreak` before `b`, with the cursor at `y`, starts a new page. */
  predicate ForcesBreak(y: int, b: ResumeBlock, limit: int) {
    Checked(b) && y + Reserve(b) > limit
  }

  /**
   * Where `b` is drawn when the drawing before it was `a`: on the next page at
   * the margin when its check forces a break, otherwise on the same page at
   * the cursor; a section title then sits a further 20 down.
   */
  function PlaceAfter(a: Placed<ResumeBlock>, b: ResumeBlock, limit: int): (p: Placed<ResumeBlock>)
    ensures p.block == b
    ensures ForcesBreak(a.y + Gap(a.block, b), b, limit) ==> p.page == a.page + 1 && p.y == Margin + Offset(b)
    ensures !ForcesBreak(a.y + Gap(a.block, b), b, limit) ==> p.page == a.page && p.y == a.y + Gap(a.block, b) + Offset(b)
  {
    var y := a.y + Gap(a.block, b);
    if ForcesBreak(y, b, limit) then Placed(a.page + 1, Margin + Offset(b), b)
    else Placed(a.page, y + Offset(b), b)
  }

  /** The greedy placement as a rule for `GreedyLayout`, for a page whose content ends at `limit`. */
  function Placer(limit: int): (place: (Placed<ResumeBlock>, ResumeBlock) -> Placed<ResumeBlock>)
    ensures forall a, b :: place(a, b) == PlaceAfter(a, b, limit)
  {
    (a, b) => PlaceAfter(a, b, limit)
  }

  // ---------------------------------------------------------------------------
  // What the break checks guarantee.
  // ---------------------------------------------------------------------------

  /**
   * The `k`-th drawing kept its reservation: the reserved space fits above
   * `limit`, or else the block was moved to the top of a fresh page.
   */
  ghost predicate KeptReserve(ps: seq<Placed<ResumeBlock>>, k: int, limit: int)
    requires 0 <= k < |ps|
  {
    || !Checked(ps[k].block)
    || ps[k].y - Offset(ps[k].block) + Reserve(ps[k].block) <= limit
    || (0 < k && ps[k].page == ps[k - 1].page + 1 && ps[k].y - Offset(ps[k].block) == Margin)
  }

  ghost predicate ReservesKept(ps: seq<Placed<ResumeBlock>>, limit: int) {
    forall k :: 0 <= k < |ps| ==> KeptReserve(ps, k, limit)
  }

  /** The greedy placement keeps every reservation when the first block needs none. */
  lemma GreedyKeepsReserves(ps: seq<Placed<ResumeBlock>>, limit: int)
    requires Greedy(Placer(limit), ps) && (ps != [] ==> !Checked(ps[0].block))
    ensures ReservesKept(ps, limit)
  {
    forall k | 0 <= k < |ps| ensures KeptReserve(ps, k, limit) {
      if 0 < k {
        assert Follows(Placer(limit), ps[k - 1], ps[k]);
      }
    }
  }

  /**
   * Every bullet point lies on one page inside the printable area, unless the
   * point alone is taller than that area; then it starts at the top margin
   * and overflows the bottom one.
   */
  ghost predicate PointsFit(ps: seq<Placed<ResumeBlock>>, limit: int) {
    forall k :: 0 <= k < |ps| && ps[k].block.Point? ==>
      ps[k].y + ps[k].block.lines * 14 <= limit
      || (ps[k].y == Margin && Margin + ps[k].block.lines * 14 > limit)
  }

  lemma ReservesKeptPointsFit(ps: seq<Placed<ResumeBlock>>, limit: int)
    requires ReservesKept(ps, limit)
    ensures PointsFit(ps, limit)
  {
    forall k | 0 <= k < |ps| && ps[k].block.Point?
      ensures ps[k].y + ps[k].block.lines * 14 <= limit
              || (ps[k].y == Margin && Margin + ps[k].block.lines * 14 > limit)
    {
      assert KeptReserve(ps, k, limit);
    }
  }

  // ---------------------------------------------------------------------------
  // The exporter.
  // ---------------------------------------------------------------------------

  /** The cursor state every drawing step keeps. */
  ghost predicate Laid(c: PageCursor<ResumeBlock>)
    reads c
  {
    c.Valid() && c.top == Margin
  }

  /** The cursor is where the drawing of `b` (or its check) happens. */
  ghost predicate Ready(c: PageCursor<ResumeBlock>, b: ResumeBlock)
    reads c
  {
    c.placed != [] && c.y == Last(c.placed).y + Gap(Last(c.placed).block, b)
  }

  /** The cursor sits right below the last drawing. */
  ghost predicate Open(c: PageCursor<ResumeBlock>)
    reads c
  {
    c.placed != [] && c.y == Last(c.placed).y + Advance(Last(c.placed).block)
  }

  /** The cursor sits right below the last drawing and, if that finished an item, 10 further down. */
  ghost predicate Closed(c: PageCursor<ResumeBlock>)
    reads c
  {
    c.placed != []
    && c.y == Last(c.placed).y + Advance(Last(c.placed).block) + (if ItemPart(Last(c.placed).block) then 10 else 0)
  }

  /**
   * `checkPageBreak(spaceNeeded)`: exactly one new page, with `y` back at the
   * margin, when the space would cross `pageHeight - margin`; otherwise nothing.
   */
  method CheckPageBreak(c: PageCursor<ResumeBlock>, spaceNeeded: int, pageHeight: int)
    requires Laid(c) && c.PageUsed()
    modifies c
    ensures Laid(c) && c.placed == old(c.placed)
    ensures old(c.y) + spaceNeeded > pageHeight - Margin ==>
              c.pageCount == old(c.pageCount) + 1 && c.y == Margin
    ensures old(c.y) + spaceNeeded <= pageHeight - Margin ==>
              c.pageCount == old(c.pageCount) && c.y == old(c.y)
  {
    if c.y + spaceNeeded > pageHeight - Margin {
      c.AddPage();
    }
  }

  /**
   * One checked block: break if needed, move down by the block's offset, draw.
   * The block lands where the greedy placement puts it.
   */
  method PlaceChecked(c: PageCursor<ResumeBlock>, b: ResumeBlock, pageHeight: int)
    requires Laid(c) && c.PageUsed() && Checked(b) && Ready(c, b)
    modifies c
    ensures Laid(c) && c.PageUsed()
    ensures c.placed == old(c.placed) + [PlaceAfter(Last(old(c.placed)), b, pageHeight - Margin)]
    ensures old(c.y) + Reserve(b) > pageHeight - Margin ==>
              c.pageCount == old(c.pageCount) + 1 && c.y == Margin + Offset(b)
    ensures old(c.y) + Reserve(b) <= pageHeight - Margin ==>
              c.pageCount == old(c.pageCount) && c.y == old(c.y) + Offset(b)
    ensures Last(c.placed).y == c.y
  {
    CheckPageBreak(c, Reserve(b), pageHeight);
    c.Advance(Offset(b));
    c.Draw(b);
  }

  /** A block drawn without a break check (the head of the résumé, a section's rule). */
  method PlaceUnchecked(c: PageCursor<ResumeBlock>, b: ResumeBlock, pageHeight: int)
    requires Laid(c) && c.PageUsed() && !Checked(b) && Ready(c, b)
    modifies c
    ensures Laid(c) && c.PageUsed()
    ensures c.placed == old(c.placed) + [Placed(old(c.pageCount) - 1, old(c.y), b)]
    ensures c.placed == old(c.placed) + [PlaceAfter(Last(old(c.placed)), b, pageHeight - Margin)]
    ensures c.y == old(c.y) && c.pageCount == old(c.pageCount)
  {
    c.Draw(b);
  }

  /** The header of an entry and, when present, its subheader, each behind its own check. */
  method RenderItemHead(c: PageCursor<ResumeBlock>, item: Item, pageHeight: int)
    requires Laid(c) && c.PageUsed() && Closed(c)
    modifies c
    ensures Laid(c) && c.PageUsed() && Open(c) && ItemPart(Last(c.placed).block)
    ensures c.placed == old(c.placed) + GreedyLayout(Placer(pageHeight - Margin), Last(old(c.placed)), ItemHeadBlocks(item))
    ensures c.y == Last(c.placed).y + 15
  {
    ghost var start := c.placed;
    PlaceChecked(c, ItemHeader(item.header), pageHeight);
    GreedySingle(Placer(pageHeight - Margin), Last(start), ItemHeader(item.header));
    c.Advance(15);
    if HasSubheader(item) {
      ghost var mid := c.placed;
      PlaceChecked(c, ItemSubheader(item.subheader), pageHeight);
      Extend(Placer(pageHeight - Margin), start, mid, [ItemHeader(item.header)], ItemSubheader(item.subheader));
      assert ItemHeadBlocks(item) == [ItemHeader(item.header)] + [ItemSubheader(item.subheader)];
      c.Advance(15);
    } else {
      assert ItemHeadBlocks(item) == [ItemHeader(item.header)];
    }
  }

  /** One bullet point: its lines are measured, reserved together and drawn as one group. */
  method RenderPoint(c: PageCursor<ResumeBlock>, point: string, measure: Measure, pageWidth: int, pageHeight: int)
    requires Laid(c) && c.PageUsed() && Open(c)
    modifies c
    ensures Laid(c) && c.PageUsed() && Open(c)
    ensures c.placed == old(c.placed) + [PlaceAfter(Last(old(c.placed)), PointBlock(point, measure, pageWidth), pageHeight - Margin)]
    ensures var lines := measure(point, PointWidth(pageWidth));
            && (old(c.y) + lines * 14 > pageHeight - Margin ==>
                  c.pageCount == old(c.pageCount) + 1 && c.y == Margin + lines * 14)
            && (old(c.y) + lines * 14 <= pageHeight - Margin ==>
                  c.pageCount == old(c.pageCount) && c.y == old(c.y) + lines * 14)
  {
    var lines := measure(point, PointWidth(pageWidth));
    PlaceChecked(c, Point(point, lines), pageHeight);
    c.Advance(lines * 14);
  }

  /** Drawing one entry: header, optional subheader, each bullet point whole, then 10 units of space. */
  method RenderItem(c: PageCursor<ResumeBlock>, item: Item, measure: Measure, pageWidth: int, pageHeight: int)
    requires Laid(c) && c.PageUsed() && Closed(c)
    modifies c
    ensures Laid(c) && c.PageUsed() && Closed(c)
    ensures c.placed == old(c.placed) + GreedyLayout(Placer(pageHeight - Margin), Last(old(c.placed)), ItemBlocks(item, measure, pageWidth))
    ensures c.y == Last(c.placed).y + Advance(Last(c.placed).block) + 10
  {
    ghost var start := c.placed;
    ghost var limit := pageHeight - Margin;
    RenderItemHead(c, item, pageHeight);
    assert ItemHeadBlocks(item) + PointBlocks(item.points[..0], measure, pageWidth) == ItemHeadBlocks(item);
    var i := 0;
    while i < |item.points|
      invariant 0 <= i <= |item.points|
      invariant Laid(c) && c.PageUsed() && Open(c) && ItemPart(Last(c.placed).block)
      invariant c.placed == start + GreedyLayout(Placer(limit), Last(start), ItemHeadBlocks(item) + PointBlocks(item.points[..i], measure, pageWidth))
    {
      ghost var before := c.placed;
      RenderPoint(c, item.points[i], measure, pageWidth, pageHeight);
      Extend(Placer(limit), start, before, ItemHeadBlocks(item) + PointBlocks(item.points[..i], measure, pageWidth), PointBlock(item.points[i], measure, pageWidth));
      PointBlocksSnoc(item.points, i, measure, pageWidth);
      ConcatAssoc(ItemHeadBlocks(item), PointBlocks(item.points[..i], measure, pageWidth), [PointBlock(item.points[i], measure, pageWidth)]);
      i := i + 1;
    }
    assert item.points[..i] == item.points;
    c.Advance(10);
  }

  /** The upper-cased section title behind a 50-unit check, 20 below the cursor, and the rule 8 below it. */
  method RenderSectionHead(c: PageCursor<ResumeBlock>, s: Section, pageHeight: int)
    requires Laid(c) && c.PageUsed() && Closed(c)
    modifies c
    ensures Laid(c) && c.PageUsed() && Closed(c)
    ensures c.placed == old(c.placed) + GreedyLayout(Placer(pageHeight - Margin), Last(old(c.placed)), [SectionTitle(Text.ToUpper(s.title)), SectionRule])
    ensures |c.placed| >= 2
    ensures var title := c.placed[|c.placed| - 2];
            Last(c.placed) == Placed(title.page, title.y + 8, SectionRule) && c.y == title.y + 28
  {
    ghost var start := c.placed;
    PlaceChecked(c, SectionTitle(Text.ToUpper(s.title)), pageHeight);
    GreedySingle(Placer(pageHeight - Margin), Last(start), SectionTitle(Text.ToUpper(s.title)));
    c.Advance(8);
    ghost var mid := c.placed;
    PlaceUnchecked(c, SectionRule, pageHeight);
    Extend(Placer(pageHeight - Margin), start, mid, [SectionTitle(Text.ToUpper(s.title))], SectionRule);
    c.Advance(20);
  }

  /** Drawing one section: its title and rule, then each entry. */
  method RenderSection(c: PageCursor<ResumeBlock>, s: Section, measure: Measure, pageWidth: int, pageHeight: int)
    requires Laid(c) && c.PageUsed() && Closed(c)
    modifies c
    ensures Laid(c) && c.PageUsed() && Closed(c)
    ensures c.placed == old(c.placed) + GreedyLayout(Placer(pageHeight - Margin), Last(old(c.placed)), SectionBlocks(s, measure, pageWidth))
  {
    ghost var start := c.placed;
    ghost var limit := pageHeight - Margin;
    ghost var head := [SectionTitle(Text.ToUpper(s.title)), SectionRule];
    RenderSectionHead(c, s, pageHeight);
    assert head + ItemsBlocks(s.items[..0], measure, pageWidth) == head;
    var i := 0;
    while i < |s.items|
      invariant 0 <= i <= |s.items|
      invariant Laid(c) && c.PageUsed() && Closed(c)
      invariant c.placed == start + GreedyLayout(Placer(limit), Last(start), head + ItemsBlocks(s.items[..i], measure, pageWidth))
    {
      ghost var before := c.placed;
      RenderItem(c, s.items[i], measure, pageWidth, pageHeight);
      Chain(Placer(limit), start, before, c.placed, head + ItemsBlocks(s.items[..i], measure, pageWidth), ItemBlocks(s.items[i], measure, pageWidth));
      ItemsBlocksSnoc(s.items, i, measure, pageWidth);
      ConcatAssoc(head, ItemsBlocks(s.items[..i], measure, pageWidth), ItemBlocks(s.items[i], measure, pageWidth));
      i := i + 1;
    }
    assert s.items[..i] == s.items;
  }

  /** The loop over the résumé's sections. */
  method RenderSections(c: PageCursor<ResumeBlock>, sections: seq<Section>, measure: Measure, pageWidth: int, pageHeight: int)
    requires Laid(c) && c.PageUsed() && Closed(c)
    modifies c
    ensures Laid(c) && c.PageUsed() && Closed(c)
    ensures c.placed == old(c.placed) + GreedyLayout(Placer(pageHeight - Margin), Last(old(c.placed)), SectionsBlocks(sections, measure, pageWidth))
  {
    ghost var start := c.placed;
    ghost var limit := pageHeight - Margin;
    assert start + GreedyLayout(Placer(limit), Last(start), SectionsBlocks(sections[..0], measure, pageWidth)) == start;
    var i := 0;
    while i < |sections|
      invariant 0 <= i <= |sections|
      invariant Laid(c) && c.PageUsed() && Closed(c)
      invariant c.placed == start + GreedyLayout(Placer(limit), Last(start), SectionsBlocks(sections[..i], measure, pageWidth))
    {
      ghost var before := c.placed;
      RenderSection(c, sections[i], measure, pageWidth, pageHeight);
      Chain(Placer(limit), start, before, c.placed, SectionsBlocks(sections[..i], measure, pageWidth), SectionBlocks(sections[i], measure, pageWidth));
      SectionsBlocksSnoc(sections, i, measure, pageWidth);
      i := i + 1;
    }
    assert sections[..i] == sections;
  }

  /** The head of the résumé: name, contact line, rule and summary, all on the first page. */
  ghost predicate HeadOnFirstPage(ps: seq<Placed<ResumeBlock>>, r: Resume, measure: Measure, pageWidth: int) {
    |ps| >= 4
    && ps[0] == Placed(0, Margin, NameLine(r.name))
    && ps[1] == Placed(0, Margin + 20, ContactLine(Text.Join(r.contact, " | ")))
    && ps[2] == Placed(0, Margin + 40, HeaderRule)
    && ps[3] == Placed(0, Margin + 65, SummaryText(r.summary, measure(r.summary, SummaryWidth(pageWidth))))
  }

  /**
   * Name, contact line, rule and summary, drawn with no break check from the
   * top of the first page; `y` is left below the summary's lines.
   */
  method RenderHead(c: PageCursor<ResumeBlock>, r: Resume, measure: Measure, pageWidth: int, pageHeight: int)
    requires c.Valid() && c.top == Margin && c.y == Margin && c.pageCount == 1 && c.placed == []
    modifies c
    ensures Laid(c) && c.PageUsed() && Closed(c)
    ensures HeadOnFirstPage(c.placed, r, measure, pageWidth) && |c.placed| == 4
    ensures c.placed == [c.placed[0]] + GreedyLayout(Placer(pageHeight - Margin), c.placed[0], HeadBlocks(r, measure, pageWidth)[1..])
    ensures c.pageCount == 1 && c.y == Margin + 65 + measure(r.summary, SummaryWidth(pageWidth)) * 14
  {
    ghost var limit := pageHeight - Margin;
    var summaryLines := measure(r.summary, SummaryWidth(pageWidth));
    ghost var bs := HeadBlocks(r, measure, pageWidth);
    c.Draw(NameLine(r.name));
    ghost var start := c.placed;
    c.Advance(20);
    PlaceUnchecked(c, ContactLine(Text.Join(r.contact, " | ")), pageHeight);
    GreedySingle(Placer(limit), Last(start), bs[1]);
    c.Advance(20);
    ghost var mid := c.placed;
    PlaceUnchecked(c, HeaderRule, pageHeight);
    Extend(Placer(limit), start, mid, [bs[1]], HeaderRule);
    c.Advance(25);
    mid := c.placed;
    PlaceUnchecked(c, SummaryText(r.summary, summaryLines), pageHeight);
    Extend(Placer(limit), start, mid, [bs[1], bs[2]], bs[3]);
    assert bs[1..] == [bs[1], bs[2]] + [bs[3]];
    c.Advance(summaryLines * 14);
  }

  /**
   * The reference layout of a whole résumé: the name at the top margin of the
   * first page, then every other block placed greedily after it.
   */
  function ResumeLayout(r: Resume, measure: Measure, pageWidth: int, pageHeight: int): (ps: seq<Placed<ResumeBlock>>)
    ensures Blocks(ps) == ResumeBlocks(r, measure, pageWidth)
  {
    var first := Placed(0, Margin, NameLine(r.name));
    var bs := ResumeBlocks(r, measure, pageWidth);
    LayoutFromBlocks(Placer(pageHeight - Margin), first, bs);
    [first] + GreedyLayout(Placer(pageHeight - Margin), first, bs[1..])
  }

  /**
   * Everything the export promises about a finished layout of `r`: after the
   * name at the top of the first page, every block is where the greedy
   * placement puts it, so the layout and the page count are determined.
   */
  ghost predicate WellLaidOut(doc: Layout, r: Resume, measure: Measure, pageWidth: int, pageHeight: int) {
    var ps := doc.placed;
    var limit := pageHeight - Margin;
    && ps == ResumeLayout(r, measure, pageWidth, pageHeight)
    && Blocks(ps) == ResumeBlocks(r, measure, pageWidth)
    && HeadOnFirstPage(ps, r, measure, pageWidth)
    && Greedy(Placer(limit), ps)
    && Flow(ps, Margin)
    && Last(ps).page + 1 == doc.pageCount
    && doc.pageCount == 1 + Breaks(ps)
    && ReservesKept(ps, limit)
    && PointsFit(ps, limit)
  }

  lemma FinishedLayout(c: PageCursor<ResumeBlock>, head: seq<Placed<ResumeBlock>>, r: Resume,
                       measure: Measure, pageWidth: int, pageHeight: int)
    requires Laid(c) && c.PageUsed()
    requires HeadOnFirstPage(head, r, measure, pageWidth) && head <= c.placed
    requires c.placed == [c.placed[0]] + GreedyLayout(Placer(pageHeight - Margin), c.placed[0], ResumeBlocks(r, measure, pageWidth)[1..])
    ensures WellLaidOut(Layout(c.placed, c.pageCount), r, measure, pageWidth, pageHeight)
  {
    var ps := c.placed;
    var bs := ResumeBlocks(r, measure, pageWidth);
    assert ps[0] == head[0] && ps[1] == head[1] && ps[2] == head[2] && ps[3] == head[3];
    LastPageIsBreaks(ps, Margin);
    LayoutIsGreedy(Placer(pageHeight - Margin), ps[0], bs[1..]);
    GreedyKeepsReserves(ps, pageHeight - Margin);
    ReservesKeptPointsFit(ps, pageHeight - Margin);
  }

  /**
   * `exportEnhancedResumeToPDF`. Nothing is produced without an enhanced
   * résumé. Otherwise every block of the résumé is drawn exactly once and in
   * model order, each where the greedy placement puts it: the head on the
   * first page, a new page exactly when a check's reservation would cross
   * the bottom margin, and then at the top margin. The page count is one more
   * than the number of breaks, and a bullet point leaves the printable area
   * only when it is taller than a page.
   */
  method ExportEnhancedResumeToPdf(analysis: Option<AnalysisResult>, measure: Measure, pageWidth: int, pageHeight: int)
    returns (doc: Option<Layout>)
    ensures analysis.None? || analysis.value.enhancedResume.None? ==> doc.None?
    ensures analysis.Some? && analysis.value.enhancedResume.Some? ==>
              doc.Some? && WellLaidOut(doc.value, analysis.value.enhancedResume.value, measure, pageWidth, pageHeight)
  {
    if analysis.None? || analysis.value.enhancedResume.None? {
      return None;
    }
    var r := analysis.value.enhancedResume.value;
    ghost var limit := pageHeight - Margin;
    var c := new PageCursor<ResumeBlock>(Margin);
    RenderHead(c, r, measure, pageWidth, pageHeight);
    ghost var head := c.placed;
    RenderSections(c, r.sections, measure, pageWidth, pageHeight);
    ghost var first := [head[0]];
    ghost var tail := HeadBlocks(r, measure, pageWidth)[1..];
    Chain(Placer(limit), first, head, c.placed, tail, SectionsBlocks(r.sections, measure, pageWidth));
    assert ResumeBlocks(r, measure, pageWidth)[1..] == tail + SectionsBlocks(r.sections, measure, pageWidth);
    FinishedLayout(c, head, r, measure, pageWidth, pageHeight);
    doc := Some(Layout(c.placed, c.pageCount));
  }
}
