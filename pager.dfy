/**
 * The state both PDF exporters of script.js drive: a jsPDF document seen as
 * the list of blocks it has been asked to draw, each on some page at some
 * vertical position, plus the page count and the exporter's cursor `y`.
 */
module Pager {

  /** A block drawn on page `page` (counted from 0) at vertical position `y`. */
  datatype Placed<B> = Placed(page: nat, y: int, block: B)

  function Last<B>(ps: seq<Placed<B>>): Placed<B>
    requires ps != []
  {
    ps[|ps| - 1]
  }

  /** The drawn blocks in drawing order, without their positions. */
  function Blocks<B>(ps: seq<Placed<B>>): (bs: seq<B>)
    ensures |bs| == |ps|
    ensures forall k :: 0 <= k < |ps| ==> bs[k] == ps[k].block
  {
    seq(|ps|, k requires 0 <= k < |ps| => ps[k].block)
  }

  lemma ConcatAssoc<T>(a: seq<T>, b: seq<T>, c: seq<T>)
    ensures (a + b) + c == a + (b + c)
  {
  }

  /** Two consecutive drawings: lower on the same page, or anywhere on the next page. */
  predicate Step<B>(a: Placed<B>, b: Placed<B>) {
    (b.page == a.page && a.y <= b.y) || b.page == a.page + 1
  }

  /**
   * The page flow of a drawing sequence: it starts on the first page, nothing
   * is drawn above `top`, and the cursor only moves down except when it moves
   * on to the next page.
   */
  ghost predicate Flow<B>(ps: seq<Placed<B>>, top: int) {
    && (ps != [] ==> ps[0].page == 0)
    && (forall k :: 0 <= k < |ps| ==> top <= ps[k].y)
    && (forall k :: 0 < k < |ps| ==> Step(ps[k - 1], ps[k]))
  }

  /** Number of page breaks between consecutive drawings. */
  function Breaks<B>(ps: seq<Placed<B>>): nat
  {
    if |ps| <= 1 then 0
    else Breaks(ps[..|ps| - 1]) + (if ps[|ps| - 1].page != ps[|ps| - 2].page then 1 else 0)
  }

  /** In a page flow the last page index is the number of breaks taken. */
  lemma {:induction false} LastPageIsBreaks<B>(ps: seq<Placed<B>>, top: int)
    requires Flow(ps, top) && ps != []
    ensures Last(ps).page == Breaks(ps)
  {
    if |ps| > 1 {
      var init := ps[..|ps| - 1];
      assert Flow(init, top) by {
        forall k | 0 < k < |init| ensures Step(init[k - 1], init[k]) {
          assert init[k - 1] == ps[k - 1] && init[k] == ps[k];
        }
      }
      LastPageIsBreaks(init, top);
    }
  }

  /** In a page flow no page up to the last one is left empty. */
  lemma {:induction false} NoEmptyPage<B>(ps: seq<Placed<B>>, top: int, page: nat)
    requires Flow(ps, top) && ps != [] && page <= Last(ps).page
    ensures exists k :: 0 <= k < |ps| && ps[k].page == page
  {
    if page == Last(ps).page {
      assert ps[|ps| - 1].page == page;
    } else {
      var init := ps[..|ps| - 1];
      assert |ps| > 1 by {
        if |ps| == 1 { assert ps[0].page == 0; }
      }
      assert Step(ps[|ps| - 2], ps[|ps| - 1]);
      assert Flow(init, top) by {
        forall k | 0 < k < |init| ensures Step(init[k - 1], init[k]) {
          assert init[k - 1] == ps[k - 1] && init[k] == ps[k];
        }
      }
      NoEmptyPage(init, top, page);
      var k :| 0 <= k < |init| && init[k].page == page;
      assert ps[k].page == page;
    }
  }

  // ---------------------------------------------------------------------------
  // Greedy layouts: each block placed by a rule from the drawing before it.
  // ---------------------------------------------------------------------------

  /** The reference layout of `bs`: each block placed by `place` after the one before it, the first after `a`. */
  function GreedyLayout<B>(place: (Placed<B>, B) -> Placed<B>, a: Placed<B>, bs: seq<B>): (ps: seq<Placed<B>>)
    ensures |ps| == |bs|
    decreases |bs|
  {
    if bs == [] then []
    else
      var p := place(a, bs[0]);
      [p] + GreedyLayout(place, p, bs[1..])
  }

  /** Where the last of `bs` lands when laid out after `a`; `a` itself when there are none. */
  function LastPlaced<B>(place: (Placed<B>, B) -> Placed<B>, a: Placed<B>, bs: seq<B>): Placed<B> {
    Last([a] + GreedyLayout(place, a, bs))
  }

  /** `b` is placed where `place` puts its block after `a`. */
  ghost predicate Follows<B>(place: (Placed<B>, B) -> Placed<B>, a: Placed<B>, b: Placed<B>) {
    b == place(a, b.block)
  }

  /** Every drawing after the first is placed after the one before it. */
  ghost predicate Greedy<B>(place: (Placed<B>, B) -> Placed<B>, ps: seq<Placed<B>>) {
    forall k :: 0 < k < |ps| ==> Follows(place, ps[k - 1], ps[k])
  }

  lemma GreedySingle<B>(place: (Placed<B>, B) -> Placed<B>, a: Placed<B>, b: B)
    ensures GreedyLayout(place, a, [b]) == [place(a, b)]
  {
    assert [b][1..] == [];
  }

  /** The reference layout draws exactly the given blocks, in order. */
  lemma {:induction false} LayoutBlocks<B>(place: (Placed<B>, B) -> Placed<B>, a: Placed<B>, bs: seq<B>)
    requires forall x, b :: place(x, b).block == b
    ensures Blocks(GreedyLayout(place, a, bs)) == bs
    decreases |bs|
  {
    if bs != [] {
      var p := place(a, bs[0]);
      LayoutBlocks(place, p, bs[1..]);
      assert Blocks([p] + GreedyLayout(place, p, bs[1..])) == [bs[0]] + Blocks(GreedyLayout(place, p, bs[1..]));
    }
  }

  /** A layout that starts with the first block and lays out the rest after it draws every block, in order. */
  lemma LayoutFromBlocks<B>(place: (Placed<B>, B) -> Placed<B>, first: Placed<B>, bs: seq<B>)
    requires bs != [] && first.block == bs[0]
    requires forall x, b :: place(x, b).block == b
    ensures Blocks([first] + GreedyLayout(place, first, bs[1..])) == bs
  {
    var g := GreedyLayout(place, first, bs[1..]);
    LayoutBlocks(place, first, bs[1..]);
    assert Blocks([first] + g) == [bs[0]] + Blocks(g);
    assert bs == [bs[0]] + bs[1..];
  }

  /** Laying out `xs + ys` is laying out `xs`, then `ys` after the last of them. */
  lemma {:induction false} GreedyConcat<B>(place: (Placed<B>, B) -> Placed<B>, a: Placed<B>, xs: seq<B>, ys: seq<B>)
    ensures GreedyLayout(place, a, xs + ys)
            == GreedyLayout(place, a, xs) + GreedyLayout(place, LastPlaced(place, a, xs), ys)
    decreases |xs|
  {
    if xs == [] {
      assert xs + ys == ys;
      assert [a] + GreedyLayout(place, a, xs) == [a];
    } else {
      var p := place(a, xs[0]);
      assert (xs + ys)[0] == xs[0];
      assert (xs + ys)[1..] == xs[1..] + ys;
      GreedyConcat(place, p, xs[1..], ys);
      var rest := GreedyLayout(place, p, xs[1..]);
      assert GreedyLayout(place, a, xs) == [p] + rest;
      assert Last([a] + ([p] + rest)) == Last([p] + rest);
      ConcatAssoc([p], rest, GreedyLayout(place, LastPlaced(place, p, xs[1..]), ys));
    }
  }

  lemma LastOfLayout<B>(place: (Placed<B>, B) -> Placed<B>, start: seq<Placed<B>>, bs: seq<B>)
    requires start != []
    ensures Last(start + GreedyLayout(place, Last(start), bs)) == LastPlaced(place, Last(start), bs)
  {
    var g := GreedyLayout(place, Last(start), bs);
    if g == [] {
      assert start + g == start;
      assert [Last(start)] + g == [Last(start)];
    }
  }

  /** Laying out `xs` after `start`, then `ys` after that, lays out `xs + ys` after `start`. */
  lemma Chain<B>(place: (Placed<B>, B) -> Placed<B>, start: seq<Placed<B>>, mid: seq<Placed<B>>, end: seq<Placed<B>>,
                 xs: seq<B>, ys: seq<B>)
    requires start != []
    requires mid == start + GreedyLayout(place, Last(start), xs)
    requires end == mid + GreedyLayout(place, Last(mid), ys)
    ensures end == start + GreedyLayout(place, Last(start), xs + ys)
  {
    LastOfLayout(place, start, xs);
    GreedyConcat(place, Last(start), xs, ys);
    ConcatAssoc(start, GreedyLayout(place, Last(start), xs), GreedyLayout(place, Last(mid), ys));
  }

  /** One more block placed after a laid-out run extends the run. */
  lemma Extend<B>(place: (Placed<B>, B) -> Placed<B>, start: seq<Placed<B>>, mid: seq<Placed<B>>, xs: seq<B>, b: B)
    requires start != []
    requires mid == start + GreedyLayout(place, Last(start), xs)
    ensures mid + [place(Last(mid), b)] == start + GreedyLayout(place, Last(start), xs + [b])
  {
    GreedySingle(place, Last(mid), b);
    Chain(place, start, mid, mid + [place(Last(mid), b)], xs, [b]);
  }

  /** A reference layout, behind the drawing it starts from, is greedy. */
  lemma {:induction false} LayoutIsGreedy<B>(place: (Placed<B>, B) -> Placed<B>, a: Placed<B>, bs: seq<B>)
    requires forall x, b :: place(x, b).block == b
    ensures Greedy(place, [a] + GreedyLayout(place, a, bs))
    decreases |bs|
  {
    if bs != [] {
      var p := place(a, bs[0]);
      var rest := [p] + GreedyLayout(place, p, bs[1..]);
      LayoutIsGreedy(place, p, bs[1..]);
      var ps := [a] + rest;
      forall k | 0 < k < |ps| ensures Follows(place, ps[k - 1], ps[k]) {
        if k > 1 {
          assert ps[k - 1] == rest[k - 2] && ps[k] == rest[k - 1];
        }
      }
    }
  }

  /** The exporter's cursor over a jsPDF document; `top` is where `y` restarts on a new page. */
  class PageCursor<B> {
    const top: int
    var y: int
    var pageCount: nat
    var placed: seq<Placed<B>>

    ghost predicate Valid()
      reads this
    {
      && top <= y
      && 1 <= pageCount
      && Flow(placed, top)
      && (placed == [] ==> pageCount == 1)
      && (placed != [] ==>
            (Last(placed).page + 1 == pageCount && Last(placed).y <= y)
            || Last(placed).page + 2 == pageCount)
    }

    /** Something has been drawn on the current page. */
    ghost predicate PageUsed()
      reads this
    {
      placed != [] && Last(placed).page + 1 == pageCount
    }

    /** `new jsPDF()` with the cursor at `top`. */
    constructor (top: int)
      ensures Valid()
      ensures this.top == top && y == top && pageCount == 1 && placed == []
    {
      this.top := top;
      y := top;
      pageCount := 1;
      placed := [];
    }

    /** `doc.addPage()` followed by resetting `y`. */
    method AddPage()
      requires Valid() && PageUsed()
      modifies this
      ensures Valid()
      ensures pageCount == old(pageCount) + 1 && y == top && placed == old(placed)
    {
      pageCount := pageCount + 1;
      y := top;
    }

    /** `doc.text(...)` (or `doc.line(...)`) at the cursor, on the current page. */
    method Draw(b: B)
      requires Valid()
      modifies this
      ensures Valid() && PageUsed()
      ensures placed == old(placed) + [Placed(pageCount - 1, y, b)]
      ensures y == old(y) && pageCount == old(pageCount)
    {
      placed := placed + [Placed(pageCount - 1, y, b)];
    }

    /** `y += dy`. */
    method Advance(dy: nat)
      requires Valid()
      modifies this
      ensures Valid()
      ensures y == old(y) + dy && pageCount == old(pageCount) && placed == old(placed)
      ensures old(PageUsed()) ==> PageUsed()
    {
      y := y + dy;
    }
  }
}
