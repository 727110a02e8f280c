/**
 * The page-index strip of the QCubed paginator: given the current page, the
 * page count and the index count (the number of slots the strip aims to
 * fill), which pages are listed, which one is selected, where the
 * contiguous "bunch" of pages starts and ends, and whether a leading
 * "1 ..." or a trailing "... N" is added. "Previous" and "Next" are links
 * or plain labels depending on the current page.
 */
module PageLayout {
  import opened PhpMath

  /** One entry of the index strip: a link to page n, page n shown as the
      selected (current) page, or the "..." marker. */
  datatype Item = Page(n: int) | Selected(n: int) | Ellipsis

  /** "Previous" or "Next": plain label text, or a link to a page. */
  datatype Arrow = Label | Link(target: int)

  /** What the control shows, without the markup. */
  datatype View = View(previous: Arrow, indexes: seq<Item>, next: Arrow)

  /** Page n as the strip shows it. */
  function PageItem(current: int, n: int): (item: Item)
  {
    if n == current then Selected(n) else Page(n)
  }

  /** Pages lo..hi in order, each selected or linked; empty when hi < lo. */
  function Listing(current: int, lo: int, hi: int): (r: seq<Item>)
    ensures |r| == if lo <= hi then hi - lo + 1 else 0
    ensures forall i :: 0 <= i < |r| ==> r[i] == PageItem(current, lo + i)
    decreases hi - lo
  {
    if hi < lo then [] else Listing(current, lo, hi - 1) + [PageItem(current, hi)]
  }

  // The constants GetControlHtml figures out before laying out a bunch.

  function MinimumEndOfBunch(indexCount: int): (end: int)
  {
    indexCount - 2
  }

  function MaximumStartOfBunch(pageCount: int, indexCount: int): (start: int)
  {
    pageCount - indexCount + 3
  }

  function LeftOfBunchCount(indexCount: int): (count: int)
  {
    FloorHalf(indexCount - 5)
  }

  function RightOfBunchCount(indexCount: int): (count: int)
  {
    RoundHalf(indexCount - 5)
  }

  function LeftBunchTrigger(indexCount: int): (trigger: int)
  {
    4 + LeftOfBunchCount(indexCount)
  }

  function RightBunchTrigger(pageCount: int, indexCount: int): (trigger: int)
  {
    MaximumStartOfBunch(pageCount, indexCount) + RoundHalf(indexCount - 8)
  }

  /** First page of the bunch. */
  function BunchStart(current: int, pageCount: int, indexCount: int): (start: int)
  {
    if current < LeftBunchTrigger(indexCount) then 1
    else Min(MaximumStartOfBunch(pageCount, indexCount), current - LeftOfBunchCount(indexCount))
  }

  /** Last page of the bunch, for a given right trigger. */
  function BunchEnd(current: int, pageCount: int, indexCount: int, rightTrigger: int): (end: int)
  {
    if current > rightTrigger then pageCount
    else Max(MinimumEndOfBunch(indexCount), current + RightOfBunchCount(indexCount))
  }

  /** The link to page 1 and the "..." that precede a bunch not starting at page 1. */
  function StartEllipsis(current: int, indexCount: int): (items: seq<Item>)
  {
    if current < LeftBunchTrigger(indexCount) then [] else [Page(1), Ellipsis]
  }

  /** The "..." and the link to the last page that follow a bunch not ending there. */
  function EndEllipsis(current: int, pageCount: int, rightTrigger: int): (items: seq<Item>)
  {
    if current > rightTrigger then [] else [Ellipsis, Page(pageCount)]
  }

  /** The strip for a given right trigger: every page when they fit, else a bunch with its edges. */
  function Arrange(current: int, pageCount: int, indexCount: int, rightTrigger: int): (items: seq<Item>)
  {
    if pageCount <= indexCount then Listing(current, 1, pageCount)
    else
      StartEllipsis(current, indexCount)
      + Listing(current, BunchStart(current, pageCount, indexCount),
                BunchEnd(current, pageCount, indexCount, rightTrigger))
      + EndEllipsis(current, pageCount, rightTrigger)
  }

  /** The strip GetControlHtml emits. */
  function Layout(current: int, pageCount: int, indexCount: int): (items: seq<Item>)
  {
    Arrange(current, pageCount, indexCount, RightBunchTrigger(pageCount, indexCount))
  }

  function Previous(current: int): (arrow: Arrow)
  {
    if current <= 1 then Label else Link(current - 1)
  }

  function Next(current: int, pageCount: int): (arrow: Arrow)
  {
    if current >= pageCount then Label else Link(current + 1)
  }

  /** Everything GetControlHtml shows, in order. */
  function Render(current: int, pageCount: int, indexCount: int): (view: View)
  {
    View(Previous(current), Layout(current, pageCount, indexCount), Next(current, pageCount))
  }

  /** The page numbers of the strip, ignoring "...", rise strictly from left to right. */
  ghost predicate Increasing(items: seq<Item>)
  {
    forall i, j :: 0 <= i < j < |items| && !items[i].Ellipsis? && !items[j].Ellipsis? ==> items[i].n < items[j].n
  }

  /** Every page number of the strip lies in [lo, hi]. */
  ghost predicate Within(items: seq<Item>, lo: int, hi: int)
  {
    forall i :: 0 <= i < |items| && !items[i].Ellipsis? ==> lo <= items[i].n <= hi
  }

  // ---------------------------------------------------------------------
  // The bunch arithmetic

  /** Around the current page the bunch holds W - 5 further pages, split
      floor / round, so the right side gets the odd one. */
  lemma SpansFillBunch(indexCount: int)
    requires indexCount >= 5
    ensures LeftOfBunchCount(indexCount) >= 0
    ensures LeftOfBunchCount(indexCount) + RightOfBunchCount(indexCount) == indexCount - 5
    ensures 0 <= RightOfBunchCount(indexCount) - LeftOfBunchCount(indexCount) <= 1
  {
  }

  /** Where the bunch lies when the pages do not all fit: inside [1, P], at
      least three pages long, clear of page 1 by two pages when a leading
      "..." is shown, clear of page P by two pages when a trailing "..." is
      shown, and holding the current page whenever that is a real page. */
  lemma BunchBounds(current: int, pageCount: int, indexCount: int)
    requires 7 <= indexCount < pageCount
    ensures var s := BunchStart(current, pageCount, indexCount);
            var e := BunchEnd(current, pageCount, indexCount, RightBunchTrigger(pageCount, indexCount));
            && 1 <= s && s + 2 <= e <= pageCount
            && (current >= LeftBunchTrigger(indexCount) ==> 4 <= s)
            && (current <= RightBunchTrigger(pageCount, indexCount) ==> e <= pageCount - 3)
            && (1 <= current <= pageCount ==> s <= current <= e)
  {
    var s := BunchStart(current, pageCount, indexCount);
    var e := BunchEnd(current, pageCount, indexCount, RightBunchTrigger(pageCount, indexCount));
    var left, right := LeftOfBunchCount(indexCount), RightOfBunchCount(indexCount);
    SpansFillBunch(indexCount);
    if current <= RightBunchTrigger(pageCount, indexCount) {
      // The right trigger stops a trailing "..." from swallowing the last three pages.
      assert RoundHalf(indexCount - 8) + right <= indexCount - 6;
    }
    if current >= LeftBunchTrigger(indexCount) && current <= RightBunchTrigger(pageCount, indexCount) {
      assert e - s >= left + right;
    }
  }

  // ---------------------------------------------------------------------
  // Ordering of the strip

  lemma ListingOrdered(current: int, lo: int, hi: int)
    ensures Increasing(Listing(current, lo, hi)) && Within(Listing(current, lo, hi), lo, hi)
  {
  }

  lemma IncreasingConcat(a: seq<Item>, b: seq<Item>, lo: int, mid: int, hi: int)
    requires Increasing(a) && Within(a, lo, mid)
    requires Increasing(b) && Within(b, mid + 1, hi)
    requires lo <= mid + 1 && mid <= hi
    ensures Increasing(a + b) && Within(a + b, lo, hi)
  {
    var ab := a + b;
    forall i, j | 0 <= i < j < |ab| && !ab[i].Ellipsis? && !ab[j].Ellipsis?
      ensures ab[i].n < ab[j].n
    {
      if j < |a| {
        assert ab[i] == a[i] && ab[j] == a[j];
      } else if i >= |a| {
        assert ab[i] == b[i - |a|] && ab[j] == b[j - |a|];
      } else {
        assert ab[i] == a[i] && ab[j] == b[j - |a|];
      }
    }
    forall i | 0 <= i < |ab| && !ab[i].Ellipsis?
      ensures lo <= ab[i].n <= hi
    {
      if i < |a| {
        assert ab[i] == a[i];
      } else {
        assert ab[i] == b[i - |a|];
      }
    }
  }

  /** Page numbers across the whole strip rise strictly and lie in [1, P];
      in particular the edge links never repeat a page of the bunch. */
  lemma {:induction false} LayoutIncreasing(current: int, pageCount: int, indexCount: int)
    requires indexCount >= 7
    ensures Increasing(Layout(current, pageCount, indexCount))
    ensures Within(Layout(current, pageCount, indexCount), 1, pageCount)
  {
    if pageCount <= indexCount {
      ListingOrdered(current, 1, pageCount);
    } else {
      var trigger := RightBunchTrigger(pageCount, indexCount);
      var s := BunchStart(current, pageCount, indexCount);
      var e := BunchEnd(current, pageCount, indexCount, trigger);
      var pre, bunch, post := StartEllipsis(current, indexCount), Listing(current, s, e), EndEllipsis(current, pageCount, trigger);
      BunchBounds(current, pageCount, indexCount);
      ListingOrdered(current, s, e);
      IncreasingConcat(pre, bunch, 1, s - 1, e);
      IncreasingConcat(pre + bunch, post, 1, e, pageCount);
    }
  }

  // ---------------------------------------------------------------------
  // Properties of the strip

  /** When the pages fit, every page 1..P is listed in order, the current
      one selected and all others links. */
  lemma AllPagesListed(current: int, pageCount: int, indexCount: int)
    requires pageCount <= indexCount
    ensures var items := Layout(current, pageCount, indexCount);
            && |items| == Max(pageCount, 0)
            && forall i :: 0 <= i < |items| ==>
                 (items[i] == Selected(i + 1) <==> i + 1 == current)
                 && (items[i] == Page(i + 1) <==> i + 1 != current)
  {
  }

  /** Once the pages no longer fit, a link to page 1 followed by "..." opens
      the strip exactly when c >= 4 + floor((W - 5) / 2); the bunch then
      starts at min(P - W + 3, c - floor((W - 5) / 2)), which is at least 4;
      otherwise the strip opens with page 1 itself. */
  lemma LeadingEdge(current: int, pageCount: int, indexCount: int)
    requires 7 <= indexCount < pageCount
    ensures var items := Layout(current, pageCount, indexCount);
            && |items| >= indexCount
            && (items[1] == Ellipsis <==> current >= 4 + FloorHalf(indexCount - 5))
            && (items[1] == Ellipsis ==>
                  && items[0] == Page(1) && !items[2].Ellipsis?
                  && items[2].n == Min(pageCount - indexCount + 3, current - FloorHalf(indexCount - 5))
                  && items[2].n >= 4)
            && (items[1] != Ellipsis ==> !items[0].Ellipsis? && items[0].n == 1)
  {
    var trigger := RightBunchTrigger(pageCount, indexCount);
    var s := BunchStart(current, pageCount, indexCount);
    var e := BunchEnd(current, pageCount, indexCount, trigger);
    var pre, bunch, post := StartEllipsis(current, indexCount), Listing(current, s, e), EndEllipsis(current, pageCount, trigger);
    BunchBounds(current, pageCount, indexCount);
    SpansFillBunch(indexCount);
    var items := Layout(current, pageCount, indexCount);
    assert items == pre + bunch + post;
    assert |items| >= indexCount;
    if current >= LeftBunchTrigger(indexCount) {
      assert items[2] == bunch[0];
    } else {
      assert items[0] == bunch[0] && items[1] == bunch[1];
    }
  }

  /** Once the pages no longer fit, "..." followed by a link to page P
      closes the strip exactly when c <= P - W + 3 + round((W - 8) / 2); the
      bunch then ends at max(W - 2, c + round((W - 5) / 2)), which is at most
      P - 3; otherwise the strip closes with page P itself. */
  lemma TrailingEdge(current: int, pageCount: int, indexCount: int)
    requires 7 <= indexCount < pageCount
    ensures var items := Layout(current, pageCount, indexCount);
            var k := |items|;
            && k >= indexCount
            && (items[k - 2] == Ellipsis <==> current <= pageCount - indexCount + 3 + RoundHalf(indexCount - 8))
            && (items[k - 2] == Ellipsis ==>
                  && items[k - 1] == Page(pageCount) && !items[k - 3].Ellipsis?
                  && items[k - 3].n == Max(indexCount - 2, current + RoundHalf(indexCount - 5))
                  && items[k - 3].n <= pageCount - 3)
            && (items[k - 2] != Ellipsis ==> !items[k - 1].Ellipsis? && items[k - 1].n == pageCount)
  {
    var trigger := RightBunchTrigger(pageCount, indexCount);
    var s := BunchStart(current, pageCount, indexCount);
    var e := BunchEnd(current, pageCount, indexCount, trigger);
    var pre, bunch, post := StartEllipsis(current, indexCount), Listing(current, s, e), EndEllipsis(current, pageCount, trigger);
    BunchBounds(current, pageCount, indexCount);
    SpansFillBunch(indexCount);
    var items := Layout(current, pageCount, indexCount);
    assert items == pre + bunch + post;
    var k := |items|;
    assert k >= indexCount;
    var m := |bunch|;
    if current <= trigger {
      assert items[k - 3] == bunch[m - 1];
    } else {
      assert items[k - 1] == bunch[m - 1] && items[k - 2] == bunch[m - 2];
    }
  }

  /** "..." only ever stands second or second to last, next to an edge link. */
  lemma EllipsesOnlyBesideEdges(current: int, pageCount: int, indexCount: int)
    requires indexCount >= 7
    ensures var items := Layout(current, pageCount, indexCount);
            forall i :: 0 <= i < |items| && items[i] == Ellipsis ==> i == 1 || i == |items| - 2
  {
    var items := Layout(current, pageCount, indexCount);
    if pageCount > indexCount {
      var trigger := RightBunchTrigger(pageCount, indexCount);
      var s := BunchStart(current, pageCount, indexCount);
      var e := BunchEnd(current, pageCount, indexCount, trigger);
      var pre, bunch, post := StartEllipsis(current, indexCount), Listing(current, s, e), EndEllipsis(current, pageCount, trigger);
      assert items == pre + bunch + post;
    }
  }

  /** Edge entries around a listing of lo..hi: only page c can be selected,
      and it is exactly when lo <= c <= hi. */
  lemma SelectionInListing(current: int, pre: seq<Item>, lo: int, hi: int, post: seq<Item>)
    requires forall i :: 0 <= i < |pre| ==> !pre[i].Selected?
    requires forall i :: 0 <= i < |post| ==> !post[i].Selected?
    ensures var items := pre + Listing(current, lo, hi) + post;
            && (forall i :: 0 <= i < |items| && items[i].Selected? ==> items[i] == Selected(current))
            && ((exists i :: 0 <= i < |items| && items[i].Selected?) <==> lo <= current <= hi)
  {
    var bunch := Listing(current, lo, hi);
    var items := pre + bunch + post;
    forall i | 0 <= i < |items| && items[i].Selected?
      ensures items[i] == Selected(current) && lo <= current <= hi
    {
      assert |pre| <= i < |pre| + |bunch|;
      assert items[i] == bunch[i - |pre|];
    }
    if lo <= current <= hi {
      assert items[|pre| + (current - lo)] == bunch[current - lo];
    }
  }

  /** With 1 <= c <= P exactly one entry is selected, and it is page c;
      with c outside [1, P] nothing is selected. */
  lemma CurrentPageSelectedOnce(current: int, pageCount: int, indexCount: int)
    requires indexCount >= 7
    ensures var items := Layout(current, pageCount, indexCount);
            && (forall i :: 0 <= i < |items| && items[i].Selected? ==> items[i] == Selected(current))
            && (forall i, j :: 0 <= i < |items| && 0 <= j < |items| && items[i].Selected? && items[j].Selected? ==> i == j)
            && ((exists i :: 0 <= i < |items| && items[i].Selected?) <==> 1 <= current <= pageCount)
  {
    var items := Layout(current, pageCount, indexCount);
    if pageCount <= indexCount {
      assert items == [] + Listing(current, 1, pageCount) + [];
      SelectionInListing(current, [], 1, pageCount, []);
    } else {
      var trigger := RightBunchTrigger(pageCount, indexCount);
      var s := BunchStart(current, pageCount, indexCount);
      var e := BunchEnd(current, pageCount, indexCount, trigger);
      BunchBounds(current, pageCount, indexCount);
      SelectionInListing(current, StartEllipsis(current, indexCount), s, e, EndEllipsis(current, pageCount, trigger));
    }
    LayoutIncreasing(current, pageCount, indexCount);
    forall i, j | 0 <= i < |items| && 0 <= j < |items| && items[i].Selected? && items[j].Selected?
      ensures i == j
    {
      assert items[i].n == items[j].n;
    }
  }

  /** With a "..." on both sides the bunch is exactly
      [c - floor((W - 5) / 2), c + round((W - 5) / 2)], W - 4 pages, so the
      strip is "1 ... bunch ... P" with exactly W entries. */
  lemma CentredBunch(current: int, pageCount: int, indexCount: int)
    requires 7 <= indexCount < pageCount
    requires current >= LeftBunchTrigger(indexCount) && current <= RightBunchTrigger(pageCount, indexCount)
    ensures var left, right := FloorHalf(indexCount - 5), RoundHalf(indexCount - 5);
            && Layout(current, pageCount, indexCount)
               == [Page(1), Ellipsis] + Listing(current, current - left, current + right) + [Ellipsis, Page(pageCount)]
            && right + left + 1 == indexCount - 4
            && |Layout(current, pageCount, indexCount)| == indexCount
  {
    SpansFillBunch(indexCount);
    // The right trigger never lets the bunch run into the maximum start.
    assert RoundHalf(indexCount - 8) <= LeftOfBunchCount(indexCount);
  }

  // ---------------------------------------------------------------------
  // How many entries the strip holds

  /** The right trigger with the tie of round((W - 8) / 2) taken upwards. */
  function IntendedRightBunchTrigger(pageCount: int, indexCount: int): (trigger: int)
  {
    MaximumStartOfBunch(pageCount, indexCount) + RoundHalfUp(indexCount - 8)
  }

  /** The strip with the intended right trigger. */
  function IntendedLayout(current: int, pageCount: int, indexCount: int): (items: seq<Item>)
  {
    Arrange(current, pageCount, indexCount, IntendedRightBunchTrigger(pageCount, indexCount))
  }

  /** With the intended trigger the strip holds all P pages when they fit and
      exactly W entries otherwise, for every allowed W (W >= 7). */
  lemma IntendedLayoutFillsWindow(current: int, pageCount: int, indexCount: int)
    requires indexCount >= 7
    ensures |IntendedLayout(current, pageCount, indexCount)| == if pageCount <= indexCount then Max(pageCount, 0) else indexCount
  {
    if pageCount > indexCount {
      var trigger := IntendedRightBunchTrigger(pageCount, indexCount);
      var s := BunchStart(current, pageCount, indexCount);
      var e := BunchEnd(current, pageCount, indexCount, trigger);
      var left, right := LeftOfBunchCount(indexCount), RightOfBunchCount(indexCount);
      SpansFillBunch(indexCount);
      // Rounding the tie up keeps the right trigger one page short of the left count.
      assert left - RoundHalfUp(indexCount - 8) == 1;
      assert s <= e;
      assert |IntendedLayout(current, pageCount, indexCount)|
          == |StartEllipsis(current, indexCount)| + (e - s + 1) + |EndEllipsis(current, pageCount, trigger)|;
    }
  }

  /** For W >= 8 the source's trigger is the intended one, so its strip
      holds all P pages when they fit and exactly W entries otherwise. */
  lemma LayoutFillsWindow(current: int, pageCount: int, indexCount: int)
    requires indexCount >= 8
    ensures Layout(current, pageCount, indexCount) == IntendedLayout(current, pageCount, indexCount)
    ensures |Layout(current, pageCount, indexCount)| == if pageCount <= indexCount then Max(pageCount, 0) else indexCount
  {
    RoundingsDifferOnlyOnNegativeTies(indexCount - 8);
    IntendedLayoutFillsWindow(current, pageCount, indexCount);
  }

  /** At W = 7 PHP rounds (7 - 8) / 2 to -1, so the strip can hold 8 entries:
      page 96 of 100 shows "1 ... 95 96 97 98 99 100", and page 4 of 8 lists
      all eight pages; the intended trigger gives 7 entries for both. */
  lemma WindowOfSevenOverflows()
    ensures Layout(96, 100, 7)
            == [Page(1), Ellipsis, Page(95), Selected(96), Page(97), Page(98), Page(99), Page(100)]
    ensures Layout(4, 8, 7)
            == [Page(1), Page(2), Page(3), Selected(4), Page(5), Page(6), Page(7), Page(8)]
    ensures |IntendedLayout(96, 100, 7)| == 7 && |IntendedLayout(4, 8, 7)| == 7
  {
    IntendedLayoutFillsWindow(96, 100, 7);
    IntendedLayoutFillsWindow(4, 8, 7);
  }

  // ---------------------------------------------------------------------
  // "Previous" and "Next"

  /** "Previous" is a plain label exactly when c <= 1 and otherwise links to c - 1. */
  lemma PreviousGating(current: int)
    ensures Previous(current) == Label <==> current <= 1
    ensures Previous(current) != Label ==> Previous(current) == Link(current - 1)
  {
  }

  /** "Next" is a plain label exactly when c >= P and otherwise links to c + 1. */
  lemma NextGating(current: int, pageCount: int)
    ensures Next(current, pageCount) == Label <==> current >= pageCount
    ensures Next(current, pageCount) != Label ==> Next(current, pageCount) == Link(current + 1)
  {
  }

  /** On a real page the arrows lead to real pages, and each leads back:
      "Next" on the page "Previous" links to comes back here, and vice versa. */
  lemma ArrowsStepBetweenNeighbours(current: int, pageCount: int)
    requires 1 <= current <= pageCount
    ensures Previous(current).Link? ==>
              && 1 <= Previous(current).target <= pageCount
              && Next(Previous(current).target, pageCount) == Link(current)
    ensures Next(current, pageCount).Link? ==>
              && 1 <= Next(current, pageCount).target <= pageCount
              && Previous(Next(current, pageCount).target) == Link(current)
  {
  }
}
