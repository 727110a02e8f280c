/**
 * The paginator control itself: it holds the index count, checks it when it
 * is set, and on each render lays out "Previous", the page indexes and
 * "Next". The page number and page count belong to the paginated control
 * and are passed in.
 */
module PaginatorControl {
  import opened PhpMath
  import opened PageLayout

  /** Result of setting IndexCount: the stored value, or the raised error. */
  datatype Outcome = Stored(value: int) | Rejected(message: string)

  const IndexCountError := "Paginator must have an IndexCount >= 7"

  class Paginator {
    var indexCount: int

    /** The setter's rule, W >= 7: the index count the layout rule is
        designed for, under which GetControlHtml selects exactly the
        current page. */
    ghost predicate Valid()
      reads this
    {
      indexCount >= 7
    }

    constructor ()
      ensures indexCount == 10 && Valid()
    {
      indexCount := 10;
    }

    function IndexCount(): (count: int)
      reads this
    {
      indexCount
    }

    /**
     * Setting IndexCount stores the value first and only then rejects one
     * below 7, so a rejected value stays in force.
     */
    method SetIndexCount(value: int) returns (outcome: Outcome)
      modifies this
      ensures IndexCount() == value
      ensures outcome == if value < 7 then Rejected(IndexCountError) else Stored(value)
      ensures Valid() <==> outcome.Stored?
    {
      indexCount := value;
      if indexCount < 7 {
        outcome := Rejected(IndexCountError);
        return;
      }
      outcome := Stored(indexCount);
    }

    /**
     * Renders the control for the given page of pageCount pages: the
     * "Previous" arrow, the page indexes appended one by one, then "Next".
     */
    method GetControlHtml(pageNumber: int, pageCount: int) returns (view: View)
      ensures view == Render(pageNumber, pageCount, indexCount)
      ensures Valid() && 1 <= pageNumber <= pageCount ==>
                exists i :: 0 <= i < |view.indexes| && view.indexes[i] == Selected(pageNumber)
                  && forall j :: 0 <= j < |view.indexes| && view.indexes[j].Selected? ==> j == i
    {
      var previous: Arrow;
      if pageNumber <= 1 {
        previous := Label;
      } else {
        previous := Link(pageNumber - 1);
      }

      var indexes: seq<Item> := [];
      if pageCount <= indexCount {
        // Every page fits.
        indexes := AppendListing(indexes, pageNumber, 1, pageCount);
        assert indexes == Layout(pageNumber, pageCount, indexCount);
      } else {
        var minimumEndOfBunch := indexCount - 2;
        var maximumStartOfBunch := pageCount - indexCount + 3;
        var leftOfBunchCount := FloorHalf(indexCount - 5);
        var rightOfBunchCount := RoundHalf(indexCount - 5);
        var leftBunchTrigger := 4 + leftOfBunchCount;
        var rightBunchTrigger := maximumStartOfBunch + RoundHalf(indexCount - 8);

        var pageStart: int, startEllipsis: seq<Item>;
        if pageNumber < leftBunchTrigger {
          pageStart, startEllipsis := 1, [];
        } else {
          pageStart := Min(maximumStartOfBunch, pageNumber - leftOfBunchCount);
          startEllipsis := [Page(1), Ellipsis];
        }

        var pageEnd: int, endEllipsis: seq<Item>;
        if pageNumber > rightBunchTrigger {
          pageEnd, endEllipsis := pageCount, [];
        } else {
          pageEnd := Max(minimumEndOfBunch, pageNumber + rightOfBunchCount);
          endEllipsis := [Ellipsis, Page(pageCount)];
        }

        assert rightBunchTrigger == RightBunchTrigger(pageCount, indexCount);
        assert pageStart == BunchStart(pageNumber, pageCount, indexCount);
        assert startEllipsis == StartEllipsis(pageNumber, indexCount);
        assert pageEnd == BunchEnd(pageNumber, pageCount, indexCount, rightBunchTrigger);
        assert endEllipsis == EndEllipsis(pageNumber, pageCount, rightBunchTrigger);
        indexes := AppendListing(startEllipsis, pageNumber, pageStart, pageEnd);
        indexes := indexes + endEllipsis;
        assert indexes == Layout(pageNumber, pageCount, indexCount);
      }

      var next: Arrow;
      if pageNumber >= pageCount {
        next := Label;
      } else {
        next := Link(pageNumber + 1);
      }
      view := View(previous, indexes, next);
      if Valid() && 1 <= pageNumber <= pageCount {
        CurrentPageSelectedOnce(pageNumber, pageCount, indexCount);
      }
    }
  }

  /**
   * The `for` loop of GetControlHtml: appends pages lo..hi in order, the
   * current page as selected text and every other page as a link.
   */
  method AppendListing(indexes: seq<Item>, current: int, lo: int, hi: int) returns (result: seq<Item>)
    ensures result == indexes + Listing(current, lo, hi)
  {
    result := indexes;
    var index := lo;
    while index <= hi
      invariant lo <= index <= Max(hi + 1, lo)
      invariant result == indexes + Listing(current, lo, index - 1)
    {
      if current == index {
        result := result + [Selected(index)];
      } else {
        result := result + [Page(index)];
      }
      index := index + 1;
    }
  }

  /**
   * Setting IndexCount to 3 is rejected, yet the 3 stays in force: page 50
   * of 100 then renders as "1 ... ... 100", with no bunch and no current page.
   */
  method RenderAfterRejectedIndexCount() returns (outcome: Outcome, view: View)
    ensures outcome == Rejected(IndexCountError)
    ensures view.indexes == [Page(1), Ellipsis, Ellipsis, Page(100)]
    ensures forall i :: 0 <= i < |view.indexes| ==> !view.indexes[i].Selected?
  {
    var paginator := new Paginator();
    outcome := paginator.SetIndexCount(3);
    view := paginator.GetControlHtml(50, 100);
  }
}
