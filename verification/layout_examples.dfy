/**
 * The worked examples of the paginator's own documentation, for a page
 * count of 100, checked against the layout rule. Where a documented row
 * marks no current page, the first row is taken at page 1 and the last row
 * at page 97.
 */
module LayoutExamples {
  import opened PageLayout

  /** Index count 10: "1 2 3 4 5 6 7 8 .. 100", "1 .. 4 5 *6* 7 8 9 .. 100",
      "1 .. 92 93 *94* 95 96 97 .. 100", "1 .. 93 94 95 96 97 98 99 100". */
  lemma IndexCountTen()
    ensures Layout(1, 100, 10)
            == [Selected(1), Page(2), Page(3), Page(4), Page(5), Page(6), Page(7), Page(8), Ellipsis, Page(100)]
    ensures Layout(6, 100, 10)
            == [Page(1), Ellipsis, Page(4), Page(5), Selected(6), Page(7), Page(8), Page(9), Ellipsis, Page(100)]
    ensures Layout(94, 100, 10)
            == [Page(1), Ellipsis, Page(92), Page(93), Selected(94), Page(95), Page(96), Page(97), Ellipsis, Page(100)]
    ensures Layout(97, 100, 10)
            == [Page(1), Ellipsis, Page(93), Page(94), Page(95), Page(96), Selected(97), Page(98), Page(99), Page(100)]
  {
  }

  /** Index count 11: the bunch holds three pages left and three right of the current one. */
  lemma IndexCountEleven()
    ensures Layout(1, 100, 11)
            == [Selected(1), Page(2), Page(3), Page(4), Page(5), Page(6), Page(7), Page(8), Page(9), Ellipsis, Page(100)]
    ensures Layout(7, 100, 11)
            == [Page(1), Ellipsis, Page(4), Page(5), Page(6), Selected(7), Page(8), Page(9), Page(10), Ellipsis, Page(100)]
    ensures Layout(94, 100, 11)
            == [Page(1), Ellipsis, Page(91), Page(92), Page(93), Selected(94), Page(95), Page(96), Page(97), Ellipsis, Page(100)]
    ensures Layout(97, 100, 11)
            == [Page(1), Ellipsis, Page(92), Page(93), Page(94), Page(95), Page(96), Selected(97), Page(98), Page(99), Page(100)]
  {
  }

  /** Index count 12: three pages left and four right of the current one. */
  lemma IndexCountTwelve()
    ensures Layout(1, 100, 12)
            == [Selected(1), Page(2), Page(3), Page(4), Page(5), Page(6), Page(7), Page(8), Page(9), Page(10), Ellipsis, Page(100)]
    ensures Layout(7, 100, 12)
            == [Page(1), Ellipsis, Page(4), Page(5), Page(6), Selected(7), Page(8), Page(9), Page(10), Page(11), Ellipsis, Page(100)]
    ensures Layout(93, 100, 12)
            == [Page(1), Ellipsis, Page(90), Page(91), Page(92), Selected(93), Page(94), Page(95), Page(96), Page(97), Ellipsis, Page(100)]
    ensures Layout(97, 100, 12)
            == [Page(1), Ellipsis, Page(91), Page(92), Page(93), Page(94), Page(95), Page(96), Selected(97), Page(98), Page(99), Page(100)]
  {
  }

  /** Index count 13: four pages on each side of the current one. The first
      row of the documentation reads "1 2 3 4 5 6 7 8 9 11 .. 100"; the rule
      lists every page from 1 to 11, page 10 included. */
  lemma IndexCountThirteen()
    ensures Layout(1, 100, 13)
            == [Selected(1), Page(2), Page(3), Page(4), Page(5), Page(6), Page(7), Page(8), Page(9), Page(10), Page(11),
                Ellipsis, Page(100)]
    ensures Layout(8, 100, 13)
            == [Page(1), Ellipsis, Page(4), Page(5), Page(6), Page(7), Selected(8), Page(9), Page(10), Page(11), Page(12),
                Ellipsis, Page(100)]
    ensures Layout(93, 100, 13)
            == [Page(1), Ellipsis, Page(89), Page(90), Page(91), Page(92), Selected(93), Page(94), Page(95), Page(96),
                Page(97), Ellipsis, Page(100)]
    ensures Layout(97, 100, 13)
            == [Page(1), Ellipsis, Page(90), Page(91), Page(92), Page(93), Page(94), Page(95), Page(96), Selected(97),
                Page(98), Page(99), Page(100)]
  {
  }

  /** Five pages with index count 10 need no bunch: "1 2 *3* 4 5". */
  lemma FewPagesListedWhole()
    ensures Layout(3, 5, 10) == [Page(1), Page(2), Selected(3), Page(4), Page(5)]
  {
  }
}
