# QPaginator page-index layout, in Dafny

This project models the paginator control of the QCubed framework
(`QPaginator`). The control renders "Previous", a strip of page indexes and
"Next" for a paginated data grid or repeater. The modelled logic is the rule
that lays out the strip. It takes three integers: the current page c, the page
count P and the index count W, which is the number of slots the strip aims to
fill (10 by default). The rule decides the following:

- whether "Previous" and "Next" are links or plain labels;
- whether every page is listed, or only a contiguous *bunch* around the
  current page;
- where that bunch starts and ends;
- whether a leading "1 ..." and/or a trailing "... P" is added.

The project also models the `IndexCount` property, whose setter insists on
W >= 7.

Files:

- `php_math.dfy` (module `PhpMath`): PHP's `floor(n / 2)` and `round(n / 2.0)`
  as exact integer functions. PHP's `round` takes ties away from zero, so
  round(-0.5) = -1. The module also has `min`/`max` and the tie-up rounding
  used by the corrected trigger (see Findings).
- `page_layout.dfy` (module `PageLayout`): the items of the strip
  (`Page(n)` is a link, `Selected(n)` is the current page, plus `Ellipsis`).
  It defines the bunch constants of `GetControlHtml` as functions, the strip
  as `Layout(c, P, W)`, the arrows as `Previous(c)` and `Next(c, P)`, and the
  lemmas about them.
- `layout_examples.dfy` (module `LayoutExamples`): the worked examples of the
  source's documentation comment, proved against `Layout`.
- `paginator.dfy` (module `PaginatorControl`): the `Paginator` class, which
  holds `indexCount` and has the constructor, the `IndexCount` setter and
  `GetControlHtml`. `GetControlHtml` appends the strip step by step, as the
  source's two `for` loops do, and is proved equal to `Render`.

Links to page 1 and page P next to an ellipsis are ordinary `Page` items: the
source renders them with the same markup as every other page link.

The `IndexCount` setter stores the value before checking it
(includes/qcubed/controls/QPaginator.class.php:245-247), so a rejected value
stays in force and later renders use it. `SetIndexCount` and
`RenderAfterRejectedIndexCount` show this.

PHP `round` takes ties away from zero. For W >= 7 its argument is negative
only in the right trigger at W = 7 (see Findings). For W < 7, which a rejected
setting can leave in force, more arguments are negative and the model applies
PHP's rounding to them too: at W = 5, round((5 - 8) / 2) = round(-1.5) = -2.

## Model

| member | source | states |
|---|---|---|
| `PhpMath.FloorHalf` | includes/qcubed/controls/QPaginator.class.php:138 | the result r is the largest integer with 2r <= n, i.e. floor(n / 2) |
| `PhpMath.RoundHalf` | includes/qcubed/controls/QPaginator.class.php:139-142 | the result is the integer nearest to n / 2, with a tie going up for positive n and down for negative n (PHP round) |
| `PhpMath.RoundingsDifferOnlyOnNegativeTies` | includes/qcubed/controls/QPaginator.class.php:142 | PHP rounding and tie-up rounding of n / 2 differ exactly when n is negative and odd |
| `PageLayout.Listing` | includes/qcubed/controls/QPaginator.class.php:178-190 | a listing of lo..hi has hi - lo + 1 entries (none when hi < lo), and entry i is page lo + i: selected when it is the current page, a link otherwise |
| `PageLayout.SpansFillBunch` | includes/qcubed/controls/QPaginator.class.php:138-139 | for W >= 5 the left and right spans are non-negative, add up to W - 5, and the right span is the left one or one more |
| `PageLayout.BunchBounds` | includes/qcubed/controls/QPaginator.class.php:144-164 | when P > W >= 7: 1 <= start, start + 2 <= end <= P; start >= 4 with a leading ellipsis; end <= P - 3 with a trailing ellipsis; start <= c <= end whenever 1 <= c <= P |
| `PageLayout.AllPagesListed` | includes/qcubed/controls/QPaginator.class.php:68-82 | when P <= W the strip has max(P, 0) entries, entry i is page i + 1, selected exactly when i + 1 = c and a link otherwise |
| `PageLayout.LeadingEdge` | includes/qcubed/controls/QPaginator.class.php:136-158 | when P > W >= 7: the strip opens with "1 ..." exactly when c >= 4 + floor((W-5)/2), and the bunch then starts at min(P-W+3, c - floor((W-5)/2)) >= 4; otherwise the strip opens with page 1; the strip has at least W entries |
| `PageLayout.TrailingEdge` | includes/qcubed/controls/QPaginator.class.php:135-175 | when P > W >= 7: the strip closes with "... P" exactly when c <= P-W+3 + round((W-8)/2), and the bunch then ends at max(W-2, c + round((W-5)/2)) <= P - 3; otherwise the strip closes with page P |
| `PageLayout.EllipsesOnlyBesideEdges` | includes/qcubed/controls/QPaginator.class.php:144-191 | for W >= 7 an ellipsis only ever stands second or second to last in the strip |
| `PageLayout.LayoutIncreasing` | includes/qcubed/controls/QPaginator.class.php:135-191 | for W >= 7 the page numbers of the strip, ellipses skipped, rise strictly and lie in [1, P], so the edge links never repeat a page of the bunch |
| `PageLayout.CurrentPageSelectedOnce` | includes/qcubed/controls/QPaginator.class.php:71-190 | for W >= 7 every selected entry is page c, no two entries are selected, and some entry is selected exactly when 1 <= c <= P |
| `PageLayout.CentredBunch` | includes/qcubed/controls/QPaginator.class.php:144-175 | with an ellipsis on both sides the strip is exactly "1 ..." + pages c - floor((W-5)/2) .. c + round((W-5)/2) + "... P": a bunch of W - 4 pages and W entries in all |
| `PageLayout.LayoutFillsWindow` | includes/qcubed/controls/QPaginator.class.php:68-191 | for W >= 8 the strip equals the one with the intended trigger, holding all P pages when they fit and exactly W entries otherwise |
| `PageLayout.WindowOfSevenOverflows` | includes/qcubed/controls/QPaginator.class.php:142 | at W = 7, page 96 of 100 shows "1 ... 95 *96* 97 98 99 100" and page 4 of 8 lists all 8 pages, i.e. 8 entries; the intended trigger gives 7 for both |
| `PageLayout.IntendedLayoutFillsWindow` | includes/qcubed/controls/QPaginator.class.php:142 | with round((W-8)/2) taken tie-up, the strip holds all P pages when they fit and exactly W entries otherwise, for every W >= 7 |
| `PageLayout.PreviousGating` | includes/qcubed/controls/QPaginator.class.php:53-62 | "Previous" is a plain label exactly when c <= 1, otherwise a link to c - 1 |
| `PageLayout.NextGating` | includes/qcubed/controls/QPaginator.class.php:197-206 | "Next" is a plain label exactly when c >= P, otherwise a link to c + 1 |
| `PageLayout.ArrowsStepBetweenNeighbours` | includes/qcubed/controls/QPaginator.class.php:53-206 | on a page 1 <= c <= P, each arrow that is a link leads to a page in [1, P], and the opposite arrow there leads back to c |
| `LayoutExamples.IndexCountTen` | includes/qcubed/controls/QPaginator.class.php:111-115 | the four documented strips for W = 10, P = 100 (pages 1, 6, 94, 97) hold exactly |
| `LayoutExamples.IndexCountEleven` | includes/qcubed/controls/QPaginator.class.php:117-121 | the four documented strips for W = 11, P = 100 (pages 1, 7, 94, 97) hold exactly |
| `LayoutExamples.IndexCountTwelve` | includes/qcubed/controls/QPaginator.class.php:123-127 | the four documented strips for W = 12, P = 100 (pages 1, 7, 93, 97) hold exactly |
| `LayoutExamples.IndexCountThirteen` | includes/qcubed/controls/QPaginator.class.php:129-133 | the documented strips for W = 13, P = 100 (pages 8, 93, 97) hold exactly; at page 1 the strip lists pages 1 to 11, where the comment prints "9 11" |
| `LayoutExamples.FewPagesListedWhole` | includes/qcubed/controls/QPaginator.class.php:68-82 | five pages with W = 10 on page 3 show "1 2 *3* 4 5" |
| `PaginatorControl.Paginator.constructor` | includes/qcubed/controls/QPaginator.class.php:15 | a new paginator has index count 10, which satisfies the W >= 7 invariant |
| `PaginatorControl.Paginator.SetIndexCount` | includes/qcubed/controls/QPaginator.class.php:244-248 | the value is stored in every case; it is rejected with the IndexCount error exactly when below 7, otherwise returned; the W >= 7 invariant holds afterwards exactly when the value was accepted |
| `PaginatorControl.Paginator.GetControlHtml` | includes/qcubed/controls/QPaginator.class.php:44-213 | the rendered arrows and strip are exactly Previous(c), Layout(c, P, W) and Next(c, P) for the stored index count W; when W >= 7 and 1 <= c <= P, exactly one entry is selected and it is page c |
| `PaginatorControl.AppendListing` | includes/qcubed/controls/QPaginator.class.php:71-82 | the loop appends exactly the listing of pages lo..hi to what was already emitted |
| `PaginatorControl.RenderAfterRejectedIndexCount` | includes/qcubed/controls/QPaginator.class.php:245-247 | after IndexCount = 3 is rejected, page 50 of 100 renders as "1 ... ... 100", with no bunch and no selected page |

## Left out

- HTML assembly is left out because it is presentation only: the `sprintf` markup, span classes, element ids, the style and attribute strings, and the `|` separators. The model keeps the sequence of items.
- Links are left out because each one is a call into the framework. A link records only its target page; `QApplication::$RequestUri` and `RenderAsEvents` are not modelled.
- `strActionParameter` is left out. It is only the scratch slot that passes each link's target page to `RenderAsEvents`, and the target is already part of each `Page`/`Link` item.
- `objPaginatedControl->DataBind()` is left out because it is a call into the paginated control. The page number and page count it yields are parameters of `GetControlHtml`, because `QPaginatorBase` is not part of this model.
- The `LabelForNext`/`LabelForPrevious` properties, their translation defaults and the `__get` dispatch are left out: they are plain string storage. `Label` stands for whatever label text is configured.
- `QType::Cast` coercion in the setter is left out because it is PHP type juggling. The setter takes an integer.
- PHP floats and 64-bit integer overflow are not modelled. `floor` and `round` of the halves are replaced by exact integer functions on unbounded integers. These agree with PHP while the index count and page count stay within 2^53 in magnitude, where the doubles involved are exact and `PageCount - IndexCount + 3` cannot overflow a 64-bit int.

## Findings

| source | as written | input that shows it | evidently intended | confidence | as-written member | corrected member |
|---|---|---|---|---|---|---|
| includes/qcubed/controls/QPaginator.class.php:142 | the right trigger adds round((W-8)/2), and PHP rounds -0.5 to -1 at W = 7 | W = 7, P = 100, c = 96 gives "1 ... 95 *96* 97 98 99 100" (8 entries); W = 7, P = 8, c = 4 lists all 8 pages | the strip holds exactly W entries once pages are bunched. This holds for every W >= 8, and at W = 7 when the tie is rounded up | medium, not executed | `PageLayout.WindowOfSevenOverflows` | `PageLayout.IntendedLayoutFillsWindow` |
