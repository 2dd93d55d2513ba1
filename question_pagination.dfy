/** The pagination bar under the question list: previous and next buttons, a window of at most
    five numbered page links around the current page, and an ellipsis followed by a link to
    the last page. */
module QuestionPagination {
  import opened Wrappers

  /** The most numbered links the bar shows at once. */
  const WindowSize: int := 5

  /** A numbered link: the page it goes to, and whether it is drawn as the current page. */
  datatype PageLink = PageLink(page: int, active: bool)

  /** What the bar shows for a given page count and current page. `lastPage` is the
      ellipsis and the link after it, when they are shown. */
  datatype Controls = Controls(
    previous: int,
    previousDisabled: bool,
    links: seq<PageLink>,
    lastPage: Option<int>,
    next: int,
    nextDisabled: bool)

  function Min(a: int, b: int): int {
    if a <= b then a else b
  }

  /** The page the previous button goes to: one back, but never before page 1. */
  function PreviousTarget(currentPage: int): (p: int)
    ensures p >= 1
    ensures p <= currentPage || currentPage < 1
    ensures currentPage > 1 ==> p == currentPage - 1
    ensures currentPage <= 1 ==> p == 1
  {
    if currentPage - 1 >= 1 then currentPage - 1 else 1
  }

  /** The page the next button goes to: one on, but never past the last page. */
  function NextTarget(currentPage: int, totalPages: int): (p: int)
    ensures p <= totalPages
    ensures p <= currentPage + 1
    ensures currentPage < totalPages ==> p == currentPage + 1
    ensures currentPage >= totalPages ==> p == totalPages
  {
    if currentPage + 1 <= totalPages then currentPage + 1 else totalPages
  }

  /** Both buttons stay on the existing pages when the current page is one of them. */
  lemma TargetsInRange(currentPage: int, totalPages: int)
    requires 1 <= currentPage <= totalPages
    ensures 1 <= PreviousTarget(currentPage) <= totalPages
    ensures 1 <= NextTarget(currentPage, totalPages) <= totalPages
  {
  }

  /** The page proposed by slot `index` of the window: a window starting three pages before
      the current one once the current page is past 3 and there are more than five pages,
      otherwise the first five pages. */
  function Candidate(totalPages: int, currentPage: int, index: int): (page: int)
    ensures index >= 0 ==> page >= index + 1
  {
    if currentPage > 3 && totalPages > WindowSize then currentPage - 3 + index else index + 1
  }

  /** The pages proposed by the first `n` slots, leaving out those past the last page. */
  function Window(totalPages: int, currentPage: int, n: nat): (pages: seq<int>)
    ensures |pages| <= n
    ensures forall i :: 0 <= i < |pages| ==> 1 <= pages[i] <= totalPages
  {
    if n == 0 then []
    else
      var page := Candidate(totalPages, currentPage, n - 1);
      Window(totalPages, currentPage, n - 1) + (if page > totalPages then [] else [page])
  }

  /** The consecutive pages lo, lo + 1, ..., hi (none when hi < lo). */
  function Range(lo: int, hi: int): (r: seq<int>)
    ensures |r| == if hi < lo then 0 else hi - lo + 1
    ensures forall i :: 0 <= i < |r| ==> r[i] == lo + i
    decreases hi - lo
  {
    if hi < lo then [] else Range(lo, hi - 1) + [hi]
  }

  /** The window of numbered links for more than one page. */
  function ShownPages(totalPages: int, currentPage: int): (pages: seq<int>)
    requires totalPages > 1
    ensures |pages| <= Min(totalPages, WindowSize)
    ensures forall i :: 0 <= i < |pages| ==> 1 <= pages[i] <= totalPages
    ensures forall i, j :: 0 <= i < j < |pages| ==> pages[i] < pages[j]
  {
    var n := Min(totalPages, WindowSize);
    WindowIsRange(totalPages, currentPage, n);
    Window(totalPages, currentPage, n)
  }

  /** The first `n` slots propose consecutive pages from the first slot's page, cut at the
      last page. */
  lemma {:induction false} WindowIsRange(totalPages: int, currentPage: int, n: nat)
    ensures Window(totalPages, currentPage, n)
         == Range(Candidate(totalPages, currentPage, 0),
                  Min(Candidate(totalPages, currentPage, 0) + n - 1, totalPages))
  {
    var c0 := Candidate(totalPages, currentPage, 0);
    if n > 0 {
      WindowIsRange(totalPages, currentPage, n - 1);
      var c := Candidate(totalPages, currentPage, n - 1);
      assert c == c0 + n - 1;
    }
  }

  /** The window in closed form: pages currentPage - 3 to currentPage + 1 once the current page
      is past 3 and there are more than five pages, otherwise pages 1 to 5; in both cases
      cut at the last page. */
  lemma ShownPagesRange(totalPages: int, currentPage: int)
    requires totalPages > 1
    ensures ShownPages(totalPages, currentPage)
         == if currentPage > 3 && totalPages > WindowSize
            then Range(currentPage - 3, Min(currentPage + 1, totalPages))
            else Range(1, Min(totalPages, WindowSize))
  {
    WindowIsRange(totalPages, currentPage, Min(totalPages, WindowSize));
  }

  /** The current page always has a link of its own when it is one of the pages. */
  lemma CurrentPageShown(totalPages: int, currentPage: int)
    requires totalPages > 1
    requires 1 <= currentPage <= totalPages
    ensures currentPage in ShownPages(totalPages, currentPage)
  {
    ShownPagesRange(totalPages, currentPage);
    var pages := ShownPages(totalPages, currentPage);
    if currentPage > 3 && totalPages > WindowSize {
      assert pages[3] == currentPage;
    } else {
      assert pages[currentPage - 1] == currentPage;
    }
  }

  /** With five pages or fewer, every page has a link. */
  lemma AllPagesShownWhenFew(totalPages: int, currentPage: int)
    requires 1 < totalPages <= WindowSize
    ensures ShownPages(totalPages, currentPage) == Range(1, totalPages)
  {
    ShownPagesRange(totalPages, currentPage);
  }

  /** The condition guarding the ellipsis and the last-page link, as the bar states it. It
      is stricter than the corrected condition `LastPageLink`, and differs from it only when
      the current page is the one two before the last. */
  predicate LastPageLinkAsWritten(totalPages: int, currentPage: int)
    ensures LastPageLinkAsWritten(totalPages, currentPage) ==> LastPageLink(totalPages, currentPage)
    ensures LastPageLinkAsWritten(totalPages, currentPage) != LastPageLink(totalPages, currentPage)
            <==> totalPages > WindowSize && currentPage == totalPages - 2
  {
    totalPages > WindowSize && currentPage < totalPages - 2
  }

  /** As written, page `totalPages` is left without any link when the current page is two
      before the last and past 3: for six pages and current page 4 the window is 1 to 5. */
  lemma LastPageUnreachableAsWritten()
    ensures !LastPageLinkAsWritten(6, 4)
    ensures 6 !in ShownPages(6, 4)
  {
    ShownPagesRange(6, 4);
    assert ShownPages(6, 4) == [1, 2, 3, 4, 5];
  }

  /** Exactly those current pages lose the link to the last page as written. */
  lemma LastPageMissingAsWritten(totalPages: int, currentPage: int)
    requires totalPages > 1
    requires 1 <= currentPage <= totalPages
    ensures (!LastPageLinkAsWritten(totalPages, currentPage) && totalPages !in ShownPages(totalPages, currentPage))
        <==> (currentPage == totalPages - 2 && currentPage > 3)
  {
    LastPageShownIff(totalPages, currentPage);
  }

  /** The corrected condition: the ellipsis and the last-page link appear whenever the last
      page is not in the window (see `LastPageShownIff`). It never holds on the last two
      pages, nor with five pages or fewer. */
  predicate LastPageLink(totalPages: int, currentPage: int)
    ensures LastPageLink(totalPages, currentPage) ==> totalPages > WindowSize
    ensures currentPage >= totalPages - 1 ==> !LastPageLink(totalPages, currentPage)
  {
    totalPages > WindowSize && currentPage < totalPages - 1
  }

  /** For a current page among the pages, the last page is in the window exactly when the
      corrected condition is off. */
  lemma LastPageShownIff(totalPages: int, currentPage: int)
    requires totalPages > 1
    requires 1 <= currentPage <= totalPages
    ensures totalPages in ShownPages(totalPages, currentPage) <==> !LastPageLink(totalPages, currentPage)
  {
    ShownPagesRange(totalPages, currentPage);
    var pages := ShownPages(totalPages, currentPage);
    if !LastPageLink(totalPages, currentPage) {
      if currentPage > 3 && totalPages > WindowSize {
        assert pages[totalPages - currentPage + 3] == totalPages;
      } else {
        assert pages[totalPages - 1] == totalPages;
      }
    } else {
      assert forall i :: 0 <= i < |pages| ==> pages[i] < totalPages;
    }
  }

  /** The numbered links for a window: only the current page is drawn as active. */
  function Links(pages: seq<int>, currentPage: int): (links: seq<PageLink>)
    ensures |links| == |pages|
    ensures forall i :: 0 <= i < |pages| ==> links[i].page == pages[i]
    ensures forall i :: 0 <= i < |pages| ==> (links[i].active <==> pages[i] == currentPage)
  {
    seq(|pages|, i requires 0 <= i < |pages| => PageLink(pages[i], pages[i] == currentPage))
  }

  /** The bar for a given page count and current page, with the ellipsis and the last-page
      link shown when `showLast` holds; nothing at all for a single page or none. */
  function Bar(totalPages: int, currentPage: int, showLast: bool): (c: Option<Controls>)
    ensures c.None? <==> totalPages <= 1
    ensures c.Some? ==> (c.value.previousDisabled <==> currentPage == 1)
    ensures c.Some? ==> (c.value.nextDisabled <==> currentPage == totalPages)
    ensures c.Some? ==> |c.value.links| <= Min(totalPages, WindowSize)
    ensures c.Some? && 1 <= currentPage <= totalPages ==>
              1 <= c.value.previous <= totalPages && 1 <= c.value.next <= totalPages
    ensures c.Some? ==> (c.value.lastPage.Some? <==> showLast)
    ensures c.Some? ==> (c.value.lastPage.Some? ==> c.value.lastPage.value == totalPages)
  {
    if totalPages <= 1 then None
    else
      var pages := ShownPages(totalPages, currentPage);
      Some(Controls(
        PreviousTarget(currentPage),
        currentPage == 1,
        Links(pages, currentPage),
        if showLast then Some(totalPages) else None,
        NextTarget(currentPage, totalPages),
        currentPage == totalPages))
  }

  /** The bar as the component draws it: the ellipsis and the last-page link follow the
      as-written condition. */
  function PaginationControls(totalPages: int, currentPage: int): (c: Option<Controls>)
    ensures c.None? <==> totalPages <= 1
    ensures c.Some? ==> (c.value.lastPage.Some? <==> LastPageLinkAsWritten(totalPages, currentPage))
  {
    Bar(totalPages, currentPage, LastPageLinkAsWritten(totalPages, currentPage))
  }

  /** The bar with the corrected condition for the ellipsis and the last-page link. */
  function PaginationControlsCorrected(totalPages: int, currentPage: int): (c: Option<Controls>)
    ensures c.None? <==> totalPages <= 1
    ensures c.Some? ==> (c.value.lastPage.Some? <==> LastPageLink(totalPages, currentPage))
  {
    Bar(totalPages, currentPage, LastPageLink(totalPages, currentPage))
  }

  /** Whatever decides the last-page link, the bar links the current page exactly once and
      active, and no other link is active. */
  lemma BarLinksCurrent(totalPages: int, currentPage: int, showLast: bool)
    requires totalPages > 1
    requires 1 <= currentPage <= totalPages
    ensures var c := Bar(totalPages, currentPage, showLast).value;
            (exists i :: 0 <= i < |c.links| && c.links[i] == PageLink(currentPage, true))
            && (forall i :: 0 <= i < |c.links| && c.links[i].active ==> c.links[i].page == currentPage)
  {
    var pages := ShownPages(totalPages, currentPage);
    var c := Bar(totalPages, currentPage, showLast).value;
    CurrentPageShown(totalPages, currentPage);
    var k :| 0 <= k < |pages| && pages[k] == currentPage;
    assert c.links[k] == PageLink(currentPage, true);
  }

  /** The last page has a link in the window exactly when the page itself is in the window. */
  lemma BarLinksPage(totalPages: int, currentPage: int, showLast: bool)
    requires totalPages > 1
    ensures var c := Bar(totalPages, currentPage, showLast).value;
            (exists i :: 0 <= i < |c.links| && c.links[i].page == totalPages)
            <==> totalPages in ShownPages(totalPages, currentPage)
  {
    var pages := ShownPages(totalPages, currentPage);
    var c := Bar(totalPages, currentPage, showLast).value;
    if totalPages in pages {
      var j :| 0 <= j < |pages| && pages[j] == totalPages;
      assert c.links[j].page == totalPages;
    }
  }

  /** The bar as drawn links the current page exactly once and active; the last page, though,
      has no link at all, in the window or after the ellipsis, exactly when the current page
      is two before the last and past 3. */
  lemma ControlsAsWritten(totalPages: int, currentPage: int)
    requires totalPages > 1
    requires 1 <= currentPage <= totalPages
    ensures var c := PaginationControls(totalPages, currentPage).value;
            (exists i :: 0 <= i < |c.links| && c.links[i] == PageLink(currentPage, true))
            && (forall i :: 0 <= i < |c.links| && c.links[i].active ==> c.links[i].page == currentPage)
            && (!(exists i :: 0 <= i < |c.links| && c.links[i].page == totalPages) && c.lastPage.None?
                <==> currentPage == totalPages - 2 && currentPage > 3)
  {
    var show := LastPageLinkAsWritten(totalPages, currentPage);
    BarLinksCurrent(totalPages, currentPage, show);
    BarLinksPage(totalPages, currentPage, show);
    LastPageMissingAsWritten(totalPages, currentPage);
    assert PaginationControls(totalPages, currentPage) == Bar(totalPages, currentPage, show);
  }

  /** With the corrected condition, the bar links every page it must: the current one exactly
      once and active, and the last page exactly once, either in the window or after the
      ellipsis. */
  lemma ControlsLinkCurrentAndLast(totalPages: int, currentPage: int)
    requires totalPages > 1
    requires 1 <= currentPage <= totalPages
    ensures var c := PaginationControlsCorrected(totalPages, currentPage).value;
            (exists i :: 0 <= i < |c.links| && c.links[i] == PageLink(currentPage, true))
            && (forall i :: 0 <= i < |c.links| && c.links[i].active ==> c.links[i].page == currentPage)
            && ((exists i :: 0 <= i < |c.links| && c.links[i].page == totalPages) <==> c.lastPage.None?)
  {
    var show := LastPageLink(totalPages, currentPage);
    BarLinksCurrent(totalPages, currentPage, show);
    BarLinksPage(totalPages, currentPage, show);
    LastPageShownIff(totalPages, currentPage);
    assert PaginationControlsCorrected(totalPages, currentPage) == Bar(totalPages, currentPage, show);
  }
}
