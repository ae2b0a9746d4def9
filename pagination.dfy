/**
 * The pagination bar: which page numbers and ellipsis markers are shown for
 * a current page and a page count, and when a click changes the page.
 */
module Pagination {
  import opened Wrappers

  /** One entry of the bar: a page link or an ellipsis marker. */
  datatype Item = Page(n: int) | Ellipsis

  /** Links 1, 2, ..., total (none when total is not positive). */
  function OneTo(total: int): (r: seq<Item>)
    ensures |r| == if total < 0 then 0 else total
    ensures forall i | 0 <= i < |r| :: r[i] == Page(i + 1)
  {
    seq(if total < 0 then 0 else total, i => Page(i + 1))
  }

  /** Links a, a+1, ..., b-1. */
  function Run(a: int, b: int): (r: seq<Item>)
    requires a <= b
    ensures |r| == b - a
    ensures forall i | 0 <= i < |r| :: r[i] == Page(a + i)
  {
    seq(b - a, i => Page(a + i))
  }

  /**
   * The window the bar shows, stated case by case: every page when there
   * are at most seven; otherwise the first and last page, a run of pages
   * next to the current one, and an ellipsis wherever pages are skipped.
   */
  function Window(current: int, total: int): seq<Item> {
    if total <= 7 then OneTo(total)
    else if current <= 4 then [Page(1), Page(2), Page(3), Page(4), Page(5), Ellipsis, Page(total)]
    else if current >= total - 3 then
      [Page(1), Ellipsis, Page(total - 4), Page(total - 3), Page(total - 2), Page(total - 1), Page(total)]
    else [Page(1), Ellipsis, Page(current - 1), Page(current), Page(current + 1), Ellipsis, Page(total)]
  }

  /** The page numbers of a bar, in order, without the ellipses. */
  function PagesOf(s: seq<Item>): (r: seq<int>)
    ensures |r| <= |s|
  {
    if s == [] then []
    else PagesOf(s[..|s| - 1]) + (if s[|s| - 1].Page? then [s[|s| - 1].n] else [])
  }

  ghost predicate NoAdjacentEllipses(s: seq<Item>) {
    forall i, j | 0 <= i < j < |s| && j == i + 1 :: !(s[i].Ellipsis? && s[j].Ellipsis?)
  }

  ghost predicate StrictlyIncreasing(xs: seq<int>) {
    forall i, j | 0 <= i < j < |xs| :: xs[i] < xs[j]
  }

  lemma {:induction false} PagesOfAppend(s: seq<Item>, t: seq<Item>)
    ensures PagesOf(s + t) == PagesOf(s) + PagesOf(t)
    decreases |t|
  {
    if t == [] {
      assert s + t == s;
    } else {
      var last := t[|t| - 1];
      assert (s + t)[..|s + t| - 1] == s + t[..|t| - 1];
      PagesOfAppend(s, t[..|t| - 1]);
    }
  }

  lemma PagesOfOne(x: Item)
    ensures PagesOf([x]) == if x.Page? then [x.n] else []
  {
    assert [x][..0] == [];
  }

  /** Page numbers of a run of links. */
  lemma {:induction false} PagesOfRun(a: int, b: int)
    requires a <= b
    ensures PagesOf(Run(a, b)) == seq(b - a, i => a + i)
    decreases b - a
  {
    if a < b {
      assert Run(a, b) == Run(a, b - 1) + [Page(b - 1)];
      PagesOfAppend(Run(a, b - 1), [Page(b - 1)]);
      PagesOfOne(Page(b - 1));
      PagesOfRun(a, b - 1);
    }
  }

  /** The page numbers of seven items, one item at a time. */
  lemma PagesOfSeven(w: seq<Item>)
    requires |w| == 7
    ensures PagesOf(w)
         == PagesOf([w[0]]) + PagesOf([w[1]]) + PagesOf([w[2]]) + PagesOf([w[3]])
          + PagesOf([w[4]]) + PagesOf([w[5]]) + PagesOf([w[6]])
  {
    assert w == [w[0]] + [w[1]] + [w[2]] + [w[3]] + [w[4]] + [w[5]] + [w[6]];
    PagesOfAppend([w[0]] + [w[1]] + [w[2]] + [w[3]] + [w[4]] + [w[5]], [w[6]]);
    PagesOfAppend([w[0]] + [w[1]] + [w[2]] + [w[3]] + [w[4]], [w[5]]);
    PagesOfAppend([w[0]] + [w[1]] + [w[2]] + [w[3]], [w[4]]);
    PagesOfAppend([w[0]] + [w[1]] + [w[2]], [w[3]]);
    PagesOfAppend([w[0]] + [w[1]], [w[2]]);
    PagesOfAppend([w[0]], [w[1]]);
  }

  /** The page numbers of the window for more than seven pages, case by case. */
  lemma PagesOfWindow(current: int, total: int)
    requires total > 7
    ensures PagesOf(Window(current, total)) ==
      if current <= 4 then [1, 2, 3, 4, 5, total]
      else if current >= total - 3 then [1, total - 4, total - 3, total - 2, total - 1, total]
      else [1, current - 1, current, current + 1, total]
  {
    var w := Window(current, total);
    PagesOfSeven(w);
    if current <= 4 {
      PagesOfLow(w, total);
    } else if current >= total - 3 {
      PagesOfHigh(w, total);
    } else {
      PagesOfMiddle(w, current, total);
    }
  }

  lemma PagesOfLow(w: seq<Item>, total: int)
    requires w == [Page(1), Page(2), Page(3), Page(4), Page(5), Ellipsis, Page(total)]
    ensures PagesOf([w[0]]) + PagesOf([w[1]]) + PagesOf([w[2]]) + PagesOf([w[3]])
          + PagesOf([w[4]]) + PagesOf([w[5]]) + PagesOf([w[6]]) == [1, 2, 3, 4, 5, total]
  {
    PagesOfOne(w[0]); PagesOfOne(w[1]); PagesOfOne(w[2]); PagesOfOne(w[3]);
    PagesOfOne(w[4]); PagesOfOne(w[5]); PagesOfOne(w[6]);
  }

  lemma PagesOfHigh(w: seq<Item>, total: int)
    requires w == [Page(1), Ellipsis, Page(total - 4), Page(total - 3), Page(total - 2), Page(total - 1), Page(total)]
    ensures PagesOf([w[0]]) + PagesOf([w[1]]) + PagesOf([w[2]]) + PagesOf([w[3]])
          + PagesOf([w[4]]) + PagesOf([w[5]]) + PagesOf([w[6]])
         == [1, total - 4, total - 3, total - 2, total - 1, total]
  {
    PagesOfOne(w[0]); PagesOfOne(w[1]); PagesOfOne(w[2]); PagesOfOne(w[3]);
    PagesOfOne(w[4]); PagesOfOne(w[5]); PagesOfOne(w[6]);
  }

  lemma PagesOfMiddle(w: seq<Item>, current: int, total: int)
    requires w == [Page(1), Ellipsis, Page(current - 1), Page(current), Page(current + 1), Ellipsis, Page(total)]
    ensures PagesOf([w[0]]) + PagesOf([w[1]]) + PagesOf([w[2]]) + PagesOf([w[3]])
          + PagesOf([w[4]]) + PagesOf([w[5]]) + PagesOf([w[6]])
         == [1, current - 1, current, current + 1, total]
  {
    PagesOfOne(w[0]); PagesOfOne(w[1]); PagesOfOne(w[2]); PagesOfOne(w[3]);
    PagesOfOne(w[4]); PagesOfOne(w[5]); PagesOfOne(w[6]);
  }

  /**
   * The shape of the window: it starts at page 1 and ends at the last page,
   * an ellipsis follows 1 exactly when current > 4 and precedes the last
   * page exactly when current < total - 3, no two ellipses are adjacent,
   * the page numbers strictly increase, stay within 1..total, and include
   * the current page whenever it is in range.
   */
  lemma WindowShape(current: int, total: int)
    requires total > 7
    ensures var w := Window(current, total);
      && |w| == 7
      && w[0] == Page(1) && w[|w| - 1] == Page(total)
      && (w[1] == Ellipsis <==> current > 4)
      && (w[|w| - 2] == Ellipsis <==> current < total - 3)
      && NoAdjacentEllipses(w)
      && StrictlyIncreasing(PagesOf(w))
      && (forall p | p in PagesOf(w) :: 1 <= p <= total)
      && (1 <= current <= total ==> current in PagesOf(w))
  {
    WindowPages(current, total);
  }

  /** The page numbers a wide window lists climb from 1 to `total` and include the current page. */
  lemma WindowPages(current: int, total: int)
    requires total > 7
    ensures StrictlyIncreasing(PagesOf(Window(current, total)))
    ensures forall p | p in PagesOf(Window(current, total)) :: 1 <= p <= total
    ensures 1 <= current <= total ==> current in PagesOf(Window(current, total))
  {
    PagesOfWindow(current, total);
    var ps := PagesOf(Window(current, total));
    if current <= 4 {
      assert ps == [1, 2, 3, 4, 5, total];
    } else if current >= total - 3 {
      assert ps == [1, total - 4, total - 3, total - 2, total - 1, total];
    } else {
      assert ps == [1, current - 1, current, current + 1, total];
    }
  }

  /** With at most seven pages every page is listed and nothing else. */
  lemma SmallWindow(current: int, total: int)
    requires 1 <= total <= 7
    ensures PagesOf(Window(current, total)) == seq(total, i => i + 1)
    ensures forall i | 0 <= i < |Window(current, total)| :: !Window(current, total)[i].Ellipsis?
  {
    assert Window(current, total) == Run(1, total + 1);
    PagesOfRun(1, total + 1);
  }

  ghost predicate HasEllipsis(s: seq<Item>) {
    Ellipsis in s
  }

  lemma SnocEllipsis(s: seq<Item>, x: Item)
    ensures HasEllipsis(s + [x]) <==> HasEllipsis(s) || x.Ellipsis?
  {
    var t := s + [x];
    if HasEllipsis(s) {
      var i :| 0 <= i < |s| && s[i].Ellipsis?;
      assert t[i].Ellipsis?;
    }
    if x.Ellipsis? {
      assert t[|s|].Ellipsis?;
    }
    if HasEllipsis(t) && !x.Ellipsis? {
      var i :| 0 <= i < |t| && t[i].Ellipsis?;
      assert s[i].Ellipsis?;
    }
  }

  lemma SnocAdjacent(s: seq<Item>, x: Item)
    ensures NoAdjacentEllipses(s + [x]) <==> NoAdjacentEllipses(s) && !(s != [] && s[|s| - 1].Ellipsis? && x.Ellipsis?)
  {
    var t := s + [x];
    if NoAdjacentEllipses(t) {
      forall i, j | 0 <= i < j < |s| && j == i + 1 ensures !(s[i].Ellipsis? && s[j].Ellipsis?) {
        assert t[i] == s[i] && t[j] == s[j];
      }
      if s != [] {
        assert t[|s| - 1] == s[|s| - 1] && t[|s|] == x;
      }
    }
    if NoAdjacentEllipses(s) && !(s != [] && s[|s| - 1].Ellipsis? && x.Ellipsis?) {
      forall i, j | 0 <= i < j < |t| && j == i + 1 ensures !(t[i].Ellipsis? && t[j].Ellipsis?) {
        if j < |s| {
          assert t[i] == s[i] && t[j] == s[j];
        }
      }
    }
  }

  /**
   * The collapsing pass: copies `pages`, skipping an ellipsis that would
   * follow another one.  It removes only ellipses, keeps at least one
   * wherever there was one, and changes nothing when no two were adjacent.
   */
  method DropRepeatedEllipses(pages: seq<Item>) returns (cleaned: seq<Item>)
    ensures NoAdjacentEllipses(cleaned)
    ensures PagesOf(cleaned) == PagesOf(pages)
    ensures |cleaned| <= |pages|
    ensures HasEllipsis(pages) <==> HasEllipsis(cleaned)
    ensures NoAdjacentEllipses(pages) ==> cleaned == pages
  {
    cleaned := [];
    var k := 0;
    while k < |pages|
      invariant k <= |pages| && Cleaned(pages, k, cleaned)
    {
      if pages[k].Ellipsis? && cleaned != [] && cleaned[|cleaned| - 1].Ellipsis? {
        SkipStep(pages, k, cleaned);
      } else {
        KeepStep(pages, k, cleaned);
        cleaned := cleaned + [pages[k]];
      }
      k := k + 1;
    }
    assert pages[..k] == pages;
  }

  /** What the collapsing pass has established after copying the first `k` items into `cleaned`. */
  ghost predicate Cleaned(pages: seq<Item>, k: nat, cleaned: seq<Item>)
    requires k <= |pages|
  {
    && |cleaned| <= k
    && (k > 0 ==> cleaned != [] && cleaned[|cleaned| - 1] == pages[k - 1])
    && NoAdjacentEllipses(cleaned)
    && PagesOf(cleaned) == PagesOf(pages[..k])
    && (HasEllipsis(pages[..k]) <==> HasEllipsis(cleaned))
    && (NoAdjacentEllipses(pages) ==> cleaned == pages[..k])
  }

  /** Skipping an ellipsis that follows one keeps the cleanup's facts, as two ellipses were adjacent. */
  lemma SkipStep(pages: seq<Item>, k: nat, cleaned: seq<Item>)
    requires k < |pages| && Cleaned(pages, k, cleaned)
    requires pages[k].Ellipsis? && cleaned != [] && cleaned[|cleaned| - 1].Ellipsis?
    ensures Cleaned(pages, k + 1, cleaned)
  {
    PrefixPages(pages, k);
    PrefixEllipsis(pages, k);
    assert cleaned[|cleaned| - 1] == Ellipsis == pages[k];
    AdjacentAt(pages, k - 1);
  }

  /** Copying an item that does not repeat an ellipsis keeps the cleanup's facts. */
  lemma KeepStep(pages: seq<Item>, k: nat, cleaned: seq<Item>)
    requires k < |pages| && Cleaned(pages, k, cleaned)
    requires !(pages[k].Ellipsis? && cleaned != [] && cleaned[|cleaned| - 1].Ellipsis?)
    ensures Cleaned(pages, k + 1, cleaned + [pages[k]])
  {
    PrefixPages(pages, k);
    PrefixEllipsis(pages, k);
    SnocPages(cleaned, pages[k]);
    SnocEllipsis(cleaned, pages[k]);
    SnocAdjacent(cleaned, pages[k]);
    if NoAdjacentEllipses(pages) {
      assert cleaned + [pages[k]] == pages[..k + 1];
    }
  }

  lemma SnocPages(s: seq<Item>, x: Item)
    ensures PagesOf(s + [x]) == PagesOf(s) + (if x.Page? then [x.n] else [])
  {
    var t := s + [x];
    assert t[..|t| - 1] == s;
  }

  /** The page numbers of a prefix grow by the next item's. */
  lemma PrefixPages(s: seq<Item>, k: nat)
    requires k < |s|
    ensures PagesOf(s[..k + 1]) == PagesOf(s[..k]) + (if s[k].Page? then [s[k].n] else [])
  {
    assert s[..k + 1] == s[..k] + [s[k]];
    SnocPages(s[..k], s[k]);
  }

  /** A prefix holds an ellipsis once it did or the next item is one. */
  lemma PrefixEllipsis(s: seq<Item>, k: nat)
    requires k < |s|
    ensures HasEllipsis(s[..k + 1]) <==> HasEllipsis(s[..k]) || s[k].Ellipsis?
  {
    assert s[..k + 1] == s[..k] + [s[k]];
  }

  /** Two ellipses in a row break the no-adjacent-ellipses property. */
  lemma AdjacentAt(s: seq<Item>, i: nat)
    requires i + 1 < |s| && s[i].Ellipsis? && s[i + 1].Ellipsis?
    ensures !NoAdjacentEllipses(s)
  {
    var j := i + 1;
    assert s[i].Ellipsis? && s[j].Ellipsis?;
  }

  /** `Math.max(1, Math.min(total, n))`. */
  function Clamp(n: int, total: int): int {
    if total < n then (if total < 1 then 1 else total) else (if n < 1 then 1 else n)
  }

  /**
   * `getVisiblePages`: pushes page 1, returns every page when there are at
   * most seven, otherwise pushes the left ellipsis, the run next to the
   * current page, the right ellipsis and the last page, then collapses
   * adjacent ellipses.  The result is the window.
   */
  method GetVisiblePages(current: int, total: int) returns (visible: seq<Item>)
    ensures visible == Window(current, total)
  {
    var pages: seq<Item> := [];
    var showLeftEllipsis := current > 4;
    var showRightEllipsis := current < total - 3;
    pages := pages + [Page(1)];
    if total <= 7 {
      visible := OneTo(total);
      return;
    }
    if showLeftEllipsis {
      pages := pages + [Ellipsis];
    }
    var start := Clamp(current - 1, total);
    var end := Clamp(current + 1, total);
    if !showLeftEllipsis {
      pages := pages + [Page(2), Page(3), Page(4), Page(5)];
    } else if !showRightEllipsis {
      pages := pages + [Page(total - 4), Page(total - 3), Page(total - 2), Page(total - 1)];
    } else {
      assert start == current - 1 && end == current + 1;
      var before := pages;
      var p := start;
      while p <= end
        invariant start <= p <= end + 1
        invariant pages == before + Run(start, p)
      {
        if p != 1 && p != total {
          pages := pages + [Page(p)];
        }
        p := p + 1;
      }
    }
    if showRightEllipsis {
      pages := pages + [Ellipsis];
    }
    pages := pages + [Page(total)];
    assert pages == Window(current, total);
    WindowShape(current, total);
    visible := DropRepeatedEllipses(pages);
  }

  /**
   * `safeTotal`: the page count capped by `maxTotalPages` when that is set
   * to a truthy (non-zero) number, and never below 1.
   */
  function SafeTotal(totalPages: int, maxTotalPages: Option<int>): (r: int)
    ensures r >= 1
    ensures totalPages >= 1 ==> r <= totalPages
    ensures maxTotalPages.Some? && maxTotalPages.value >= 1 ==> r <= maxTotalPages.value
    ensures (maxTotalPages.None? || maxTotalPages == Some(0) || totalPages <= maxTotalPages.value) && totalPages >= 1
            ==> r == totalPages
    ensures maxTotalPages.Some? && 1 <= maxTotalPages.value < totalPages ==> r == maxTotalPages.value
    ensures maxTotalPages.Some? && maxTotalPages.value < 0 ==> r == 1
    ensures totalPages < 1 ==> r == 1
  {
    var capped := if maxTotalPages.Some? && maxTotalPages.value != 0 then
                    (if maxTotalPages.value < totalPages then maxTotalPages.value else totalPages)
                  else totalPages;
    if capped < 1 then 1 else capped
  }

  /** Whether `go(p)` calls `onPageChange(p)`. */
  predicate Go(p: int, page: int, safeTotal: int, disabled: bool) {
    if disabled then false
    else if p < 1 || p > safeTotal then false
    else if p == page then false
    else true
  }

  /**
   * The bar as rendered: nothing when the capped page count is at most 1,
   * otherwise the window for the current page; every page link in it is a
   * page within the capped count.
   */
  method Bar(page: int, totalPages: int, maxTotalPages: Option<int>) returns (visible: Option<seq<Item>>)
    ensures visible.None? <==> SafeTotal(totalPages, maxTotalPages) <= 1
    ensures visible.Some? ==> visible.value == Window(page, SafeTotal(totalPages, maxTotalPages))
    ensures visible.Some? ==> forall p | p in PagesOf(visible.value) :: 1 <= p <= SafeTotal(totalPages, maxTotalPages)
  {
    var safeTotal := SafeTotal(totalPages, maxTotalPages);
    if safeTotal <= 1 {
      return None;
    }
    var pages := GetVisiblePages(page, safeTotal);
    if safeTotal > 7 {
      WindowShape(page, safeTotal);
    } else {
      SmallWindow(page, safeTotal);
    }
    visible := Some(pages);
  }

  /**
   * Clicking a page link of the bar changes the page exactly when the bar
   * is enabled and the link is not the current page; the previous and next
   * arrows, when enabled by `canPrev`/`canNext`, move by one page.
   */
  lemma LinkClick(page: int, safeTotal: int, disabled: bool, p: int)
    requires safeTotal > 1
    requires p in PagesOf(Window(page, safeTotal))
    ensures Go(p, page, safeTotal, disabled) <==> !disabled && p != page
    ensures 1 <= page <= safeTotal ==>
              (page > 1 ==> (Go(page - 1, page, safeTotal, disabled) <==> !disabled))
              && (page < safeTotal ==> (Go(page + 1, page, safeTotal, disabled) <==> !disabled))
  {
    if safeTotal > 7 {
      WindowShape(page, safeTotal);
    } else {
      SmallWindow(page, safeTotal);
    }
  }
}
