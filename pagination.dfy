/** The `Pagination` component: which page buttons it shows and which are disabled. */
module Pagination {
  import opened Text

  datatype PageItem = Page(n: int) | Ellipsis

  /** How many pages are shown on each side of the current one. */
  const Delta := 2

  function Max(a: int, b: int): int { if a >= b then a else b }
  function Min(a: int, b: int): int { if a <= b then a else b }

  function WindowStart(current: int): int { Max(2, current - Delta) }
  function WindowEnd(current: int, total: int): int { Min(total - 1, current + Delta) }

  /** The middle range: the consecutive pages from `max(2, c-2)` to `min(total-1, c+2)`. */
  function Window(current: int, total: int): (w: seq<int>)
    ensures var lo, hi := WindowStart(current), WindowEnd(current, total);
      |w| == (if lo <= hi then hi - lo + 1 else 0) && forall k | 0 <= k < |w| :: w[k] == lo + k
  {
    var lo, hi := WindowStart(current), WindowEnd(current, total);
    seq(if lo <= hi then hi - lo + 1 else 0, k => lo + k)
  }

  function PagesOf(ns: seq<int>): (r: seq<PageItem>)
    ensures |r| == |ns| && forall k | 0 <= k < |ns| :: r[k] == Page(ns[k])
  {
    seq(|ns|, k requires 0 <= k < |ns| => Page(ns[k]))
  }

  predicate LeftGap(current: int) { current - Delta > 2 }
  predicate RightGap(current: int, total: int) { current + Delta < total - 1 }

  /** `getVisiblePages()` as a specification. */
  function VisiblePages(current: int, total: int): seq<PageItem> {
    (if LeftGap(current) then [Page(1), Ellipsis] else [Page(1)])
    + PagesOf(Window(current, total))
    + (if RightGap(current, total) then [Ellipsis, Page(total)] else [Page(total)])
  }

  /** `getVisiblePages()`: the counting loop fills the range, then the list is built. */
  method GetVisiblePages(current: int, total: int) returns (pages: seq<PageItem>)
    ensures pages == VisiblePages(current, total)
    ensures |pages| >= 2 && pages[0] == Page(1) && pages[|pages| - 1] == Page(total)
  {
    var range: seq<int> := [];
    var lo, hi := Max(2, current - Delta), Min(total - 1, current + Delta);
    var i := lo;
    while i <= hi
      invariant lo <= i <= Max(lo, hi + 1)
      invariant |range| == i - lo && forall k | 0 <= k < |range| :: range[k] == lo + k
      decreases hi - i
    {
      range := range + [i];
      i := i + 1;
    }
    assert range == Window(current, total);
    var withDots: seq<PageItem>;
    if current - Delta > 2 {
      withDots := [Page(1), Ellipsis];
    } else {
      withDots := [Page(1)];
    }
    withDots := withDots + PagesOf(range);
    if current + Delta < total - 1 {
      withDots := withDots + [Ellipsis, Page(total)];
    } else {
      withDots := withDots + [Page(total)];
    }
    pages := withDots;
  }

  /** The page numbers shown, in order. */
  function Numbers(items: seq<PageItem>): (ns: seq<int>)
    ensures |ns| <= |items|
  {
    if items == [] then []
    else (if items[0].Page? then [items[0].n] else []) + Numbers(items[1..])
  }

  lemma {:induction false} NumbersAppend(a: seq<PageItem>, b: seq<PageItem>)
    ensures Numbers(a + b) == Numbers(a) + Numbers(b)
  {
    if a != [] {
      assert (a + b)[0] == a[0];
      assert (a + b)[1..] == a[1..] + b;
      NumbersAppend(a[1..], b);
      assert Numbers(a + b) == (if a[0].Page? then [a[0].n] else []) + Numbers(a[1..] + b);
    } else {
      assert a + b == b;
    }
  }

  lemma {:induction false} NumbersOfPages(ns: seq<int>)
    ensures Numbers(PagesOf(ns)) == ns
  {
    if ns != [] {
      assert PagesOf(ns)[1..] == PagesOf(ns[1..]);
      NumbersOfPages(ns[1..]);
    }
  }

  predicate StrictlyIncreasing(ns: seq<int>) {
    forall i, j | 0 <= i < j < |ns| :: ns[i] < ns[j]
  }

  /** For a current page within range and at least two pages, the page numbers shown
      are 1, the window, then the last page, strictly increasing and hence without
      duplicates. */
  lemma VisiblePagesIncreasing(current: int, total: int)
    requires 1 <= current <= total && total >= 2
    ensures Numbers(VisiblePages(current, total)) == [1] + Window(current, total) + [total]
    ensures StrictlyIncreasing(Numbers(VisiblePages(current, total)))
  {
    var pre := if LeftGap(current) then [Page(1), Ellipsis] else [Page(1)];
    var post := if RightGap(current, total) then [Ellipsis, Page(total)] else [Page(total)];
    var w := Window(current, total);
    NumbersAppend(pre + PagesOf(w), post);
    NumbersAppend(pre, PagesOf(w));
    NumbersOfPages(w);
    assert Numbers(pre) == [1] by {
      if LeftGap(current) {
        assert pre[1..] == [Ellipsis];
        assert Numbers([Ellipsis]) == [];
      }
    }
    assert Numbers(post) == [total] by {
      if RightGap(current, total) {
        assert post[1..] == [Page(total)];
      }
    }
    assert StrictlyIncreasing(w) && forall k | 0 <= k < |w| :: 1 < w[k] < total;
    FramedIncreasing(w, total);
  }

  /** An increasing run strictly between 1 and `total`, framed by the two. */
  lemma FramedIncreasing(w: seq<int>, total: int)
    requires 1 < total && StrictlyIncreasing(w)
    requires forall k | 0 <= k < |w| :: 1 < w[k] < total
    ensures StrictlyIncreasing([1] + w + [total])
  {
    var ns := [1] + w + [total];
    forall i, j | 0 <= i < j < |ns| ensures ns[i] < ns[j] {
      if i == 0 && 0 < j < |ns| - 1 {
        assert ns[j] == w[j - 1];
      } else if 0 < i && j < |ns| - 1 {
        assert ns[i] == w[i - 1] && ns[j] == w[j - 1];
      } else if 0 < i < |ns| - 1 && j == |ns| - 1 {
        assert ns[i] == w[i - 1];
      }
    }
  }

  /** An ellipsis follows the first page exactly when the window starts past page 3, and
      precedes the last page exactly when it ends before the last page but one; the
      current page is always shown. */
  lemma EllipsisPlacement(current: int, total: int)
    requires 1 <= current <= total && total >= 2
    ensures var pages := VisiblePages(current, total);
      |pages| >= 2 &&
      (pages[1] == Ellipsis <==> current - 2 > 2) &&
      (pages[|pages| - 2] == Ellipsis <==> current + 2 < total - 1) &&
      Page(current) in pages
  {
    var pre := if LeftGap(current) then [Page(1), Ellipsis] else [Page(1)];
    var post := if RightGap(current, total) then [Ellipsis, Page(total)] else [Page(total)];
    var w := Window(current, total);
    var pages := pre + PagesOf(w) + post;
    assert pages == VisiblePages(current, total);
    if total >= 3 {
      assert |w| >= 1;
      assert pages[|pre|] == Page(w[0]);
      assert pages[|pages| - |post| - 1] == Page(w[|w| - 1]);
    } else {
      assert w == [];
      assert pages == [Page(1), Page(total)];
    }
    if current == 1 {
      assert pages[0] == Page(1);
    } else if current == total {
      assert pages[|pages| - 1] == Page(total);
    } else {
      var k := current - WindowStart(current);
      assert 0 <= k < |w| && w[k] == current;
      assert pages[|pre| + k] == Page(current);
    }
  }

  /** Every page button leads to a page within range. */
  lemma PagesInRange(current: int, total: int)
    requires 1 <= current <= total
    ensures forall k | 0 <= k < |VisiblePages(current, total)| ::
      VisiblePages(current, total)[k].Page? ==> 1 <= VisiblePages(current, total)[k].n <= total
  {
    var pre := if LeftGap(current) then [Page(1), Ellipsis] else [Page(1)];
    var post := if RightGap(current, total) then [Ellipsis, Page(total)] else [Page(total)];
    var w := Window(current, total);
    var pages := pre + PagesOf(w) + post;
    forall k | 0 <= k < |pages| && pages[k].Page? ensures 1 <= pages[k].n <= total {
      if k < |pre| {
      } else if k < |pre| + |w| {
        assert pages[k] == Page(w[k - |pre|]);
      } else {
        assert pages[k] == post[k - |pre| - |w|];
      }
    }
  }

  predicate PreviousDisabled(current: int) { current == 1 }
  predicate NextDisabled(current: int, total: int) { current == total }
  predicate ButtonDisabled(item: PageItem) { item == Ellipsis }

  /** `onClick` of a page button: a number moves there, an ellipsis does nothing. */
  function Click(item: PageItem): (r: Option<int>)
    ensures r.Some? <==> !ButtonDisabled(item)
    ensures item.Page? ==> r == Some(item.n)
  {
    if item.Page? then Some(item.n) else None
  }

  /** A rendered button: whether it is disabled, and the page its `onClick` hands to
      `onPageChange`, if any. */
  datatype Button = Button(disabled: bool, target: Option<int>)

  function PageButton(item: PageItem): Button {
    Button(ButtonDisabled(item), Click(item))
  }

  /** The component's buttons: nothing for a single page, otherwise Previous, one button
      per visible page or ellipsis, then Next. */
  function Buttons(current: int, total: int): (r: Option<seq<Button>>)
    ensures r.None? <==> total <= 1
    ensures r.Some? ==> |r.value| == |VisiblePages(current, total)| + 2
  {
    if total <= 1 then None
    else
      var pages := VisiblePages(current, total);
      Some([Button(PreviousDisabled(current), Some(current - 1))]
           + seq(|pages|, k requires 0 <= k < |pages| => PageButton(pages[k]))
           + [Button(NextDisabled(current, total), Some(current + 1))])
  }

  /** With the current page within range, every enabled button of the rendered
      component, Previous, Next and the page buttons alike, leads to a page in
      `1..total`, and only the ellipses have no target. */
  lemma ButtonsInRange(current: int, total: int)
    requires 1 <= current <= total
    ensures Buttons(current, total).Some? ==>
      forall k | 0 <= k < |Buttons(current, total).value| ::
        var b := Buttons(current, total).value[k];
        (!b.disabled ==> b.target.Some? && 1 <= b.target.value <= total) &&
        (b.target.None? <==> 0 < k < |Buttons(current, total).value| - 1 && VisiblePages(current, total)[k - 1] == Ellipsis)
  {
    if total > 1 {
      var bs := Buttons(current, total).value;
      var pages := VisiblePages(current, total);
      PagesInRange(current, total);
      forall k | 0 <= k < |bs|
        ensures !bs[k].disabled ==> bs[k].target.Some? && 1 <= bs[k].target.value <= total
        ensures bs[k].target.None? <==> 0 < k < |bs| - 1 && pages[k - 1] == Ellipsis
      {
        if 0 < k < |bs| - 1 {
          assert bs[k] == PageButton(pages[k - 1]);
        }
      }
    }
  }
}
