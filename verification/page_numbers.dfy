/** The pager under the admin lists: previous/next flags and the page-number buttons,
    built the same way in components/admin/promotions-tab.tsx,
    components/admin/orders-tab.tsx and app/admin/panel/page.tsx. A number button is
    a positive page; the markers -1 and -2 are the ellipses before and after the
    window around the current page. */
module PageNumbers {
  import opened Wrappers

  /** The ellipsis between page 1 and the window. */
  const LeadingGap := -1
  /** The ellipsis between the window and the last page. */
  const TrailingGap := -2

  /** The pages `lo`, `lo + 1`, ..., `hi` (none when `hi < lo`). */
  function Run(lo: int, hi: int): (r: seq<int>)
    ensures |r| == if hi >= lo then hi - lo + 1 else 0
    ensures forall i :: 0 <= i < |r| ==> r[i] == lo + i
  {
    var n := if hi >= lo then hi - lo + 1 else 0;
    seq(n, i requires 0 <= i < n => lo + i)
  }

  lemma RunSnoc(lo: int, hi: int)
    requires hi >= lo - 1
    ensures Run(lo, hi + 1) == Run(lo, hi) + [hi + 1]
  {
  }

  function Max(a: int, b: int): int { if a >= b then a else b }
  function Min(a: int, b: int): int { if a <= b then a else b }

  /** The buttons, as a function of the current page and the page count. Up to seven
      pages are all listed; beyond that the window of two pages either side of the
      current one is listed with the first and last pages, and a marker wherever
      pages are skipped. */
  function PageWindow(page: int, totalPages: int): (r: seq<int>)
    ensures |r| <= 9
    ensures forall i :: 0 <= i < |r| ==> r[i] == LeadingGap || r[i] == TrailingGap || 1 <= r[i] <= totalPages
  {
    if totalPages <= 7 then Run(1, totalPages)
    else
      var start := Max(1, page - 2);
      var end := Min(totalPages, page + 2);
      Leading(start) + Run(start, end) + Trailing(end, totalPages)
  }

  /** The buttons before a window starting at `start`: page 1 unless the window
      holds it, then a marker unless page 2 follows. */
  function Leading(start: int): seq<int> {
    (if start > 1 then [1] else []) + (if start > 2 then [LeadingGap] else [])
  }

  /** The buttons after a window ending at `end`: a marker unless the second-to-last
      page follows, then the last page unless the window holds it. */
  function Trailing(end: int, totalPages: int): seq<int> {
    (if end < totalPages - 1 then [TrailingGap] else []) + (if end < totalPages then [totalPages] else [])
  }

  /** `for (let i = lo; i <= hi; i++) pageNumbers.push(i)`. */
  method PushRun(pageNumbers: seq<int>, lo: int, hi: int) returns (pushed: seq<int>)
    ensures pushed == pageNumbers + Run(lo, hi)
  {
    pushed := pageNumbers;
    var i := lo;
    while i <= hi
      invariant lo <= i <= Max(lo, hi + 1)
      invariant pushed == pageNumbers + Run(lo, i - 1)
    {
      RunSnoc(lo, i - 1);
      pushed := pushed + [i];
      i := i + 1;
    }
  }

  /** `pageNumbers`, built by pushing onto an initially empty list. */
  method BuildPageNumbers(page: int, totalPages: int) returns (pageNumbers: seq<int>)
    ensures pageNumbers == PageWindow(page, totalPages)
  {
    pageNumbers := [];
    if totalPages <= 7 {
      pageNumbers := PushRun(pageNumbers, 1, totalPages);
    } else {
      var start := Max(1, page - 2);
      var end := Min(totalPages, page + 2);
      if start > 1 {
        pageNumbers := pageNumbers + [1];
      }
      if start > 2 {
        pageNumbers := pageNumbers + [LeadingGap];
      }
      assert pageNumbers == Leading(start);
      pageNumbers := PushRun(pageNumbers, start, end);
      ghost var body := pageNumbers;
      if end < totalPages - 1 {
        pageNumbers := pageNumbers + [TrailingGap];
      }
      if end < totalPages {
        pageNumbers := pageNumbers + [totalPages];
      }
      assert pageNumbers == body + Trailing(end, totalPages);
    }
  }

  /** Up to seven pages: the buttons are exactly 1..totalPages. */
  lemma FewPagesAllListed(page: int, totalPages: int)
    requires totalPages <= 7
    ensures var r := PageWindow(page, totalPages);
      |r| == Max(0, totalPages) && forall i :: 0 <= i < |r| ==> r[i] == i + 1
  {
  }

  /** What the buttons of a long list look like, for a current page in range: they run
      from page 1 to the last page and number at most nine; every entry is a page or
      a marker; two neighbouring pages are consecutive; and a marker sits between
      two pages and stands for at least one skipped page. */
  lemma ManyPagesShape(page: int, totalPages: int)
    requires totalPages > 7 && 1 <= page <= totalPages
    ensures var r := PageWindow(page, totalPages);
      && |r| <= 9 && r[0] == 1 && r[|r| - 1] == totalPages
      && (forall i :: 0 <= i < |r| ==> 1 <= r[i] <= totalPages || r[i] == LeadingGap || r[i] == TrailingGap)
      && (forall i :: 0 <= i < |r| - 1 && r[i] > 0 && r[i + 1] > 0 ==> r[i + 1] == r[i] + 1)
      && (forall i :: 0 <= i < |r| && r[i] < 0 ==>
            0 < i < |r| - 1 && r[i - 1] > 0 && r[i + 1] > 0 && r[i + 1] - r[i - 1] >= 2)
  {
    var start := Max(1, page - 2);
    var end := Min(totalPages, page + 2);
    var head, mid, tail := Leading(start), Run(start, end), Trailing(end, totalPages);
    assert PageWindow(page, totalPages) == head + mid + tail;
    WindowEnds(head, mid, tail, start, end, totalPages);
    WindowEntries(head, mid, tail, start, end, totalPages);
    WindowSteps(head, mid, tail, start, end, totalPages);
    WindowGaps(head, mid, tail, start, end, totalPages);
  }

  /** For a long list and a current page in range, the window of two pages either side
      of the current one is listed; the leading marker appears exactly when the window
      starts after page 2 and the trailing one exactly when it ends before the
      second-to-last page. */
  lemma ManyPagesWindow(page: int, totalPages: int)
    requires totalPages > 7 && 1 <= page <= totalPages
    ensures var r := PageWindow(page, totalPages);
      var start := Max(1, page - 2);
      var end := Min(totalPages, page + 2);
      && (forall p :: start <= p <= end ==> p in r)
      && (LeadingGap in r <==> start > 2)
      && (TrailingGap in r <==> end < totalPages - 1)
  {
    var start := Max(1, page - 2);
    var end := Min(totalPages, page + 2);
    var head, mid, tail := Leading(start), Run(start, end), Trailing(end, totalPages);
    assert PageWindow(page, totalPages) == head + mid + tail;
    WindowCovers(head, mid, tail, start, end, totalPages);
    WindowMarkers(head, mid, tail, start, end, totalPages);
  }

  // The shape of a long list, part by part: `head`, `mid` and `tail` are the
  // buttons before, in and after the window.

  lemma WindowEnds(head: seq<int>, mid: seq<int>, tail: seq<int>, start: int, end: int, totalPages: int)
    requires 1 <= start <= end <= totalPages && end - start <= 4
    requires head == Leading(start) && mid == Run(start, end) && tail == Trailing(end, totalPages)
    ensures var r := head + mid + tail; |r| <= 9 && r[0] == 1 && r[|r| - 1] == totalPages
  {
    var r := head + mid + tail;
    assert r[0] == if |head| > 0 then head[0] else mid[0];
    assert r[|r| - 1] == if |tail| > 0 then tail[|tail| - 1] else mid[|mid| - 1];
  }

  lemma WindowEntries(head: seq<int>, mid: seq<int>, tail: seq<int>, start: int, end: int, totalPages: int)
    requires 1 <= start <= end <= totalPages && end - start <= 4
    requires head == Leading(start) && mid == Run(start, end) && tail == Trailing(end, totalPages)
    ensures var r := head + mid + tail;
      forall i :: 0 <= i < |r| ==> 1 <= r[i] <= totalPages || r[i] == LeadingGap || r[i] == TrailingGap
  {
    var r := head + mid + tail;
    var h, m := |head|, |mid|;
    assert forall i :: 0 <= i < h ==> r[i] == head[i];
    assert forall i :: h <= i < h + m ==> r[i] == start + (i - h);
    assert forall i :: h + m <= i < |r| ==> r[i] == tail[i - h - m];
  }

  lemma WindowSteps(head: seq<int>, mid: seq<int>, tail: seq<int>, start: int, end: int, totalPages: int)
    requires 1 <= start <= end <= totalPages && end - start <= 4
    requires head == Leading(start) && mid == Run(start, end) && tail == Trailing(end, totalPages)
    ensures var r := head + mid + tail;
      forall i :: 0 <= i < |r| - 1 && r[i] > 0 && r[i + 1] > 0 ==> r[i + 1] == r[i] + 1
  {
    var r := head + mid + tail;
    var h, m := |head|, |mid|;
    assert forall i :: 0 <= i < h ==> r[i] == head[i];
    assert forall i :: h <= i < h + m ==> r[i] == start + (i - h);
    assert forall i :: h + m <= i < |r| ==> r[i] == tail[i - h - m];
  }

  lemma WindowGaps(head: seq<int>, mid: seq<int>, tail: seq<int>, start: int, end: int, totalPages: int)
    requires 1 <= start <= end <= totalPages && end - start <= 4
    requires head == Leading(start) && mid == Run(start, end) && tail == Trailing(end, totalPages)
    ensures var r := head + mid + tail;
      forall i :: 0 <= i < |r| && r[i] < 0 ==>
        0 < i < |r| - 1 && r[i - 1] > 0 && r[i + 1] > 0 && r[i + 1] - r[i - 1] >= 2
  {
    var r := head + mid + tail;
    var h, m := |head|, |mid|;
    assert forall i :: h <= i < h + m ==> r[i] == mid[i - h] > 0;
    forall i | 0 <= i < |r| && r[i] < 0
      ensures 0 < i < |r| - 1 && r[i - 1] > 0 && r[i + 1] > 0 && r[i + 1] - r[i - 1] >= 2
    {
      if i < h {
        assert head == [1, LeadingGap] && i == 1;
        assert r[0] == 1 && r[2] == mid[0] == start;
      } else {
        assert tail == [TrailingGap, totalPages] && i == h + m;
        assert r[i - 1] == mid[m - 1] == end && r[i + 1] == totalPages;
      }
    }
  }

  lemma WindowCovers(head: seq<int>, mid: seq<int>, tail: seq<int>, start: int, end: int, totalPages: int)
    requires 1 <= start <= end <= totalPages && end - start <= 4
    requires head == Leading(start) && mid == Run(start, end) && tail == Trailing(end, totalPages)
    ensures var r := head + mid + tail; forall p :: start <= p <= end ==> p in r
  {
    var r := head + mid + tail;
    forall p | start <= p <= end ensures p in r {
      assert r[|head| + (p - start)] == p;
    }
  }

  lemma WindowMarkers(head: seq<int>, mid: seq<int>, tail: seq<int>, start: int, end: int, totalPages: int)
    requires 1 <= start <= end <= totalPages && end - start <= 4
    requires head == Leading(start) && mid == Run(start, end) && tail == Trailing(end, totalPages)
    ensures var r := head + mid + tail;
      (LeadingGap in r <==> start > 2) && (TrailingGap in r <==> end < totalPages - 1)
  {
    var r := head + mid + tail;
    assert LeadingGap in r <==> LeadingGap in head;
    assert TrailingGap in r <==> TrailingGap in tail;
  }

  /** The previous/next buttons: `totalPages` falls back to 1 when the list carries no
      pagination. */
  datatype Nav = Nav(totalPages: int, showPrev: bool, showNext: bool)

  function NavFlags(page: int, totalPages: Option<int>): (n: Nav)
    ensures n.totalPages == (if totalPages.Some? then totalPages.value else 1)
    ensures n.showPrev <==> page > 1
    ensures n.showNext <==> page < n.totalPages
  {
    var total := if totalPages.Some? then totalPages.value else 1;
    Nav(total, page > 1, page < total)
  }

  /** For a page in range, "previous" is shown exactly when the current page is not
      the first button, and "next" exactly when it is not the last. */
  lemma NavAgreesWithWindow(page: int, totalPages: int)
    requires 1 <= page <= totalPages
    ensures var r := PageWindow(page, totalPages);
      var n := NavFlags(page, Some(totalPages));
      && |r| > 0
      && (n.showPrev <==> r[0] != page)
      && (n.showNext <==> r[|r| - 1] != page)
  {
    if totalPages > 7 {
      var start := Max(1, page - 2);
      var end := Min(totalPages, page + 2);
      var head, mid, tail := Leading(start), Run(start, end), Trailing(end, totalPages);
      assert PageWindow(page, totalPages) == head + mid + tail;
      WindowEnds(head, mid, tail, start, end, totalPages);
    }
  }
}
