/** Server-side pagination of the two list endpoints (app/api/promotions/route.ts and
    app/api/admin/orders/route.ts): clamping the requested page and page size, the
    row range asked of the database, the page count, and which rows a page holds when
    rows are listed by descending id. Query parameters are integers here: `None` is an
    absent parameter, `Some(n)` one that `Number()` reads as `n`. */
module Paging {
  import opened Wrappers

  /** `Math.max(1, Number(page ?? 1))` and `Math.max(1, Number(page) || 1)`: on
      integer input both lists clamp the page the same way. */
  function ClampPage(page: Option<int>): (p: int)
    ensures p >= 1
    ensures page.None? ==> p == 1
    ensures page.Some? && page.value >= 1 ==> p == page.value
    ensures page.Some? && page.value < 1 ==> p == 1
  {
    if page.Some? && page.value >= 1 then page.value else 1
  }

  /** `Math.min(100, Math.max(1, Number(pageSize ?? 10)))`: 10 when absent, and an
      explicit 0 or negative size becomes 1. */
  function PromotionsPageSize(pageSize: Option<int>): (s: int)
    ensures 1 <= s <= 100
    ensures pageSize.None? ==> s == 10
    ensures pageSize.Some? && 1 <= pageSize.value <= 100 ==> s == pageSize.value
    ensures pageSize.Some? && pageSize.value > 100 ==> s == 100
    ensures pageSize.Some? && pageSize.value < 1 ==> s == 1
  {
    var n := if pageSize.Some? then pageSize.value else 10;
    if n < 1 then 1 else if n > 100 then 100 else n
  }

  const DefaultPageSize := 10
  const MaxPageSize := 50

  /** `Math.min(MAX_PAGE_SIZE, Math.max(1, Number(pageSize) || DEFAULT_PAGE_SIZE))`:
      an absent or zero size becomes 10, a negative one 1. */
  function AdminPageSize(pageSize: Option<int>): (s: int)
    ensures 1 <= s <= MaxPageSize
    ensures pageSize.None? || pageSize == Some(0) ==> s == DefaultPageSize
    ensures pageSize.Some? && 1 <= pageSize.value <= MaxPageSize ==> s == pageSize.value
    ensures pageSize.Some? && pageSize.value > MaxPageSize ==> s == MaxPageSize
    ensures pageSize.Some? && pageSize.value < 0 ==> s == 1
  {
    var n := if pageSize.None? || pageSize.value == 0 then DefaultPageSize else pageSize.value;
    if n < 1 then 1 else if n > MaxPageSize then MaxPageSize else n
  }

  /** The one input on which the two lists disagree: an explicit page size of 0. */
  lemma ZeroPageSizeDiffers()
    ensures PromotionsPageSize(Some(0)) == 1 && AdminPageSize(Some(0)) == 10
  {
  }

  /** The inclusive row range `.range(from, to)` of a page. */
  datatype RowRange = RowRange(from: int, to: int)

  /** `from = (page - 1) * pageSize; to = from + pageSize - 1`. */
  function PageRange(page: int, pageSize: int): (r: RowRange)
    requires page >= 1 && pageSize >= 1
    ensures r.from >= 0 && r.to - r.from + 1 == pageSize
  {
    var from := (page - 1) * pageSize;
    RowRange(from, from + pageSize - 1)
  }

  /** Consecutive pages ask for adjacent, non-overlapping ranges. */
  lemma PageRangesAdjacent(page: int, pageSize: int)
    requires page >= 1 && pageSize >= 1
    ensures PageRange(page + 1, pageSize).from == PageRange(page, pageSize).to + 1
  {
  }

  /** `Math.ceil(total / pageSize)` for a non-negative total. */
  function CeilDiv(total: nat, pageSize: int): (n: nat)
    requires pageSize >= 1
    ensures n * pageSize >= total
    ensures total > 0 ==> (n - 1) * pageSize < total
    ensures n == 0 <==> total == 0
  {
    (total + pageSize - 1) / pageSize
  }

  /** The promotions list: `Math.max(1, Math.ceil(total / pageSize))`. */
  function PromotionsTotalPages(total: nat, pageSize: int): (n: nat)
    requires pageSize >= 1
    ensures n >= 1
    ensures total > 0 ==> n == CeilDiv(total, pageSize)
    ensures total == 0 ==> n == 1
  {
    var c := CeilDiv(total, pageSize);
    if c < 1 then 1 else c
  }

  /** The admin orders list: `Math.ceil(total / pageSize)`, which is 0 for no orders. */
  function AdminTotalPages(total: nat, pageSize: int): (n: nat)
    requires pageSize >= 1
    ensures n * pageSize >= total && (total > 0 ==> (n - 1) * pageSize < total)
    ensures n == 0 <==> total == 0
  {
    CeilDiv(total, pageSize)
  }

  /** The ids on the page starting at row `from` when `count` rows are listed by
      `.order('id', { ascending: false })`: the newest row first, at most `pageSize` of
      them, fewer on the last page and none past the end. */
  function PageIds(count: nat, from: int, pageSize: int): (ids: seq<nat>)
    requires from >= 0 && pageSize >= 1
    ensures |ids| == if from >= count then 0 else if count - from < pageSize then count - from else pageSize
    ensures forall i :: 0 <= i < |ids| ==> ids[i] < count && ids[i] == count - 1 - (from + i)
  {
    var n := if from >= count then 0 else if count - from < pageSize then count - from else pageSize;
    seq(n, i requires 0 <= i < n => count - 1 - (from + i))
  }

  lemma MulLe(a: int, b: int, s: int)
    requires a <= b && s >= 0
    ensures a * s <= b * s
  {
    assert b * s - a * s == (b - a) * s;
  }

  /** `q = k / d` is the quotient: `q * d <= k < q * d + d`. */
  lemma Quotient(k: nat, d: int)
    requires d >= 1
    ensures k / d * d <= k < k / d * d + d
  {
  }

  /** A row is not on a page whose range does not cover its position. */
  lemma RowNotOnOtherPage(count: nat, pageSize: int, id: nat, page: int, other: int)
    requires pageSize >= 1 && id < count && page >= 1 && other >= 1 && other != page
    requires (page - 1) * pageSize <= count - 1 - id < page * pageSize
    ensures id !in PageIds(count, PageRange(other, pageSize).from, pageSize)
  {
    var f := PageRange(other, pageSize).from;
    if other < page {
      MulLe(other, page - 1, pageSize);
    } else {
      MulLe(page, other - 1, pageSize);
    }
    assert f + pageSize <= count - 1 - id || count - 1 - id < f;
  }

  /** The page of a row is between 1 and the page count. */
  lemma RowPageInRange(count: nat, pageSize: int, id: nat)
    requires pageSize >= 1 && id < count
    ensures 1 <= (count - 1 - id) / pageSize + 1 <= CeilDiv(count, pageSize)
  {
    var k := count - 1 - id;
    var q := k / pageSize;
    Quotient(k, pageSize);
    var c := CeilDiv(count, pageSize);
    if c < q + 1 {
      MulLe(c, q, pageSize);
    }
  }

  /** The page of a row lists it. */
  lemma RowListedOnItsPage(count: nat, pageSize: int, id: nat)
    requires pageSize >= 1 && id < count
    ensures id in PageIds(count, PageRange((count - 1 - id) / pageSize + 1, pageSize).from, pageSize)
  {
    var k := count - 1 - id;
    var q := k / pageSize;
    Quotient(k, pageSize);
    var from := PageRange(q + 1, pageSize).from;
    assert from == q * pageSize;
    var ids := PageIds(count, from, pageSize);
    assert ids[k - from] == id;
  }

  /** Every row is listed on exactly one page between 1 and the page count: the page
      `(count - 1 - id) / pageSize + 1`. */
  lemma RowOnPage(count: nat, pageSize: int, id: nat)
    requires pageSize >= 1 && id < count
    ensures var page := (count - 1 - id) / pageSize + 1;
      && 1 <= page <= CeilDiv(count, pageSize)
      && id in PageIds(count, PageRange(page, pageSize).from, pageSize)
      && forall other :: other >= 1 && other != page ==>
           id !in PageIds(count, PageRange(other, pageSize).from, pageSize)
  {
    var k := count - 1 - id;
    var page := k / pageSize + 1;
    RowPageInRange(count, pageSize, id);
    RowListedOnItsPage(count, pageSize, id);
    Quotient(k, pageSize);
    assert (page - 1) * pageSize <= k < page * pageSize;
    forall other | other >= 1 && other != page
      ensures id !in PageIds(count, PageRange(other, pageSize).from, pageSize)
    {
      RowNotOnOtherPage(count, pageSize, id, page, other);
    }
  }
}
