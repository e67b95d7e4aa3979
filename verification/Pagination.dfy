/** Page arithmetic over 64-bit numbers, and what it means for the pages of a list. */
module Pagination {
  import opened Prelude

  const DEFAULT_PER_PAGE: nat := 20
  const MAX_PER_PAGE: nat := 100

  datatype Params = Params(page: Option<nat>, perPage: Option<nat>) {
    predicate Fits() {
      && (page.Some? ==> page.value <= U64_MAX)
      && (perPage.Some? ==> perPage.value <= U64_MAX)
    }

    function Page(): nat {
      if page.None? then 1 else if page.value < 1 then 1 else page.value
    }

    function PerPage(): nat {
      if perPage.None? then DEFAULT_PER_PAGE
      else if perPage.value < 1 then 1
      else if perPage.value > MAX_PER_PAGE then MAX_PER_PAGE
      else perPage.value
    }

    /** Multiplication in a release build wraps around. */
    function Offset(): nat {
      Wrap64((Page() - 1) * PerPage())
    }
  }

  function TotalPages(total: nat, perPage: nat): nat {
    if perPage == 0 then 0 else (total + perPage - 1) / perPage
  }

  /** `OFFSET offset LIMIT limit` over a fixed list of rows. */
  function Window<T>(rows: seq<T>, offset: nat, limit: nat): seq<T> {
    if offset >= |rows| then []
    else if offset + limit >= |rows| then rows[offset..]
    else rows[offset..offset + limit]
  }

  function PageOf<T>(rows: seq<T>, p: Params): seq<T> {
    Window(rows, p.Offset(), p.PerPage())
  }

  function AtPage(k: nat, perPage: Option<nat>): Params {
    Params(Some(k), perPage)
  }

  /** What a request that names no page, or an impossible one, is answered with. */
  lemma DefaultsAndClamps(p: Params)
    ensures p.page == None || p.page == Some(0) ==> p.Page() == 1
    ensures p.page.Some? && p.page.value > 0 ==> p.Page() == p.page.value
    ensures p.perPage == None ==> p.PerPage() == 20
    ensures p.perPage == Some(0) ==> p.PerPage() == 1
    ensures p.perPage.Some? && 1 <= p.perPage.value <= 100 ==> p.PerPage() == p.perPage.value
    ensures p.perPage.Some? && p.perPage.value > 100 ==> p.PerPage() == 100
  {
  }

  /** Without parameters the first twenty rows are shown. */
  lemma FirstPageByDefault<T>(rows: seq<T>)
    ensures PageOf(rows, Params(None, None)) == if |rows| <= 20 then rows else rows[..20]
  {
    assert Params(None, None).Offset() == 0;
  }

  lemma CeilingBounds(total: nat, per: nat)
    requires per >= 1
    ensures total <= TotalPages(total, per) * per < total + per
  {
    var n := (total + per - 1) / per;
    var r := (total + per - 1) % per;
    assert total + per - 1 == per * n + r;
    assert per * n == n * per;
  }

  lemma Scaled(a: nat, b: nat, per: nat)
    requires a <= b
    ensures a * per <= b * per
  {
  }

  lemma OneLess(k: nat, per: nat)
    requires k >= 1
    ensures (k - 1) * per == k * per - per
  {
  }

  /** `k` pages cover the list exactly from the last page on. */
  lemma PagesBound(k: nat, total: nat, per: nat)
    requires per >= 1
    ensures total <= k * per <==> TotalPages(total, per) <= k
  {
    var n := TotalPages(total, per);
    CeilingBounds(total, per);
    if n <= k {
      Scaled(n, k, per);
    } else {
      Scaled(k, n - 1, per);
      OneLess(n, per);
    }
  }

  /** On every page there is, the offset is below the total and does not overflow; all pages but the last are full. */
  lemma ExistingPage<T>(rows: seq<T>, k: nat, perPage: Option<nat>)
    requires |rows| <= U64_MAX
    requires 1 <= k <= TotalPages(|rows|, AtPage(k, perPage).PerPage())
    ensures var p := AtPage(k, perPage);
            && p.Offset() == (k - 1) * p.PerPage() < |rows|
            && (k < TotalPages(|rows|, p.PerPage()) ==> |PageOf(rows, p)| == p.PerPage())
            && PageOf(rows, p) != []
  {
    var per := AtPage(k, perPage).PerPage();
    PagesBound(k, |rows|, per);
    PagesBound(k - 1, |rows|, per);
    OneLess(k, per);
    SmallOffset(k, perPage, |rows|);
  }

  lemma SmallOffset(k: nat, perPage: Option<nat>, total: nat)
    requires 1 <= k && total <= U64_MAX && (k - 1) * AtPage(k, perPage).PerPage() < total
    ensures AtPage(k, perPage).Offset() == (k - 1) * AtPage(k, perPage).PerPage()
  {
    assert AtPage(k, perPage).Page() == k;
    SmallIsUnwrapped((k - 1) * AtPage(k, perPage).PerPage());
  }

  lemma SmallIsUnwrapped(n: nat)
    requires n <= U64_MAX
    ensures Wrap64(n) == n
  {
  }

  function Concatenated<T>(rows: seq<T>, pages: nat, perPage: Option<nat>): seq<T> {
    if pages == 0 then []
    else Concatenated(rows, pages - 1, perPage) + PageOf(rows, AtPage(pages, perPage))
  }

  function Upto<T>(rows: seq<T>, n: nat): seq<T> {
    if n >= |rows| then rows else rows[..n]
  }

  lemma NextWindow<T>(rows: seq<T>, taken: nat, per: nat)
    requires taken < |rows|
    ensures Upto(rows, taken) + Window(rows, taken, per) == Upto(rows, taken + per)
  {
  }

  /** Page `k` shows the `per` rows after those of the pages before it. */
  ghost predicate Shows<T>(rows: seq<T>, perPage: Option<nat>, per: nat, k: nat) {
    && k >= 1
    && Rows(k - 1, per) < |rows|
    && PageOf(rows, AtPage(k, perPage)) == Window(rows, Rows(k - 1, per), per)
  }

  lemma PageShows<T>(rows: seq<T>, perPage: Option<nat>, per: nat, k: nat)
    requires |rows| <= U64_MAX && per == AtPage(k, perPage).PerPage()
    requires 1 <= k <= TotalPages(|rows|, per)
    ensures Shows(rows, perPage, per, k)
  {
    ExistingPage(rows, k, perPage);
    RowsIsProduct(k - 1, per);
  }

  lemma {:induction false} FirstPages<T>(rows: seq<T>, pages: nat, perPage: Option<nat>, per: nat)
    requires forall k :: 1 <= k <= pages ==> Shows(rows, perPage, per, k)
    ensures Concatenated(rows, pages, perPage) == Upto(rows, Rows(pages, per))
  {
    if pages > 0 {
      FirstPages(rows, pages - 1, perPage, per);
      assert Shows(rows, perPage, per, pages);
      NextWindow(rows, Rows(pages - 1, per), per);
    }
  }

  /** The number of rows on `k` full pages. */
  function Rows(k: nat, per: nat): nat {
    if k == 0 then 0 else Rows(k - 1, per) + per
  }

  lemma {:induction false} RowsIsProduct(k: nat, per: nat)
    ensures Rows(k, per) == k * per
  {
    if k > 0 {
      RowsIsProduct(k - 1, per);
      OneLess(k, per);
    }
  }

  /** The pages `1 ..= total_pages` of a list, one after the other, are the list. */
  lemma PagesPartitionTheList<T>(rows: seq<T>, perPage: Option<nat>)
    requires |rows| <= U64_MAX
    ensures var per := AtPage(1, perPage).PerPage();
            Concatenated(rows, TotalPages(|rows|, per), perPage) == rows
  {
    var per := AtPage(1, perPage).PerPage();
    var n := TotalPages(|rows|, per);
    PagesBound(n, |rows|, per);
    RowsIsProduct(n, per);
    forall k | 1 <= k <= n
      ensures Shows(rows, perPage, per, k)
    {
      PageShows(rows, perPage, per, k);
    }
    FirstPages(rows, n, perPage, per);
  }

  /** A number reduced to 64 bits falls below `total` exactly in the windows of that size at the multiples of 2^64. */
  lemma WrapsBelow(n: nat, total: nat)
    requires total <= U64_MAX
    ensures Wrap64(n) < total <==> exists q: nat :: q * U64_MODULUS <= n < q * U64_MODULUS + total
  {
    if Wrap64(n) < total {
      var q := n / U64_MODULUS;
      assert q * U64_MODULUS <= n < q * U64_MODULUS + total;
    }
    if q: nat :| q * U64_MODULUS <= n < q * U64_MODULUS + total {
      assert n / U64_MODULUS == q;
    }
  }

  /**
   A page past the end shows rows exactly when its true offset lies within the
   list's length of a positive multiple of 2^64.
   */
  lemma PagePastTheEnd<T>(rows: seq<T>, p: Params)
    requires p.Fits() && |rows| <= U64_MAX && p.Page() > TotalPages(|rows|, p.PerPage())
    ensures (p.Page() - 1) * p.PerPage() >= |rows|
    ensures PageOf(rows, p) != [] <==>
              exists q: nat :: q > 0 && q * U64_MODULUS <= (p.Page() - 1) * p.PerPage() < q * U64_MODULUS + |rows|
    ensures (p.Page() - 1) * p.PerPage() <= U64_MAX ==> PageOf(rows, p) == []
  {
    var per := p.PerPage();
    PagesBound(p.Page() - 1, |rows|, per);
    WrapsBelow((p.Page() - 1) * per, |rows|);
    assert PageOf(rows, p) != [] <==> Wrap64((p.Page() - 1) * per) < |rows|;
  }

  /** With two rows a page, page 2^63 + 1 starts over at the first row. */
  lemma WrappedPage<T>(rows: seq<T>)
    requires |rows| > 2
    ensures var p := Params(Some(0x8000_0000_0000_0001), Some(2));
            && p.Fits() && p.Offset() == 0
            && PageOf(rows, p) == rows[..2]
  {
  }
}
