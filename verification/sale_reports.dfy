/**
 * The read-only projections of the sales collection: the all-selling and
 * top-selling product lists (aggregation pipelines over Completed sales) and
 * today's sales with their revenue (Paid sales only).
 *
 * Sales are given as the collection in its natural order; `SaleReportLaws`
 * ties the reports to the handlers through `Collection`.
 */
module SaleReports {
  import opened Records
  import opened Aggregate
  import opened StockLedger
  import opened Store

  /** One row of the selling reports: `{ _id: productId, name, totalQuantity }`. */
  datatype ProductTotal = ProductTotal(productId: ProductId, name: string, totalQuantity: int)

  /** The sales `keep` accepts, in their original order, each as often as it occurs. */
  function FilterSales(sales: seq<Sale>, keep: Sale -> bool): (r: seq<Sale>)
    ensures |r| <= |sales|
    ensures forall x :: x in r <==> x in sales && keep(x)
  {
    if sales == [] then []
    else
      var init := sales[..|sales| - 1];
      var last := sales[|sales| - 1];
      assert sales == init + [last];
      FilterSales(init, keep) + (if keep(last) then [last] else [])
  }

  /**
   * Filtering distributes over concatenation: with FilterSalesOne this fixes
   * the order of the kept sales as well as their number.
   */
  lemma {:induction false} FilterSalesAppend(a: seq<Sale>, b: seq<Sale>, keep: Sale -> bool)
    ensures FilterSales(a + b, keep) == FilterSales(a, keep) + FilterSales(b, keep)
  {
    if b == [] {
      assert a + b == a;
      assert FilterSales(a, keep) + FilterSales(b, keep) == FilterSales(a, keep) + [];
    } else {
      var init, last := b[..|b| - 1], b[|b| - 1];
      var tail: seq<Sale> := if keep(last) then [last] else [];
      var fa, fi := FilterSales(a, keep), FilterSales(init, keep);
      var ab := a + b;
      assert ab[..|ab| - 1] == a + init && ab[|ab| - 1] == last;
      FilterSalesAppend(a, init, keep);
      assert FilterSales(ab, keep) == FilterSales(ab[..|ab| - 1], keep) + tail;
      assert FilterSales(ab, keep) == (fa + fi) + tail;
      assert FilterSales(b, keep) == fi + tail;
      assert (fa + fi) + tail == fa + (fi + tail);
    }
  }

  /** Each sale `keep` accepts is kept as often as it occurs, and no other sale is. */
  lemma {:induction false} FilterSalesCount(sales: seq<Sale>, keep: Sale -> bool)
    ensures forall x :: multiset(FilterSales(sales, keep))[x] == if keep(x) then multiset(sales)[x] else 0
  {
    if sales != [] {
      var init, last := sales[..|sales| - 1], sales[|sales| - 1];
      var tail: seq<Sale> := if keep(last) then [last] else [];
      FilterSalesCount(init, keep);
      assert sales == init + [last];
      assert multiset(FilterSales(sales, keep)) == multiset(FilterSales(init, keep)) + multiset(tail);
    }
  }

  /** A single sale is kept exactly when `keep` accepts it. */
  lemma FilterSalesOne(x: Sale, keep: Sale -> bool)
    ensures FilterSales([x], keep) == if keep(x) then [x] else []
  {
    assert [x][..0] == [];
  }

  /** Σ f over the kept sales is Σ over all sales of g, where g is f on kept sales and 0 elsewhere. */
  lemma {:induction false} FilterSum(sales: seq<Sale>, keep: Sale -> bool, f: Sale -> int, g: Sale -> int)
    requires forall x :: g(x) == if keep(x) then f(x) else 0
    ensures SumSales(FilterSales(sales, keep), f) == SumSales(sales, g)
  {
    if sales != [] {
      var init := sales[..|sales| - 1];
      var last := sales[|sales| - 1];
      var tail: seq<Sale> := if keep(last) then [last] else [];
      FilterSum(init, keep, f, g);
      assert FilterSales(sales, keep) == FilterSales(init, keep) + tail;
      SumSalesAppend(FilterSales(init, keep), tail, f);
      assert SumSales(tail, f) == g(last) by {
        if keep(last) { assert tail[..0] == []; }
      }
      assert SumSales(sales, g) == SumSales(init, g) + g(last);
    }
  }

  /** A sum over sales does not depend on their order. */
  lemma {:induction false} SumSalesPermutation(a: seq<Sale>, b: seq<Sale>, f: Sale -> int)
    requires multiset(a) == multiset(b)
    ensures SumSales(a, f) == SumSales(b, f)
  {
    if a == [] {
      assert |b| == |multiset(b)| == 0;
    } else {
      var init := a[..|a| - 1];
      var x := a[|a| - 1];
      assert a == init + [x];
      assert x in multiset(b);
      var i :| 0 <= i < |b| && b[i] == x;
      MultisetRemove(b, i);
      SumSalesPermutation(init, b[..i] + b[i + 1..], f);
      SumSalesSplit(b, i, f);
    }
  }

  /** A sum over sales is the sum without one of them plus that one's value. */
  lemma SumSalesSplit(b: seq<Sale>, i: nat, f: Sale -> int)
    requires i < |b|
    ensures SumSales(b, f) == SumSales(b[..i] + b[i + 1..], f) + f(b[i])
  {
    var pre, upto, post := b[..i], b[..i + 1], b[i + 1..];
    assert upto[..i] == pre && upto[i] == b[i];
    assert SumSales(upto, f) == SumSales(pre, f) + f(b[i]);
    assert upto + post == b;
    SumSalesAppend(upto, post, f);
    SumSalesAppend(pre, post, f);
  }

  predicate IsCompleted(sale: Sale) {
    sale.status == Completed
  }

  // ---------------------------------------------------------------------------
  // getAllSellingProducts / getTopProducts
  // ---------------------------------------------------------------------------

  /** `$unwind: '$items'`: every line of every sale, sale by sale. */
  function Unwound(sales: seq<Sale>): seq<LineItem> {
    if sales == [] then []
    else Unwound(sales[..|sales| - 1]) + sales[|sales| - 1].items
  }

  /** `$first: '$items.name'`: the name on the first line for `p`. */
  function FirstName(items: seq<LineItem>, p: ProductId): string {
    if items == [] then ""
    else if items[0].productId == p then items[0].name
    else FirstName(items[1..], p)
  }

  /** The units of `p` one sale counts for in the selling reports. */
  function UnitsSold(p: ProductId): Sale -> int {
    x => if IsCompleted(x) then QtyOf(x.items, p) else 0
  }

  /** The number of units of `p` sold by Completed sales. */
  function SoldQty(sales: seq<Sale>, p: ProductId): int {
    SumSales(sales, UnitsSold(p))
  }

  /** The lines the selling pipelines group: those of Completed sales. */
  function SoldLines(sales: seq<Sale>): seq<LineItem> {
    Unwound(FilterSales(sales, IsCompleted))
  }

  /** `$match` Completed, `$unwind`, `$group` by productId: one row per product sold, before sorting. */
  function SellingTotals(sales: seq<Sale>): seq<ProductTotal> {
    var items := SoldLines(sales);
    var groups := GroupSum(Lines(items));
    seq(|groups|, i requires 0 <= i < |groups| => ProductTotal(groups[i].0, FirstName(items, groups[i].0), groups[i].1))
  }

  function ByQuantityDescending(t: ProductTotal): int {
    -t.totalQuantity
  }

  /** getAllSellingProducts: the rows sorted by totalQuantity, largest first. */
  function AllSellingProducts(sales: seq<Sale>): seq<ProductTotal> {
    SortBy(SellingTotals(sales), ByQuantityDescending)
  }

  /** getTopProducts: the same pipeline with `$limit: 5`. */
  function TopProducts(sales: seq<Sale>): seq<ProductTotal> {
    Take(AllSellingProducts(sales), 5)
  }

  lemma {:induction false} SoldLinesQty(sales: seq<Sale>, p: ProductId)
    ensures QtyOf(SoldLines(sales), p) == SoldQty(sales, p)
  {
    if sales != [] {
      var init := sales[..|sales| - 1];
      var last := sales[|sales| - 1];
      var kept := FilterSales(init, IsCompleted);
      SoldLinesQty(init, p);
      if IsCompleted(last) {
        assert (kept + [last])[..|kept|] == kept;
        assert SoldLines(sales) == SoldLines(init) + last.items;
        QtyOfAppend(SoldLines(init), last.items, p);
      } else {
        assert kept + [] == kept;
      }
    }
  }

  /**
   * The grouped rows: one per product that appears on a line of a Completed
   * sale, each with the units sold and the name on that product's first line.
   */
  lemma SellingTotalsRows(sales: seq<Sale>)
    ensures var rows := SellingTotals(sales);
      (forall i, j :: 0 <= i < j < |rows| ==> rows[i].productId != rows[j].productId) &&
      (forall p :: (exists i :: 0 <= i < |rows| && rows[i].productId == p) <==> p in ProductIds(SoldLines(sales))) &&
      (forall i :: 0 <= i < |rows| ==>
         rows[i].totalQuantity == SoldQty(sales, rows[i].productId) &&
         rows[i].name == FirstName(SoldLines(sales), rows[i].productId))
  {
    var items := SoldLines(sales);
    var groups := GroupSum(Lines(items));
    var rows := SellingTotals(sales);
    assert forall i :: 0 <= i < |rows| ==> rows[i].productId == KeysOf(groups)[i];
    forall p ensures (exists i :: 0 <= i < |rows| && rows[i].productId == p) <==> p in ProductIds(items) {
      if p in ProductIds(items) {
        assert p in KeysOf(groups);
        var i :| 0 <= i < |groups| && KeysOf(groups)[i] == p;
        assert rows[i].productId == p;
      }
    }
    forall i | 0 <= i < |rows|
      ensures rows[i].totalQuantity == SoldQty(sales, rows[i].productId)
    {
      SoldLinesQty(sales, rows[i].productId);
    }
  }

  /**
   * getAllSellingProducts: a reordering of the grouped rows, largest
   * totalQuantity first, each row carrying the units of its product sold by
   * Completed sales.
   */
  lemma AllSellingProductsSorted(sales: seq<Sale>)
    ensures var r := AllSellingProducts(sales);
      multiset(r) == multiset(SellingTotals(sales)) &&
      (forall i, j :: 0 <= i < j < |r| ==> r[i].totalQuantity >= r[j].totalQuantity) &&
      (forall i :: 0 <= i < |r| ==> r[i].totalQuantity == SoldQty(sales, r[i].productId))
  {
    var rows := SellingTotals(sales);
    var r := AllSellingProducts(sales);
    SellingTotalsRows(sales);
    forall i | 0 <= i < |r| ensures r[i].totalQuantity == SoldQty(sales, r[i].productId) {
      assert r[i] in multiset(rows);
    }
    forall i, j | 0 <= i < j < |r| ensures r[i].totalQuantity >= r[j].totalQuantity {
      assert ByQuantityDescending(r[i]) <= ByQuantityDescending(r[j]);
    }
  }

  /**
   * getTopProducts: the first (at most) five rows of the full list, so no
   * row left out sold more than any row kept.
   */
  lemma TopProductsAreTop(sales: seq<Sale>)
    ensures var top := TopProducts(sales);
      var all := AllSellingProducts(sales);
      |top| == (if |all| < 5 then |all| else 5) && top == all[..|top|] &&
      forall i, j :: 0 <= i < |top| <= j < |all| ==> top[i].totalQuantity >= all[j].totalQuantity
  {
    AllSellingProductsSorted(sales);
  }

  // ---------------------------------------------------------------------------
  // getTodaysSales
  // ---------------------------------------------------------------------------

  /** A Completed sale created in [today, tomorrow). */
  predicate InWindow(sale: Sale, today: int, tomorrow: int) {
    sale.status == Completed && today <= sale.createdAt < tomorrow
  }

  function NewestFirst(sale: Sale): int {
    -sale.createdAt
  }

  /** The day's Completed sales, newest first. */
  function TodaysSales(sales: seq<Sale>, today: int, tomorrow: int): seq<Sale> {
    SortBy(FilterSales(sales, x => InWindow(x, today, tomorrow)), NewestFirst)
  }

  predicate IsPaid(sale: Sale) {
    sale.paymentStatus == Paid
  }

  function TotalAmount(sale: Sale): int {
    sale.totalAmount
  }

  /** totalRevenue: Σ totalAmount over the day's sales that are Paid. */
  function TodaysRevenue(sales: seq<Sale>, today: int, tomorrow: int): int {
    SumSales(FilterSales(TodaysSales(sales, today, tomorrow), IsPaid), TotalAmount)
  }

  /** The amount one sale contributes to the day's revenue. */
  function RevenueOf(sale: Sale, today: int, tomorrow: int): int {
    if InWindow(sale, today, tomorrow) && IsPaid(sale) then sale.totalAmount else 0
  }

  function DayRevenue(today: int, tomorrow: int): Sale -> int {
    x => RevenueOf(x, today, tomorrow)
  }

  /** Today's sales: newest first, and exactly the Completed sales created that day. */
  lemma TodaysSalesShape(sales: seq<Sale>, today: int, tomorrow: int)
    ensures var r := TodaysSales(sales, today, tomorrow);
      (forall i, j :: 0 <= i < j < |r| ==> r[i].createdAt >= r[j].createdAt) &&
      (forall x :: x in r <==> x in sales && InWindow(x, today, tomorrow)) &&
      (forall x :: multiset(r)[x] == if InWindow(x, today, tomorrow) then multiset(sales)[x] else 0)
  {
    var kept := FilterSales(sales, x => InWindow(x, today, tomorrow));
    var r := TodaysSales(sales, today, tomorrow);
    FilterSalesCount(sales, x => InWindow(x, today, tomorrow));
    assert multiset(r) == multiset(kept);
    forall x ensures x in r <==> x in kept {
      assert x in r <==> x in multiset(r);
      assert x in kept <==> x in multiset(kept);
    }
    forall i, j | 0 <= i < j < |r| ensures r[i].createdAt >= r[j].createdAt {
      assert NewestFirst(r[i]) <= NewestFirst(r[j]);
    }
  }

  /** Today's revenue counts exactly the Paid, Completed sales created that day, each once. */
  lemma TodaysRevenueCountsPaidOnly(sales: seq<Sale>, today: int, tomorrow: int)
    ensures TodaysRevenue(sales, today, tomorrow) == SumSales(sales, DayRevenue(today, tomorrow))
  {
    var keepDay := x => InWindow(x, today, tomorrow);
    var day := FilterSales(sales, keepDay);
    var sorted := SortBy(day, NewestFirst);
    var amountIfPaid := x => if IsPaid(x) then TotalAmount(x) else 0;
    FilterSum(sorted, IsPaid, TotalAmount, amountIfPaid);
    SumSalesPermutation(sorted, day, amountIfPaid);
    FilterSum(sales, keepDay, amountIfPaid, DayRevenue(today, tomorrow));
  }
}
