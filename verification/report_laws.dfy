/**
 * How each sale handler moves the reports: the units sold per product and
 * today's revenue, both read over the whole sales collection.
 */
module SaleReportLaws {
  import opened Wrappers
  import opened Records
  import opened StockLedger
  import opened Store
  import opened SaleController
  import opened SaleLaws
  import opened SaleReports

  /** The sales collection of a database state, in natural order. */
  function AllSales(s: DbState): seq<Sale> {
    Collection(s.sales, s.nextSaleId)
  }

  /** Storing a sale under the next id adds its contribution to both reports. */
  lemma InsertMovesReports(sales: map<SaleId, Sale>, n: nat, sale: Sale, p: ProductId, today: int, tomorrow: int)
    ensures var before := Collection(sales, n);
      var after := Collection(sales[n := sale], n + 1);
      SoldQty(after, p) == SoldQty(before, p) + UnitsSold(p)(sale) &&
      TodaysRevenue(after, today, tomorrow) == TodaysRevenue(before, today, tomorrow) + RevenueOf(sale, today, tomorrow)
  {
    var before := Collection(sales, n);
    CollectionInsert(sales, n, sale);
    SumSalesAppend(before, [sale], UnitsSold(p));
    SumSalesAppend(before, [sale], DayRevenue(today, tomorrow));
    assert [sale][..0] == [];
    TodaysRevenueCountsPaidOnly(before, today, tomorrow);
    TodaysRevenueCountsPaidOnly(before + [sale], today, tomorrow);
  }

  /** Replacing a stored sale swaps its contribution to both reports for the new version's. */
  lemma ReplaceMovesReports(sales: map<SaleId, Sale>, n: nat, id: SaleId, sale: Sale, p: ProductId, today: int, tomorrow: int)
    requires id in sales && id < n
    ensures var before := Collection(sales, n);
      var after := Collection(sales[id := sale], n);
      SoldQty(after, p) == SoldQty(before, p) - UnitsSold(p)(sales[id]) + UnitsSold(p)(sale) &&
      TodaysRevenue(after, today, tomorrow) ==
        TodaysRevenue(before, today, tomorrow) - RevenueOf(sales[id], today, tomorrow) + RevenueOf(sale, today, tomorrow)
  {
    CollectionUpdate(sales, n, id, sale, UnitsSold(p));
    CollectionUpdate(sales, n, id, sale, DayRevenue(today, tomorrow));
    TodaysRevenueCountsPaidOnly(Collection(sales, n), today, tomorrow);
    TodaysRevenueCountsPaidOnly(Collection(sales[id := sale], n), today, tomorrow);
  }

  /**
   * A new sale adds its units to every product's sold count, and adds its
   * total to today's revenue only when it is paid up front and created today.
   */
  lemma AddSaleMovesReports(s: DbState, req: NewSaleRequest, cashier: UserId, now: int, p: ProductId, today: int, tomorrow: int)
    requires AddSaleSpec(s, req, cashier, now).Success?
    ensures var t := AddSaleSpec(s, req, cashier, now).value;
      SoldQty(AllSales(t), p) == SoldQty(AllSales(s), p) + QtyOf(req.items, p) &&
      TodaysRevenue(AllSales(t), today, tomorrow) == TodaysRevenue(AllSales(s), today, tomorrow) +
        (if req.paymentStatus == Some(Paid) && today <= now < tomorrow then req.totalAmount else 0)
  {
    AddSaleValue(s, req, cashier, now);
    var sale := CreatedSale(req, Snapshot(s.products, req.items), cashier, now);
    CreatedSaleContribution(s.products, req, cashier, now, p, today, tomorrow);
    InsertMovesReports(s.sales, s.nextSaleId, sale, p, today, tomorrow);
  }

  /** What the sale addSale writes contributes: all its units, and its total only when paid up front on the day. */
  lemma CreatedSaleContribution(
    products: map<ProductId, Product>, req: NewSaleRequest, cashier: UserId, now: int, p: ProductId, today: int, tomorrow: int)
    requires ProductsExist(products, req.items)
    ensures var sale := CreatedSale(req, Snapshot(products, req.items), cashier, now);
      UnitsSold(p)(sale) == QtyOf(req.items, p) &&
      RevenueOf(sale, today, tomorrow) ==
        (if req.paymentStatus == Some(Paid) && today <= now < tomorrow then req.totalAmount else 0)
  {
    LinesOfSnapshot(products, req.items);
    CreatedSaleFields(products, req, cashier, now);
  }

  /**
   * Editing leaves today's revenue alone (the sale is unpaid before and
   * after) and, for a Completed sale, moves the sold count by new - old units.
   */
  lemma UpdateSaleMovesReports(s: DbState, id: SaleId, items: seq<LineItem>, totalAmount: int, p: ProductId, today: int, tomorrow: int)
    requires IdsIssued(s)
    requires UpdateSaleSpec(s, id, items, totalAmount).Success?
    ensures var t := UpdateSaleSpec(s, id, items, totalAmount).value;
      SoldQty(AllSales(t), p) == SoldQty(AllSales(s), p) +
        (if s.sales[id].status == Completed then QtyOf(items, p) - QtyOf(s.sales[id].items, p) else 0) &&
      TodaysRevenue(AllSales(t), today, tomorrow) == TodaysRevenue(AllSales(s), today, tomorrow)
  {
    var t := UpdateSaleSpec(s, id, items, totalAmount).value;
    var edited := t.sales[id];
    assert t.sales == s.sales[id := edited];
    ReplaceMovesReports(s.sales, s.nextSaleId, id, edited, p, today, tomorrow);
    LinesOfStored(items);
    assert QtyOf(edited.items, p) == QtyOf(items, p);
  }

  /**
   * Paying leaves the sold counts alone and adds the sale's total to today's
   * revenue when it is a Completed sale created today.
   */
  lemma PaySaleMovesReports(s: DbState, id: SaleId, paymentMethod: PaymentMethod, p: ProductId, today: int, tomorrow: int)
    requires IdsIssued(s)
    requires PaySaleSpec(s, id, paymentMethod).Success?
    ensures var t := PaySaleSpec(s, id, paymentMethod).value;
      SoldQty(AllSales(t), p) == SoldQty(AllSales(s), p) &&
      TodaysRevenue(AllSales(t), today, tomorrow) == TodaysRevenue(AllSales(s), today, tomorrow) +
        (if InWindow(s.sales[id], today, tomorrow) then s.sales[id].totalAmount else 0)
  {
    var t := PaySaleSpec(s, id, paymentMethod).value;
    var paid := t.sales[id];
    assert t.sales == s.sales[id := paid];
    ReplaceMovesReports(s.sales, s.nextSaleId, id, paid, p, today, tomorrow);
  }

  /**
   * Retracting takes the sale's units out of every product's sold count and
   * its total out of today's revenue if it had been counted there.
   */
  lemma RetractSaleMovesReports(s: DbState, id: SaleId, p: ProductId, today: int, tomorrow: int)
    requires IdsIssued(s)
    requires RetractSaleSpec(s, id).Success?
    ensures var t := RetractSaleSpec(s, id).value;
      SoldQty(AllSales(t), p) == SoldQty(AllSales(s), p) - QtyOf(s.sales[id].items, p) &&
      TodaysRevenue(AllSales(t), today, tomorrow) ==
        TodaysRevenue(AllSales(s), today, tomorrow) - RevenueOf(s.sales[id], today, tomorrow)
  {
    var t := RetractSaleSpec(s, id).value;
    var retracted := t.sales[id];
    assert t.sales == s.sales[id := retracted];
    ReplaceMovesReports(s.sales, s.nextSaleId, id, retracted, p, today, tomorrow);
  }
}
