/**
 * What the four sale handlers guarantee, stated over `DbState`: when each one
 * succeeds, what it does to stock and to the stored sale, how create, edit and
 * retract undo one another, and the gaps the handlers leave open (no stock
 * check on edit, per-line stock checks on create, no status check on edit or
 * payment).
 */
module SaleLaws {
  import opened Wrappers
  import opened Records
  import opened Aggregate
  import opened StockLedger
  import opened Store
  import opened SaleController

  // ---------------------------------------------------------------------------
  // Facts about line items
  // ---------------------------------------------------------------------------

  /** Storing lines (trimming notes) and snapshotting basePrice leave ids and quantities alone. */
  lemma LinesOfSnapshot(products: map<ProductId, Product>, items: seq<LineItem>)
    requires ProductsExist(products, items)
    ensures Lines(StoredItems(Snapshot(products, items))) == Lines(items)
  {
  }

  lemma LinesOfStored(items: seq<LineItem>)
    ensures Lines(StoredItems(items)) == Lines(items)
  {
  }

  /** With one line per product, a product's total is the quantity on its line. */
  lemma {:induction false} QtyOfDistinct(items: seq<LineItem>, i: nat)
    requires Distinct(ProductIds(items)) && i < |items|
    ensures QtyOf(items, items[i].productId) == items[i].quantity
  {
    var n := |items| - 1;
    var init := items[..n];
    var p := items[i].productId;
    assert Lines(items)[..n] == Lines(init);
    assert forall j :: 0 <= j < n ==> ProductIds(init)[j] == ProductIds(items)[j];
    if i == n {
      assert p !in ProductIds(init);
      SumForAbsent(Lines(init), p);
    } else {
      assert items[n].productId != p;
      assert Distinct(ProductIds(init));
      QtyOfDistinct(init, i);
    }
  }

  lemma QtyOfAbsent(items: seq<LineItem>, p: ProductId)
    requires p !in ProductIds(items)
    ensures QtyOf(items, p) == 0
  {
    SumForAbsent(Lines(items), p);
  }

  // ---------------------------------------------------------------------------
  // addSale
  // ---------------------------------------------------------------------------

  predicate LineAccepted(products: map<ProductId, Product>, item: LineItem) {
    item.productId in products && item.quantity <= products[item.productId].stock
  }

  /**
   * addSale succeeds exactly when there is at least one line, the customer
   * (if named) exists, and every line's product exists with at least the
   * requested stock; otherwise the first failing check decides the error.
   */
  lemma AddSaleOutcome(s: DbState, req: NewSaleRequest, cashier: UserId, now: int)
    ensures AddSaleSpec(s, req, cashier, now).Success? <==>
      |req.items| > 0 &&
      (req.customerId.Some? ==> req.customerId.value in s.customers) &&
      forall i :: 0 <= i < |req.items| ==> LineAccepted(s.products, req.items[i])
    ensures |req.items| == 0 ==> AddSaleSpec(s, req, cashier, now) == Failure(NoOrderItems)
    ensures |req.items| > 0 && req.customerId.Some? && req.customerId.value !in s.customers ==>
      AddSaleSpec(s, req, cashier, now) == Failure(CustomerNotFound(req.customerId.value))
    ensures forall k :: (0 <= k < |req.items| &&
      (req.customerId.Some? ==> req.customerId.value in s.customers) &&
      (forall j :: 0 <= j < k ==> LineAccepted(s.products, req.items[j])) &&
      !LineAccepted(s.products, req.items[k])) ==>
        AddSaleSpec(s, req, cashier, now) ==
          Failure(if req.items[k].productId !in s.products then ProductNotFound(req.items[k].productId)
                  else NotEnoughStock(req.items[k].name, s.products[req.items[k].productId].stock, req.items[k].quantity))
  {
    var k := FirstFault(s.products, req.items);
    forall j | 0 <= j < |req.items| ensures LineAccepted(s.products, req.items[j]) <==> ItemFault(s.products, req.items[j]).None? {
    }
  }

  /**
   * A successful addSale stores the sale under the next id, takes every
   * product's ordered quantity out of its stock (summed over all lines for
   * that product), and touches nothing else.
   */
  lemma AddSaleEffect(s: DbState, req: NewSaleRequest, cashier: UserId, now: int)
    requires AddSaleSpec(s, req, cashier, now).Success?
    ensures var t := AddSaleSpec(s, req, cashier, now).value;
      t.products.Keys == s.products.Keys &&
      (forall p :: p in s.products ==>
         t.products[p] == s.products[p].(stock := s.products[p].stock - QtyOf(req.items, p))) &&
      t.nextSaleId == s.nextSaleId + 1 &&
      t.sales.Keys == s.sales.Keys + {s.nextSaleId} &&
      (forall id :: id in s.sales && id != s.nextSaleId ==> t.sales[id] == s.sales[id]) &&
      t.customers == s.customers && t.adjustments == s.adjustments && t.expenses == s.expenses
  {
    AddSaleBookkeeping(s, req, cashier, now);
    var t := AddSaleSpec(s, req, cashier, now).value;
    forall p | p in s.products
      ensures t.products[p] == s.products[p].(stock := s.products[p].stock - QtyOf(req.items, p))
    {
      AddSaleStockAt(s, req, cashier, now, p);
    }
  }

  /** A successful addSale adds one sale under the next id and leaves the other collections alone. */
  lemma AddSaleBookkeeping(s: DbState, req: NewSaleRequest, cashier: UserId, now: int)
    requires AddSaleSpec(s, req, cashier, now).Success?
    ensures var t := AddSaleSpec(s, req, cashier, now).value;
      t.products.Keys == s.products.Keys &&
      t.nextSaleId == s.nextSaleId + 1 &&
      t.sales.Keys == s.sales.Keys + {s.nextSaleId} &&
      (forall id :: id in s.sales && id != s.nextSaleId ==> t.sales[id] == s.sales[id]) &&
      t.customers == s.customers && t.adjustments == s.adjustments && t.expenses == s.expenses
  {
    AddSaleValue(s, req, cashier, now);
    RecordedEffect(s, CreatedSale(req, Snapshot(s.products, req.items), cashier, now));
  }

  lemma AddSaleValue(s: DbState, req: NewSaleRequest, cashier: UserId, now: int)
    requires AddSaleSpec(s, req, cashier, now).Success?
    ensures ProductsExist(s.products, req.items)
    ensures AddSaleSpec(s, req, cashier, now).value == Recorded(s, CreatedSale(req, Snapshot(s.products, req.items), cashier, now))
  {
  }

  /** Storing a sale under the next id touches no other sale and no other collection. */
  lemma RecordedEffect(s: DbState, sale: Sale)
    ensures var t := Recorded(s, sale);
      t.products.Keys == s.products.Keys &&
      t.nextSaleId == s.nextSaleId + 1 &&
      t.sales.Keys == s.sales.Keys + {s.nextSaleId} &&
      (forall id :: id in s.sales && id != s.nextSaleId ==> t.sales[id] == s.sales[id]) &&
      t.customers == s.customers && t.adjustments == s.adjustments && t.expenses == s.expenses
  {
  }

  /**
   * The sale addSale stores: status Completed, order Pending, payment status
   * as requested (Unpaid by default), payment method as requested only when
   * paid up front and Pending otherwise, and each line with the product's
   * current basePrice and a trimmed note.
   */
  lemma AddSaleRecord(s: DbState, req: NewSaleRequest, cashier: UserId, now: int)
    requires AddSaleSpec(s, req, cashier, now).Success?
    ensures var sale := AddSaleSpec(s, req, cashier, now).value.sales[s.nextSaleId];
      sale.status == Completed && sale.orderStatus == OrderPending &&
      sale.paymentStatus == req.paymentStatus.GetOr(Unpaid) &&
      sale.paymentMethod == (if req.paymentStatus == Some(Paid) then req.paymentMethod.GetOr(Pending) else Pending) &&
      sale.cashierId == cashier && sale.customerId == req.customerId &&
      sale.totalAmount == req.totalAmount && sale.createdAt == now &&
      |sale.items| == |req.items| &&
      forall i :: 0 <= i < |req.items| ==>
        sale.items[i] == StoredItem(req.items[i]).(basePrice := s.products[req.items[i].productId].basePrice)
  {
    AddSaleValue(s, req, cashier, now);
    CreatedSaleFields(s.products, req, cashier, now);
  }

  /** The document addSale writes for a request whose products all exist. */
  lemma CreatedSaleFields(products: map<ProductId, Product>, req: NewSaleRequest, cashier: UserId, now: int)
    requires ProductsExist(products, req.items)
    ensures var sale := CreatedSale(req, Snapshot(products, req.items), cashier, now);
      sale.status == Completed && sale.orderStatus == OrderPending &&
      sale.paymentStatus == req.paymentStatus.GetOr(Unpaid) &&
      sale.paymentMethod == (if req.paymentStatus == Some(Paid) then req.paymentMethod.GetOr(Pending) else Pending) &&
      sale.cashierId == cashier && sale.customerId == req.customerId &&
      sale.totalAmount == req.totalAmount && sale.createdAt == now &&
      |sale.items| == |req.items| &&
      forall i :: 0 <= i < |req.items| ==>
        sale.items[i] == StoredItem(req.items[i]).(basePrice := products[req.items[i].productId].basePrice)
  {
  }

  /**
   * When no product appears on two lines, a successful addSale cannot drive
   * any stock below zero.
   */
  lemma AddSaleKeepsStockNonNegative(s: DbState, req: NewSaleRequest, cashier: UserId, now: int)
    requires AddSaleSpec(s, req, cashier, now).Success?
    requires Distinct(ProductIds(req.items))
    requires forall p :: p in s.products ==> s.products[p].stock >= 0
    ensures var t := AddSaleSpec(s, req, cashier, now).value;
      forall p :: p in t.products ==> t.products[p].stock >= 0
  {
    AddSaleLinesAccepted(s, req, cashier, now);
    AddSaleEffect(s, req, cashier, now);
    var t := AddSaleSpec(s, req, cashier, now).value;
    forall p | p in t.products ensures t.products[p].stock >= 0 {
      StockCoversLines(s.products, req.items, p);
    }
  }

  /** Every line of a successful addSale names an existing product with enough stock. */
  lemma AddSaleLinesAccepted(s: DbState, req: NewSaleRequest, cashier: UserId, now: int)
    requires AddSaleSpec(s, req, cashier, now).Success?
    ensures forall i :: 0 <= i < |req.items| ==> LineAccepted(s.products, req.items[i])
  {
    var k := FirstFault(s.products, req.items);
    forall i | 0 <= i < |req.items| ensures LineAccepted(s.products, req.items[i]) {
      assert ItemFault(s.products, req.items[i]).None?;
    }
  }

  /** Lines that each fit the stock, one per product, fit it together. */
  lemma StockCoversLines(products: map<ProductId, Product>, items: seq<LineItem>, p: ProductId)
    requires Distinct(ProductIds(items)) && p in products && products[p].stock >= 0
    requires forall i :: 0 <= i < |items| ==> LineAccepted(products, items[i])
    ensures products[p].stock - QtyOf(items, p) >= 0
  {
    if p in ProductIds(items) {
      var i :| 0 <= i < |items| && ProductIds(items)[i] == p;
      QtyOfDistinct(items, i);
      assert LineAccepted(products, items[i]);
    } else {
      QtyOfAbsent(items, p);
    }
  }

  /** A request with lines, no unknown customer and every line accepted succeeds. */
  lemma AddSaleAccepts(s: DbState, req: NewSaleRequest, cashier: UserId, now: int)
    requires |req.items| > 0 && (req.customerId.Some? ==> req.customerId.value in s.customers)
    requires forall i :: 0 <= i < |req.items| ==> LineAccepted(s.products, req.items[i])
    ensures AddSaleSpec(s, req, cashier, now).Success?
  {
    var k := FirstFault(s.products, req.items);
    assert k == |req.items| by {
      if k < |req.items| {
        assert false;
      }
    }
  }

  /** A request holding the same line twice, with no customer and no payment fields. */
  function RepeatedLine(line: LineItem, totalAmount: int): NewSaleRequest {
    NewSaleRequest([line, line], totalAmount, None, None, None)
  }

  lemma RepeatedLineQty(line: LineItem)
    ensures QtyOf([line, line], line.productId) == 2 * line.quantity
    ensures QtyOf([line], line.productId) == line.quantity
  {
    var p, q := line.productId, line.quantity;
    assert Lines([line])[..0] == [];
    assert SumFor(Lines([line]), p) == q;
    assert Lines([line, line])[..1] == Lines([line]);
    assert SumFor(Lines([line, line]), p) == SumFor(Lines([line]), p) + q;
  }

  /**
   * Each line is checked against the stock as it was before the sale, so the
   * same line twice is accepted whenever one copy fits, and the stock drops
   * by both: below zero whenever it held less than twice the quantity.
   */
  lemma DuplicateLinesOverdraw(s: DbState, line: LineItem, totalAmount: int, cashier: UserId, now: int)
    requires line.productId in s.products && line.quantity <= s.products[line.productId].stock
    ensures AddSaleSpec(s, RepeatedLine(line, totalAmount), cashier, now).Success?
    ensures var t := AddSaleSpec(s, RepeatedLine(line, totalAmount), cashier, now).value;
      line.productId in t.products &&
      t.products[line.productId].stock == s.products[line.productId].stock - 2 * line.quantity
  {
    var req := RepeatedLine(line, totalAmount);
    AddSaleAccepts(s, req, cashier, now);
    AddSaleStockAt(s, req, cashier, now, line.productId);
    RepeatedLineQty(line);
  }

  // ---------------------------------------------------------------------------
  // updateSale
  // ---------------------------------------------------------------------------

  /**
   * updateSale succeeds exactly when the sale exists, is unpaid and every
   * product on its stored lines still exists. Neither the sale's status nor
   * the stock available for the new lines is checked.
   */
  lemma UpdateSaleOutcome(s: DbState, id: SaleId, items: seq<LineItem>, totalAmount: int)
    ensures UpdateSaleSpec(s, id, items, totalAmount).Success? <==>
      id in s.sales && s.sales[id].paymentStatus == Unpaid && ProductsExist(s.products, s.sales[id].items)
    ensures id !in s.sales ==> UpdateSaleSpec(s, id, items, totalAmount) == Failure(SaleNotFound)
    ensures id in s.sales && s.sales[id].paymentStatus == Paid ==>
      UpdateSaleSpec(s, id, items, totalAmount) == Failure(CannotEditPaidSale)
  {
  }

  /**
   * A successful edit moves each product's stock by (last old quantity - last
   * new quantity), replaces the sale's lines and total, and leaves every
   * other field of it and every other sale untouched.
   */
  lemma UpdateSaleEffect(s: DbState, id: SaleId, items: seq<LineItem>, totalAmount: int)
    requires UpdateSaleSpec(s, id, items, totalAmount).Success?
    ensures var t := UpdateSaleSpec(s, id, items, totalAmount).value;
      var before := s.sales[id];
      t.products.Keys == s.products.Keys &&
      (forall p :: p in s.products ==>
         t.products[p] == s.products[p].(stock := s.products[p].stock + LastQty(before.items, p) - LastQty(items, p))) &&
      t.sales.Keys == s.sales.Keys &&
      (forall other :: other in s.sales && other != id ==> t.sales[other] == s.sales[other]) &&
      t.sales[id] == before.(items := StoredItems(items), totalAmount := totalAmount) &&
      t.nextSaleId == s.nextSaleId && t.customers == s.customers &&
      t.adjustments == s.adjustments && t.expenses == s.expenses
  {
    var before := s.sales[id];
    forall p | p in s.products
      ensures UpdateSaleSpec(s, id, items, totalAmount).value.products[p] ==
        s.products[p].(stock := s.products[p].stock + LastQty(before.items, p) - LastQty(items, p))
    {
      UpdateStockAtLast(s, id, items, totalAmount, p);
    }
  }

  /** With one line per product on both versions, an edit moves stock by old total - new total. */
  lemma UpdateSaleEffectDistinct(s: DbState, id: SaleId, items: seq<LineItem>, totalAmount: int)
    requires UpdateSaleSpec(s, id, items, totalAmount).Success?
    requires Distinct(ProductIds(s.sales[id].items)) && Distinct(ProductIds(items))
    ensures var t := UpdateSaleSpec(s, id, items, totalAmount).value;
      forall p :: p in s.products ==>
        t.products[p].stock == s.products[p].stock + QtyOf(s.sales[id].items, p) - QtyOf(items, p)
  {
    forall p | p in s.products
      ensures UpdateSaleSpec(s, id, items, totalAmount).value.products[p].stock ==
        s.products[p].stock + QtyOf(s.sales[id].items, p) - QtyOf(items, p)
    {
      UpdateStockAt(s, id, items, totalAmount, p);
    }
  }

  /**
   * An edit is not checked against stock: raising a line from 1 to 5 units
   * when nothing is left in stock is accepted and leaves the stock at -4.
   */
  lemma EditCanOverdraw()
    ensures var line := LineItem(0, "Tea", 5, 10, 1, None);
      var sale := Sale(7, None, [line], 10, Pending, Unpaid, OrderPending, Completed, 0);
      var s := DbState(map[0 := Product("Tea", "T1", 0, 5, 10, 0, None, None)], {}, map[0 := sale], 1, [], []);
      UpdateSaleSpec(s, 0, [line.(quantity := 5)], 50).Success? &&
      UpdateSaleSpec(s, 0, [line.(quantity := 5)], 50).value.products[0].stock == -4
  {
    var line := LineItem(0, "Tea", 5, 10, 1, None);
    var sale := Sale(7, None, [line], 10, Pending, Unpaid, OrderPending, Completed, 0);
    var s := DbState(map[0 := Product("Tea", "T1", 0, 5, 10, 0, None, None)], {}, map[0 := sale], 1, [], []);
    UpdateSaleEffect(s, 0, [line.(quantity := 5)], 50);
    assert LastQty([line], 0) == 1;
    assert LastQty([line.(quantity := 5)], 0) == 5;
  }

  /** `map.get(p)` reads the last line for `p`. */
  lemma LastQtyOfLast(items: seq<LineItem>)
    requires items != []
    ensures LastQty(items, items[|items| - 1].productId) == items[|items| - 1].quantity
  {
  }

  /**
   * Editing an unpaid, unretracted sale whose last line is `line` down to
   * that line alone, then retracting it: the edit reads one quantity per
   * product on each side and sees no change for that product, so only the
   * one remaining copy's quantity comes back.
   */
  lemma EditDownToLastLineThenRetract(t1: DbState, id: SaleId, line: LineItem, newTotal: int)
    requires id in t1.sales && t1.sales[id].paymentStatus == Unpaid && t1.sales[id].status == Completed
    requires ProductsExist(t1.products, t1.sales[id].items) && line.productId in t1.products
    requires t1.sales[id].items != []
    requires Lines(t1.sales[id].items)[|t1.sales[id].items| - 1] == (line.productId, line.quantity)
    ensures UpdateSaleSpec(t1, id, [line], newTotal).Success?
    ensures var t2 := UpdateSaleSpec(t1, id, [line], newTotal).value;
      RetractSaleSpec(t2, id).Success? &&
      line.productId in RetractSaleSpec(t2, id).value.products &&
      RetractSaleSpec(t2, id).value.products[line.productId].stock ==
        t1.products[line.productId].stock + line.quantity
  {
    LastQtyOfLast(t1.sales[id].items);
    LastQtyOfLast([line]);
    UpdateStockAtLast(t1, id, [line], newTotal, line.productId);
    var t2 := UpdateSaleSpec(t1, id, [line], newTotal).value;
    assert t2.sales[id].items == StoredItems([line]) && t2.sales[id].status == Completed;
    RetractStockAt(t2, id, line.productId);
    LinesOfStored([line]);
    RepeatedLineQty(line);
  }

  /** The repeated-line sale as addSale stores it: unpaid, Completed, its products present, `line` last. */
  lemma RepeatedLineStored(s: DbState, line: LineItem, totalAmount: int, cashier: UserId, now: int)
    requires AddSaleSpec(s, RepeatedLine(line, totalAmount), cashier, now).Success?
    ensures var t1 := AddSaleSpec(s, RepeatedLine(line, totalAmount), cashier, now).value;
      var id := s.nextSaleId;
      id in t1.sales && t1.sales[id].paymentStatus == Unpaid && t1.sales[id].status == Completed &&
      ProductsExist(t1.products, t1.sales[id].items) && t1.sales[id].items != [] &&
      Lines(t1.sales[id].items)[|t1.sales[id].items| - 1] == (line.productId, line.quantity)
  {
    var req := RepeatedLine(line, totalAmount);
    AddSaleShape(s, req, cashier, now);
    assert Lines(req.items)[1] == (line.productId, line.quantity);
  }

  /**
   * An edit reads one quantity per product (the last line's), so when a sale
   * holds the same line twice and is edited down to one copy, no stock comes
   * back: retracting afterwards restores one copy's quantity of the two the
   * sale took.
   */
  lemma EditOfDuplicateLinesLosesStock(s: DbState, line: LineItem, totalAmount: int, newTotal: int, cashier: UserId, now: int)
    requires line.productId in s.products && line.quantity <= s.products[line.productId].stock
    ensures AddSaleSpec(s, RepeatedLine(line, totalAmount), cashier, now).Success?
    ensures var t1 := AddSaleSpec(s, RepeatedLine(line, totalAmount), cashier, now).value;
      UpdateSaleSpec(t1, s.nextSaleId, [line], newTotal).Success? &&
      var t2 := UpdateSaleSpec(t1, s.nextSaleId, [line], newTotal).value;
      RetractSaleSpec(t2, s.nextSaleId).Success? &&
      line.productId in RetractSaleSpec(t2, s.nextSaleId).value.products &&
      RetractSaleSpec(t2, s.nextSaleId).value.products[line.productId].stock ==
        s.products[line.productId].stock - line.quantity
  {
    DuplicateLinesOverdraw(s, line, totalAmount, cashier, now);
    RepeatedLineStored(s, line, totalAmount, cashier, now);
    EditDownToLastLineThenRetract(AddSaleSpec(s, RepeatedLine(line, totalAmount), cashier, now).value, s.nextSaleId, line, newTotal);
  }

  // ---------------------------------------------------------------------------
  // updateSaleToPaid
  // ---------------------------------------------------------------------------

  /**
   * Marking paid succeeds exactly on an existing unpaid sale, whatever its
   * status; it sets the payment status and method and changes nothing else,
   * stock included.
   */
  lemma PaySaleEffect(s: DbState, id: SaleId, paymentMethod: PaymentMethod)
    ensures PaySaleSpec(s, id, paymentMethod).Success? <==> id in s.sales && s.sales[id].paymentStatus == Unpaid
    ensures id in s.sales && s.sales[id].paymentStatus == Paid ==>
      PaySaleSpec(s, id, paymentMethod) == Failure(AlreadyPaid)
    ensures PaySaleSpec(s, id, paymentMethod).Success? ==>
      var t := PaySaleSpec(s, id, paymentMethod).value;
      t.products == s.products && t.sales.Keys == s.sales.Keys &&
      (forall other :: other in s.sales && other != id ==> t.sales[other] == s.sales[other]) &&
      t.sales[id] == s.sales[id].(paymentStatus := Paid, paymentMethod := paymentMethod) &&
      t.nextSaleId == s.nextSaleId && t.customers == s.customers &&
      t.adjustments == s.adjustments && t.expenses == s.expenses
  {
  }

  // ---------------------------------------------------------------------------
  // retractSale
  // ---------------------------------------------------------------------------

  /**
   * Retracting succeeds exactly on an existing sale that is not retracted yet,
   * paid or not; it gives every line's quantity back to its product, marks
   * the sale Retracted and leaves every other field of it, every other sale
   * and the other collections alone.
   */
  lemma RetractSaleEffect(s: DbState, id: SaleId)
    ensures RetractSaleSpec(s, id).Success? <==> id in s.sales && s.sales[id].status == Completed
    ensures id in s.sales && s.sales[id].status == Retracted ==> RetractSaleSpec(s, id) == Failure(AlreadyRetracted)
    ensures RetractSaleSpec(s, id).Success? ==>
      var t := RetractSaleSpec(s, id).value;
      t.products.Keys == s.products.Keys &&
      (forall p :: p in s.products ==>
         t.products[p] == s.products[p].(stock := s.products[p].stock + QtyOf(s.sales[id].items, p))) &&
      t.sales.Keys == s.sales.Keys &&
      (forall other :: other in s.sales && other != id ==> t.sales[other] == s.sales[other]) &&
      t.sales[id] == s.sales[id].(status := Retracted) &&
      t.nextSaleId == s.nextSaleId && t.customers == s.customers &&
      t.adjustments == s.adjustments && t.expenses == s.expenses
  {
  }

  /** A sale can be retracted once: the second attempt fails and changes nothing. */
  lemma RetractTwiceFails(s: DbState, id: SaleId)
    requires RetractSaleSpec(s, id).Success?
    ensures RetractSaleSpec(RetractSaleSpec(s, id).value, id) == Failure(AlreadyRetracted)
  {
  }

  /**
   * A retracted sale that was unpaid can still be paid, and still be edited
   * while its products exist; the edit moves stock although the retraction
   * already gave it back.
   */
  lemma RetractedSaleStaysOpen(s: DbState, id: SaleId, items: seq<LineItem>, totalAmount: int, paymentMethod: PaymentMethod)
    requires RetractSaleSpec(s, id).Success?
    requires s.sales[id].paymentStatus == Unpaid
    ensures PaySaleSpec(RetractSaleSpec(s, id).value, id, paymentMethod).Success?
    ensures UpdateSaleSpec(RetractSaleSpec(s, id).value, id, items, totalAmount).Success? <==>
      ProductsExist(s.products, s.sales[id].items)
  {
  }

  // ---------------------------------------------------------------------------
  // Round trips
  // ---------------------------------------------------------------------------

  /** addSale's effect on one product. */
  lemma AddSaleStockAt(s: DbState, req: NewSaleRequest, cashier: UserId, now: int, p: ProductId)
    requires AddSaleSpec(s, req, cashier, now).Success? && p in s.products
    ensures var t := AddSaleSpec(s, req, cashier, now).value;
      p in t.products && t.products[p] == s.products[p].(stock := s.products[p].stock - QtyOf(req.items, p))
  {
    AddSaleValue(s, req, cashier, now);
    RecordedStockAt(s, req, cashier, now, p);
  }

  lemma RecordedStockAt(s: DbState, req: NewSaleRequest, cashier: UserId, now: int, p: ProductId)
    requires ProductsExist(s.products, req.items) && p in s.products
    ensures var t := Recorded(s, CreatedSale(req, Snapshot(s.products, req.items), cashier, now));
      p in t.products && t.products[p] == s.products[p].(stock := s.products[p].stock - QtyOf(req.items, p))
  {
    var sale := CreatedSale(req, Snapshot(s.products, req.items), cashier, now);
    LinesOfSnapshot(s.products, req.items);
    NegatedSum(Lines(sale.items), p);
  }

  /** The stored sale keeps the requested lines' ids and quantities, is Completed, and no product is added or removed. */
  lemma AddSaleShape(s: DbState, req: NewSaleRequest, cashier: UserId, now: int)
    requires AddSaleSpec(s, req, cashier, now).Success?
    ensures var t := AddSaleSpec(s, req, cashier, now).value;
      t.products.Keys == s.products.Keys && s.nextSaleId in t.sales &&
      t.sales[s.nextSaleId].status == Completed &&
      t.sales[s.nextSaleId].paymentStatus == req.paymentStatus.GetOr(Unpaid) &&
      Lines(t.sales[s.nextSaleId].items) == Lines(req.items) &&
      ProductsExist(t.products, t.sales[s.nextSaleId].items)
  {
    AddSaleOutcome(s, req, cashier, now);
    LinesOfSnapshot(s.products, req.items);
    var t := AddSaleSpec(s, req, cashier, now).value;
    var stored := t.sales[s.nextSaleId].items;
    forall i | 0 <= i < |stored| ensures stored[i].productId in t.products {
      assert Lines(stored)[i] == Lines(req.items)[i];
      assert LineAccepted(s.products, req.items[i]);
    }
  }

  /** retractSale's effect on one product. */
  lemma RetractStockAt(s: DbState, id: SaleId, p: ProductId)
    requires RetractSaleSpec(s, id).Success? && p in s.products
    ensures var t := RetractSaleSpec(s, id).value;
      p in t.products && t.products[p] == s.products[p].(stock := s.products[p].stock + QtyOf(s.sales[id].items, p))
  {
  }

  /** updateSale's effect on one product. */
  lemma UpdateStockAtLast(s: DbState, id: SaleId, items: seq<LineItem>, totalAmount: int, p: ProductId)
    requires UpdateSaleSpec(s, id, items, totalAmount).Success? && p in s.products
    ensures var t := UpdateSaleSpec(s, id, items, totalAmount).value;
      p in t.products &&
      t.products[p] == s.products[p].(stock := s.products[p].stock + LastQty(s.sales[id].items, p) - LastQty(items, p))
  {
    ReconcileNet(s.sales[id].items, items, p);
  }

  /** updateSale's effect on one product, when no product appears on two lines of either version. */
  lemma UpdateStockAt(s: DbState, id: SaleId, items: seq<LineItem>, totalAmount: int, p: ProductId)
    requires UpdateSaleSpec(s, id, items, totalAmount).Success? && p in s.products
    requires Distinct(ProductIds(s.sales[id].items)) && Distinct(ProductIds(items))
    ensures var t := UpdateSaleSpec(s, id, items, totalAmount).value;
      p in t.products &&
      t.products[p] == s.products[p].(stock := s.products[p].stock + QtyOf(s.sales[id].items, p) - QtyOf(items, p))
  {
    UpdateStockAtLast(s, id, items, totalAmount, p);
    LastQtyIsTotal(s.sales[id].items, p);
    LastQtyIsTotal(items, p);
  }

  /** Retracting a sale right after creating it always succeeds and restores every product's stock. */
  lemma CreateThenRetractRestoresStock(s: DbState, req: NewSaleRequest, cashier: UserId, now: int)
    requires AddSaleSpec(s, req, cashier, now).Success?
    ensures var t := AddSaleSpec(s, req, cashier, now).value;
      RetractSaleSpec(t, s.nextSaleId).Success? &&
      RetractSaleSpec(t, s.nextSaleId).value.products == s.products
  {
    var id := s.nextSaleId;
    var t := AddSaleSpec(s, req, cashier, now).value;
    AddSaleShape(s, req, cashier, now);
    var u := RetractSaleSpec(t, id).value;
    forall p | p in s.products ensures p in u.products && u.products[p] == s.products[p] {
      AddSaleStockAt(s, req, cashier, now, p);
      RetractStockAt(t, id, p);
    }
    SameProducts(u.products, s.products);
  }

  /**
   * Editing an unretracted sale and then retracting it gives each product back
   * what the original sale took, when no product appears on two lines of
   * either version: the edit's correction and the retraction of the new lines
   * cancel out.
   */
  lemma EditThenRetractStockAt(t1: DbState, id: SaleId, items: seq<LineItem>, totalAmount: int, p: ProductId)
    requires UpdateSaleSpec(t1, id, items, totalAmount).Success? && p in t1.products
    requires t1.sales[id].status == Completed
    requires Distinct(ProductIds(t1.sales[id].items)) && Distinct(ProductIds(items))
    ensures var t2 := UpdateSaleSpec(t1, id, items, totalAmount).value;
      RetractSaleSpec(t2, id).Success? &&
      var t3 := RetractSaleSpec(t2, id).value;
      p in t3.products && t3.products[p] == t1.products[p].(stock := t1.products[p].stock + QtyOf(t1.sales[id].items, p))
  {
    var t2 := UpdateSaleSpec(t1, id, items, totalAmount).value;
    UpdateStockAt(t1, id, items, totalAmount, p);
    assert t2.sales[id].items == StoredItems(items) && t2.sales[id].status == Completed;
    RetractStockAt(t2, id, p);
    LinesOfStored(items);
  }

  /** Create, edit, then retract, seen from one product. */
  lemma CreateEditRetractStockAt(
    s: DbState, req: NewSaleRequest, cashier: UserId, now: int, items: seq<LineItem>, totalAmount: int, p: ProductId)
    requires AddSaleSpec(s, req, cashier, now).Success? && p in s.products
    requires req.paymentStatus != Some(Paid)
    requires Distinct(ProductIds(req.items)) && Distinct(ProductIds(items))
    ensures var t1 := AddSaleSpec(s, req, cashier, now).value;
      UpdateSaleSpec(t1, s.nextSaleId, items, totalAmount).Success? &&
      var t2 := UpdateSaleSpec(t1, s.nextSaleId, items, totalAmount).value;
      RetractSaleSpec(t2, s.nextSaleId).Success? &&
      p in RetractSaleSpec(t2, s.nextSaleId).value.products &&
      RetractSaleSpec(t2, s.nextSaleId).value.products[p] == s.products[p]
  {
    var t1 := AddSaleSpec(s, req, cashier, now).value;
    AddSaleShape(s, req, cashier, now);
    assert ProductIds(t1.sales[s.nextSaleId].items) == ProductIds(req.items);
    AddSaleStockAt(s, req, cashier, now, p);
    EditThenRetractStockAt(t1, s.nextSaleId, items, totalAmount, p);
  }

  /** A sale created unpaid can be edited and then retracted, and no product is added or removed on the way. */
  lemma CreateEditRetractSucceeds(
    s: DbState, req: NewSaleRequest, cashier: UserId, now: int, items: seq<LineItem>, totalAmount: int)
    requires AddSaleSpec(s, req, cashier, now).Success?
    requires req.paymentStatus != Some(Paid)
    ensures var t1 := AddSaleSpec(s, req, cashier, now).value;
      UpdateSaleSpec(t1, s.nextSaleId, items, totalAmount).Success? &&
      var t2 := UpdateSaleSpec(t1, s.nextSaleId, items, totalAmount).value;
      RetractSaleSpec(t2, s.nextSaleId).Success? &&
      RetractSaleSpec(t2, s.nextSaleId).value.products.Keys == s.products.Keys
  {
    AddSaleShape(s, req, cashier, now);
  }

  /**
   * Create, edit, then retract: when no product appears on two lines of
   * either version, every product ends with the stock it started with.
   */
  lemma CreateEditRetractRestoresStock(
    s: DbState, req: NewSaleRequest, cashier: UserId, now: int, items: seq<LineItem>, totalAmount: int)
    requires AddSaleSpec(s, req, cashier, now).Success?
    requires req.paymentStatus != Some(Paid)
    requires Distinct(ProductIds(req.items)) && Distinct(ProductIds(items))
    ensures var id := s.nextSaleId;
      var t1 := AddSaleSpec(s, req, cashier, now).value;
      UpdateSaleSpec(t1, id, items, totalAmount).Success? &&
      var t2 := UpdateSaleSpec(t1, id, items, totalAmount).value;
      RetractSaleSpec(t2, id).Success? &&
      RetractSaleSpec(t2, id).value.products == s.products
  {
    CreateEditRetractSucceeds(s, req, cashier, now, items, totalAmount);
    var t3 := RetractSaleSpec(UpdateSaleSpec(AddSaleSpec(s, req, cashier, now).value, s.nextSaleId, items, totalAmount).value, s.nextSaleId).value;
    forall p | p in s.products ensures t3.products[p] == s.products[p] {
      CreateEditRetractStockAt(s, req, cashier, now, items, totalAmount, p);
    }
    SameProducts(t3.products, s.products);
  }

  lemma SameProducts(a: map<ProductId, Product>, b: map<ProductId, Product>)
    requires a.Keys == b.Keys && forall p :: p in b ==> a[p] == b[p]
    ensures a == b
  {
  }

  // ---------------------------------------------------------------------------
  // Sale ids
  // ---------------------------------------------------------------------------

  /**
   * Every handler keeps "each stored id was handed out", so addSale never
   * overwrites an existing sale; the other three never add or remove one.
   */
  lemma HandlersKeepIdsIssued(
    s: DbState, req: NewSaleRequest, cashier: UserId, now: int,
    id: SaleId, items: seq<LineItem>, totalAmount: int, paymentMethod: PaymentMethod)
    requires IdsIssued(s)
    ensures s.nextSaleId !in s.sales
    ensures AddSaleSpec(s, req, cashier, now).Success? ==> IdsIssued(AddSaleSpec(s, req, cashier, now).value)
    ensures UpdateSaleSpec(s, id, items, totalAmount).Success? ==> IdsIssued(UpdateSaleSpec(s, id, items, totalAmount).value)
    ensures PaySaleSpec(s, id, paymentMethod).Success? ==> IdsIssued(PaySaleSpec(s, id, paymentMethod).value)
    ensures RetractSaleSpec(s, id).Success? ==> IdsIssued(RetractSaleSpec(s, id).value)
  {
    AddSaleKeepsIdsIssued(s, req, cashier, now);
    UpdateSaleKeepsIdsIssued(s, id, items, totalAmount);
    PaySaleKeepsIdsIssued(s, id, paymentMethod);
    RetractSaleKeepsIdsIssued(s, id);
  }

  lemma AddSaleKeepsIdsIssued(s: DbState, req: NewSaleRequest, cashier: UserId, now: int)
    requires IdsIssued(s)
    ensures s.nextSaleId !in s.sales
    ensures AddSaleSpec(s, req, cashier, now).Success? ==> IdsIssued(AddSaleSpec(s, req, cashier, now).value)
  {
    if AddSaleSpec(s, req, cashier, now).Success? {
      AddSaleValue(s, req, cashier, now);
      RecordedKeepsIdsIssued(s, CreatedSale(req, Snapshot(s.products, req.items), cashier, now));
    }
  }

  lemma RecordedKeepsIdsIssued(s: DbState, sale: Sale)
    requires IdsIssued(s)
    ensures IdsIssued(Recorded(s, sale))
  {
  }

  lemma UpdateSaleKeepsIdsIssued(s: DbState, id: SaleId, items: seq<LineItem>, totalAmount: int)
    requires IdsIssued(s)
    ensures UpdateSaleSpec(s, id, items, totalAmount).Success? ==> IdsIssued(UpdateSaleSpec(s, id, items, totalAmount).value)
  {
  }

  lemma PaySaleKeepsIdsIssued(s: DbState, id: SaleId, paymentMethod: PaymentMethod)
    requires IdsIssued(s)
    ensures PaySaleSpec(s, id, paymentMethod).Success? ==> IdsIssued(PaySaleSpec(s, id, paymentMethod).value)
  {
  }

  lemma RetractSaleKeepsIdsIssued(s: DbState, id: SaleId)
    requires IdsIssued(s)
    ensures RetractSaleSpec(s, id).Success? ==> IdsIssued(RetractSaleSpec(s, id).value)
  {
  }
}
