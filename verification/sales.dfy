/**
 * The sale transaction manager: creating a sale, editing an unpaid sale,
 * marking a sale paid and retracting a sale. Each handler is one atomic step:
 * every check happens before any write, and a failed check leaves the
 * database as it was.
 *
 * `AddSaleSpec`, `UpdateSaleSpec`, `PaySaleSpec` and `RetractSaleSpec` say
 * what each handler does to the database as a whole; the methods `AddSale`,
 * `UpdateSale`, `UpdateSaleToPaid` and `RetractSale` do it step by step, one
 * `$inc` per product, and are proved to match.
 */
module SaleController {
  import opened Wrappers
  import opened Records
  import opened Aggregate
  import opened StockLedger
  import opened Store

  datatype SaleError =
    | NoOrderItems
    | CustomerNotFound(customerId: CustomerId)
    | ProductNotFound(productId: ProductId)
    | NotEnoughStock(name: string, available: int, requested: int)
    | SaleNotFound
    | CannotEditPaidSale
    | DanglingProduct    // a line of the stored sale names a product that no longer exists
    | AlreadyPaid
    | AlreadyRetracted

  /** The body of a create-sale request, as far as the sale schema keeps it. */
  datatype NewSaleRequest = NewSaleRequest(
    items: seq<LineItem>,
    totalAmount: int,
    paymentMethod: Option<PaymentMethod>,
    paymentStatus: Option<PaymentStatus>,
    customerId: Option<CustomerId>)

  /** One more `$inc` extends the applied prefix by one. */
  lemma ApplyNext(products: map<ProductId, Product>, ds: seq<StockDelta>, i: nat)
    requires i < |ds|
    ensures ApplyDeltas(products, ds[..i + 1]) == IncStock(ApplyDeltas(products, ds[..i]), ds[i].0, ds[i].1)
  {
    assert ds[..i + 1][..i] == ds[..i];
  }

  /**
   * The stock loop of addSale (sign -1) and retractSale (sign +1): one `$inc`
   * of sign * quantity per line, in line order.
   */
  method ApplyLines(db: Database, items: seq<LineItem>, sign: int)
    requires sign == 1 || sign == -1
    modifies db`products
    ensures db.products == ApplyDeltas(old(db.products), if sign == 1 then Lines(items) else Negated(Lines(items)))
  {
    ghost var ds := if sign == 1 then Lines(items) else Negated(Lines(items));
    var i := 0;
    while i < |items|
      invariant 0 <= i <= |items|
      invariant db.products == ApplyDeltas(old(db.products), ds[..i])
    {
      var item := items[i];
      ApplyNext(old(db.products), ds, i);
      db.products := IncStock(db.products, item.productId, sign * item.quantity);
      i := i + 1;
    }
    assert ds[..|items|] == ds;
  }

  // ---------------------------------------------------------------------------
  // addSale
  // ---------------------------------------------------------------------------

  /** Why one requested line is refused: its product is missing, or has less stock than requested. */
  function ItemFault(products: map<ProductId, Product>, item: LineItem): Option<SaleError> {
    if item.productId !in products then Some(ProductNotFound(item.productId))
    else if products[item.productId].stock < item.quantity then
      Some(NotEnoughStock(item.name, products[item.productId].stock, item.quantity))
    else None
  }

  /** The index of the first refused line, or |items| when every line passes. */
  function FirstFault(products: map<ProductId, Product>, items: seq<LineItem>): (k: nat)
    ensures k <= |items|
    ensures forall j :: 0 <= j < k ==> ItemFault(products, items[j]).None?
    ensures k < |items| ==> ItemFault(products, items[k]).Some?
  {
    if items == [] then 0
    else if ItemFault(products, items[0]).Some? then 0
    else 1 + FirstFault(products, items[1..])
  }

  /** Each requested line with its basePrice overwritten by the product's current basePrice. */
  function Snapshot(products: map<ProductId, Product>, items: seq<LineItem>): (r: seq<LineItem>)
    requires forall i :: 0 <= i < |items| ==> items[i].productId in products
    ensures |r| == |items|
    ensures forall i :: 0 <= i < |items| ==> r[i] == items[i].(basePrice := products[items[i].productId].basePrice)
  {
    seq(|items|, i requires 0 <= i < |items| => items[i].(basePrice := products[items[i].productId].basePrice))
  }

  /** The sale document addSale writes. */
  function CreatedSale(req: NewSaleRequest, items: seq<LineItem>, cashier: UserId, now: int): Sale {
    var pm := if req.paymentStatus == Some(Paid) then req.paymentMethod else Some(Pending);
    NewSale(cashier, req.customerId, items, req.totalAmount,
            pm,Some(req.paymentStatus.GetOr(Unpaid)), Some(OrderPending), Some(Completed), now)
  }

  function AddSaleSpec(s: DbState, req: NewSaleRequest, cashier: UserId, now: int): Result<DbState, SaleError> {
    if |req.items| == 0 then Failure(NoOrderItems)
    else if req.customerId.Some? && req.customerId.value !in s.customers then
      Failure(CustomerNotFound(req.customerId.value))
    else
      var k := FirstFault(s.products, req.items);
      if k < |req.items| then Failure(ItemFault(s.products, req.items[k]).value)
      else Success(Recorded(s, CreatedSale(req, Snapshot(s.products, req.items), cashier, now)))
  }

  /** The database after `sale` is stored under the next id and its lines are taken out of stock. */
  function Recorded(s: DbState, sale: Sale): DbState {
    s.(products := ApplyDeltas(s.products, Negated(Lines(sale.items))),
       sales := s.sales[s.nextSaleId := sale],
       nextSaleId := s.nextSaleId + 1)
  }

  method AddSale(db: Database, req: NewSaleRequest, cashier: UserId, now: int) returns (r: Result<Sale, SaleError>)
    modifies db
    ensures r.Success? <==> AddSaleSpec(old(db.State()), req, cashier, now).Success?
    ensures r.Failure? ==>
      AddSaleSpec(old(db.State()), req, cashier, now) == Failure(r.error) && db.State() == old(db.State())
    ensures r.Success? ==>
      AddSaleSpec(old(db.State()), req, cashier, now) == Success(db.State()) &&
      old(db.nextSaleId) in db.sales && db.sales[old(db.nextSaleId)] == r.value
  {
    if |req.items| == 0 {
      return Failure(NoOrderItems);
    }
    if req.customerId.Some? && req.customerId.value !in db.customers {
      return Failure(CustomerNotFound(req.customerId.value));
    }
    var k := FirstFault(db.products, req.items);
    if k < |req.items| {
      return Failure(ItemFault(db.products, req.items[k]).value);
    }
    var sale := CreatedSale(req, Snapshot(db.products, req.items), cashier, now);
    SaveSale(db, sale);
    return Success(sale);
  }

  /** `sale.save()` under the next id, then one `$inc` of -quantity per line. */
  method SaveSale(db: Database, sale: Sale)
    modifies db
    ensures db.State() == Recorded(old(db.State()), sale)
    ensures old(db.nextSaleId) in db.sales && db.sales[old(db.nextSaleId)] == sale
  {
    var id := db.nextSaleId;
    db.sales := db.sales[id := sale];
    db.nextSaleId := id + 1;
    // Decrease stock for every line, paid or unpaid.
    ApplyLines(db, sale.items, -1);
  }

  // ---------------------------------------------------------------------------
  // updateSale
  // ---------------------------------------------------------------------------

  predicate ProductsExist(products: map<ProductId, Product>, items: seq<LineItem>) {
    forall i :: 0 <= i < |items| ==> items[i].productId in products
  }

  function UpdateSaleSpec(s: DbState, id: SaleId, items: seq<LineItem>, totalAmount: int): Result<DbState, SaleError> {
    if id !in s.sales then Failure(SaleNotFound)
    else if s.sales[id].paymentStatus == Paid then Failure(CannotEditPaidSale)
    else if !ProductsExist(s.products, s.sales[id].items) then Failure(DanglingProduct)
    else
      var sale := s.sales[id];
      Success(s.(products := ApplyDeltas(s.products, Reconcile(ChangedIds(sale.items, items), sale.items, items)),
                 sales := s.sales[id := sale.(items := StoredItems(items), totalAmount := totalAmount)]))
  }

  method UpdateSale(db: Database, id: SaleId, items: seq<LineItem>, totalAmount: int) returns (r: Result<Sale, SaleError>)
    modifies db
    ensures r.Success? <==> UpdateSaleSpec(old(db.State()), id, items, totalAmount).Success?
    ensures r.Failure? ==>
      UpdateSaleSpec(old(db.State()), id, items, totalAmount) == Failure(r.error) && db.State() == old(db.State())
    ensures r.Success? ==>
      UpdateSaleSpec(old(db.State()), id, items, totalAmount) == Success(db.State()) &&
      id in db.sales && db.sales[id] == r.value
  {
    if id !in db.sales {
      return Failure(SaleNotFound);
    }
    var sale := db.sales[id];
    if sale.paymentStatus == Paid {
      return Failure(CannotEditPaidSale);
    }
    if !ProductsExist(db.products, sale.items) {
      return Failure(DanglingProduct);
    }
    ghost var s0 := db.State();
    var edited := sale.(items := StoredItems(items), totalAmount := totalAmount);
    ReconcileStock(db, sale.items, items);
    db.sales := db.sales[id := edited];
    assert db.products == UpdateSaleSpec(s0, id, items, totalAmount).value.products;
    assert db.sales == UpdateSaleSpec(s0, id, items, totalAmount).value.sales;
    assert db.nextSaleId == s0.nextSaleId && db.customers == s0.customers;
    return Success(edited);
  }

  /**
   * The stock loop of updateSale: for every product on either version of the
   * sale, `$inc` by the old quantity minus the new one, skipping a change of 0.
   */
  method ReconcileStock(db: Database, oldItems: seq<LineItem>, newItems: seq<LineItem>)
    modifies db`products
    ensures db.products == ApplyDeltas(old(db.products), Reconcile(ChangedIds(oldItems, newItems), oldItems, newItems))
  {
    var original := QtyMap(oldItems);
    var updated := QtyMap(newItems);
    var ids := ChangedIds(oldItems, newItems);
    var i := 0;
    assert Reconcile(ids[..0], oldItems, newItems) == [] by { assert ids[..0] == []; }
    assert ApplyDeltas(db.products, []) == db.products;
    assert db.products == ApplyDeltas(old(db.products), Reconcile(ids[..0], oldItems, newItems));
    while i < |ids|
      invariant 0 <= i <= |ids|
      invariant db.products == ApplyDeltas(old(db.products), Reconcile(ids[..i], oldItems, newItems))
    {
      var pid := ids[i];
      var originalQty := if pid in original then original[pid] else 0;
      var newQty := if pid in updated then updated[pid] else 0;
      var diff := originalQty - newQty;
      assert originalQty == LastQty(oldItems, pid) && newQty == LastQty(newItems, pid);
      ghost var done := Reconcile(ids[..i], oldItems, newItems);
      ghost var next := Reconcile(ids[..i + 1], oldItems, newItems);
      ReconcileNext(ids, i, oldItems, newItems);
      if diff != 0 {
        assert next == done + [(pid, diff)];
        ApplySnoc(old(db.products), done, (pid, diff));
        db.products := IncStock(db.products, pid, diff);
      } else {
        assert next == done;
      }
      i := i + 1;
    }
    assert ids[..|ids|] == ids;
  }

  lemma ReconcileNext(ids: seq<ProductId>, i: nat, oldItems: seq<LineItem>, newItems: seq<LineItem>)
    requires i < |ids|
    ensures var diff := LastQty(oldItems, ids[i]) - LastQty(newItems, ids[i]);
      Reconcile(ids[..i + 1], oldItems, newItems) ==
      Reconcile(ids[..i], oldItems, newItems) + (if diff != 0 then [(ids[i], diff)] else [])
  {
    assert ids[..i + 1][..i] == ids[..i];
  }

  lemma ApplySnoc(products: map<ProductId, Product>, ds: seq<StockDelta>, d: StockDelta)
    ensures ApplyDeltas(products, ds + [d]) == IncStock(ApplyDeltas(products, ds), d.0, d.1)
  {
    assert (ds + [d])[..|ds|] == ds;
  }

  // ---------------------------------------------------------------------------
  // updateSaleToPaid
  // ---------------------------------------------------------------------------

  function PaySaleSpec(s: DbState, id: SaleId, paymentMethod: PaymentMethod): Result<DbState, SaleError> {
    if id !in s.sales then Failure(SaleNotFound)
    else if s.sales[id].paymentStatus == Paid then Failure(AlreadyPaid)
    else Success(s.(sales := s.sales[id := s.sales[id].(paymentStatus := Paid, paymentMethod := paymentMethod)]))
  }

  method UpdateSaleToPaid(db: Database, id: SaleId, paymentMethod: PaymentMethod) returns (r: Result<Sale, SaleError>)
    modifies db
    ensures r.Success? <==> PaySaleSpec(old(db.State()), id, paymentMethod).Success?
    ensures r.Failure? ==>
      PaySaleSpec(old(db.State()), id, paymentMethod) == Failure(r.error) && db.State() == old(db.State())
    ensures r.Success? ==>
      PaySaleSpec(old(db.State()), id, paymentMethod) == Success(db.State()) &&
      id in db.sales && db.sales[id] == r.value
  {
    if id !in db.sales {
      return Failure(SaleNotFound);
    }
    var sale := db.sales[id];
    if sale.paymentStatus == Paid {
      return Failure(AlreadyPaid);
    }
    sale := sale.(paymentStatus := Paid, paymentMethod := paymentMethod);
    db.sales := db.sales[id := sale];
    return Success(sale);
  }

  // ---------------------------------------------------------------------------
  // retractSale
  // ---------------------------------------------------------------------------

  function RetractSaleSpec(s: DbState, id: SaleId): Result<DbState, SaleError> {
    if id !in s.sales then Failure(SaleNotFound)
    else if s.sales[id].status == Retracted then Failure(AlreadyRetracted)
    else
      var sale := s.sales[id];
      Success(s.(products := ApplyDeltas(s.products, Lines(sale.items)),
                 sales := s.sales[id := sale.(status := Retracted)]))
  }

  method RetractSale(db: Database, id: SaleId) returns (r: Result<Sale, SaleError>)
    modifies db
    ensures r.Success? <==> RetractSaleSpec(old(db.State()), id).Success?
    ensures r.Failure? ==>
      RetractSaleSpec(old(db.State()), id) == Failure(r.error) && db.State() == old(db.State())
    ensures r.Success? ==>
      RetractSaleSpec(old(db.State()), id) == Success(db.State()) &&
      id in db.sales && db.sales[id] == r.value
  {
    if id !in db.sales {
      return Failure(SaleNotFound);
    }
    var sale := db.sales[id];
    if sale.status == Retracted {
      return Failure(AlreadyRetracted);
    }
    ghost var s0 := db.State();
    // Restore stock for every retracted line.
    ApplyLines(db, sale.items, 1);
    sale := sale.(status := Retracted);
    db.sales := db.sales[id := sale];
    assert db.products == RetractSaleSpec(s0, id).value.products;
    assert db.sales == RetractSaleSpec(s0, id).value.sales;
    assert db.nextSaleId == s0.nextSaleId && db.customers == s0.customers;
    return Success(sale);
  }
}
