/**
 * POST /api/adjustments: a signed change to one product's stock, recorded
 * as an adjustment, with a "Stock Loss" expense written alongside it when
 * the stock went down because goods were damaged, lost or expired. Every
 * write happens inside one transaction, so a rejected request changes
 * nothing.
 */
module AdjustmentController {
  import opened Wrappers
  import opened Records
  import opened Store

  /** The request body: `reason` is the raw string the schema's enum validates. */
  datatype AdjustmentRequest = AdjustmentRequest(
    productId: ProductId,
    quantityChanged: int,
    reason: string,
    notes: Option<string>)

  datatype AdjustmentError =
    | ProductNotFound          // 404
    | NegativeStock            // 400 "Stock cannot be negative"
    | AdjustmentInvalid        // the adjustment document fails validation: the transaction aborts

  /** The reasons that count as a loss of goods. */
  predicate IsLossReason(r: AdjustmentReason) {
    r == Damaged || r == Lost || r == Expired
  }

  function Abs(x: int): nat {
    if x < 0 then -x else x
  }

  /** The expense recorded for a loss: the units lost valued at the product's base (cost) price. */
  function LossExpense(product: Product, reason: AdjustmentReason, quantityChanged: int, user: UserId, now: int): Expense {
    Expense("Stock loss for " + product.name + " due to: " + ReasonName(reason),
            Abs(quantityChanged) * product.basePrice, "Stock Loss", user, now)
  }

  /**
   * The handler on the database's value, in the order of its checks:
   * the product must exist, its new stock must not be negative, and the
   * adjustment document must validate (a known reason, a non-empty name).
   */
  function AdjustSpec(s: DbState, req: AdjustmentRequest, user: UserId, now: int): Result<DbState, AdjustmentError> {
    if req.productId !in s.products then Failure(ProductNotFound)
    else
      var product := s.products[req.productId];
      var stock := product.stock + req.quantityChanged;
      if stock < 0 then Failure(NegativeStock)
      else match ParseReason(req.reason)
        case None => Failure(AdjustmentInvalid)
        case Some(reason) =>
          if product.name == [] then Failure(AdjustmentInvalid)
          else
            var adjustment := Adjustment(req.productId, product.name, req.quantityChanged, reason, user, req.notes);
            Success(s.(
              products := s.products[req.productId := product.(stock := stock)],
              adjustments := s.adjustments + [adjustment],
              expenses := if IsLossReason(reason) && req.quantityChanged < 0
                          then s.expenses + [LossExpense(product, reason, req.quantityChanged, user, now)]
                          else s.expenses))
  }

  /**
   * createAdjustment: the product's stock is changed in place, then the
   * adjustment and (for a loss) the expense are appended; on a rejection
   * the transaction is aborted and nothing is written.
   */
  method CreateAdjustment(db: Database, req: AdjustmentRequest, user: UserId, now: int)
    returns (r: Result<Adjustment, AdjustmentError>)
    modifies db
    ensures r.Success? <==> AdjustSpec(old(db.State()), req, user, now).Success?
    ensures r.Failure? ==>
      AdjustSpec(old(db.State()), req, user, now) == Failure(r.error) && db.State() == old(db.State())
    ensures r.Success? ==>
      AdjustSpec(old(db.State()), req, user, now) == Success(db.State()) &&
      db.adjustments == old(db.adjustments) + [r.value]
  {
    if req.productId !in db.products {
      return Failure(ProductNotFound);
    }
    var product := db.products[req.productId];
    var before := product;
    product := product.(stock := product.stock + req.quantityChanged);
    if product.stock < 0 {
      return Failure(NegativeStock);
    }
    var reason := ParseReason(req.reason);
    if reason.None? || product.name == [] {
      return Failure(AdjustmentInvalid);
    }
    db.products := db.products[req.productId := product];
    var adjustment := Adjustment(req.productId, product.name, req.quantityChanged, reason.value, user, req.notes);
    db.adjustments := db.adjustments + [adjustment];
    if IsLossReason(reason.value) && req.quantityChanged < 0 {
      var expense := LossExpense(before, reason.value, req.quantityChanged, user, now);
      db.expenses := db.expenses + [expense];
    }
    return Success(adjustment);
  }

  // ---------------------------------------------------------------------------
  // Laws
  // ---------------------------------------------------------------------------

  /** The request succeeds exactly when every check passes, and each check decides its own error. */
  lemma AdjustOutcome(s: DbState, req: AdjustmentRequest, user: UserId, now: int)
    ensures AdjustSpec(s, req, user, now).Success? <==>
      req.productId in s.products &&
      s.products[req.productId].stock + req.quantityChanged >= 0 &&
      (exists r :: ReasonName(r) == req.reason) &&
      s.products[req.productId].name != []
    ensures req.productId !in s.products ==> AdjustSpec(s, req, user, now) == Failure(ProductNotFound)
    ensures req.productId in s.products && s.products[req.productId].stock + req.quantityChanged < 0 ==>
      AdjustSpec(s, req, user, now) == Failure(NegativeStock)
  {
    if req.productId in s.products && ParseReason(req.reason).Some? {
      assert ReasonName(ParseReason(req.reason).value) == req.reason;
    }
  }

  /**
   * A successful adjustment moves the named product's stock by exactly
   * `quantityChanged`, leaves every other product and every other field of
   * that product alone, and appends one adjustment naming the product.
   */
  lemma AdjustEffect(s: DbState, req: AdjustmentRequest, user: UserId, now: int)
    requires AdjustSpec(s, req, user, now).Success?
    ensures var t := AdjustSpec(s, req, user, now).value;
      var p := req.productId;
      t.products.Keys == s.products.Keys &&
      t.products[p] == s.products[p].(stock := s.products[p].stock + req.quantityChanged) &&
      t.products[p].stock >= 0 &&
      (forall q :: q in s.products && q != p ==> t.products[q] == s.products[q]) &&
      |t.adjustments| == |s.adjustments| + 1 &&
      t.adjustments[..|s.adjustments|] == s.adjustments &&
      t.adjustments[|s.adjustments|].productId == p &&
      t.adjustments[|s.adjustments|].productName == s.products[p].name &&
      t.adjustments[|s.adjustments|].quantityChanged == req.quantityChanged &&
      ReasonName(t.adjustments[|s.adjustments|].reason) == req.reason &&
      t.adjustments[|s.adjustments|].adjustedBy == user &&
      t.adjustments[|s.adjustments|].notes == req.notes &&
      t.sales == s.sales && t.customers == s.customers && t.nextSaleId == s.nextSaleId
  {
  }

  /**
   * An expense is written exactly when the reason is Damaged, Lost or
   * Expired and the stock went down; it carries the lost units valued at
   * base price under the "Stock Loss" category.
   */
  lemma LossExpenseWritten(s: DbState, req: AdjustmentRequest, user: UserId, now: int)
    requires AdjustSpec(s, req, user, now).Success?
    ensures var t := AdjustSpec(s, req, user, now).value;
      var product := s.products[req.productId];
      var loss := (req.reason == "Damaged" || req.reason == "Lost" || req.reason == "Expired") && req.quantityChanged < 0;
      (loss ==>
        |t.expenses| == |s.expenses| + 1 && t.expenses[..|s.expenses|] == s.expenses &&
        t.expenses[|s.expenses|].amount == -req.quantityChanged * product.basePrice &&
        t.expenses[|s.expenses|].category == "Stock Loss" &&
        t.expenses[|s.expenses|].description == "Stock loss for " + product.name + " due to: " + req.reason &&
        t.expenses[|s.expenses|].createdBy == user) &&
      (!loss ==> t.expenses == s.expenses)
  {
    var reason := ParseReason(req.reason).value;
    assert ReasonName(reason) == req.reason;
  }

  /** Restocking and stock-count corrections never create an expense. */
  lemma NoExpenseWithoutLoss(s: DbState, req: AdjustmentRequest, user: UserId, now: int)
    requires req.quantityChanged >= 0 || req.reason == "Stock Count Correction" || req.reason == "Initial Stock"
    ensures AdjustSpec(s, req, user, now).Success? ==> AdjustSpec(s, req, user, now).value.expenses == s.expenses
  {
    if AdjustSpec(s, req, user, now).Success? {
      LossExpenseWritten(s, req, user, now);
    }
  }

  /** Non-negative stock everywhere stays non-negative across any adjustment. */
  lemma AdjustKeepsStockNonNegative(s: DbState, req: AdjustmentRequest, user: UserId, now: int)
    requires forall p :: p in s.products ==> s.products[p].stock >= 0
    ensures AdjustSpec(s, req, user, now).Success? ==>
      forall p :: p in AdjustSpec(s, req, user, now).value.products ==> AdjustSpec(s, req, user, now).value.products[p].stock >= 0
  {
  }

  /** Σ quantityChanged over the adjustments recorded for product `p`. */
  function AdjustedQty(adjustments: seq<Adjustment>, p: ProductId): int {
    if adjustments == [] then 0
    else
      var last := adjustments[|adjustments| - 1];
      AdjustedQty(adjustments[..|adjustments| - 1], p) + (if last.productId == p then last.quantityChanged else 0)
  }

  /**
   * The adjustment history explains the stock: for every product, stock
   * minus the sum of its recorded adjustments is the same before and after
   * an adjustment.
   */
  lemma AdjustKeepsLedger(s: DbState, req: AdjustmentRequest, user: UserId, now: int, p: ProductId)
    requires p in s.products
    requires AdjustSpec(s, req, user, now).Success?
    ensures var t := AdjustSpec(s, req, user, now).value;
      t.products[p].stock - AdjustedQty(t.adjustments, p) == s.products[p].stock - AdjustedQty(s.adjustments, p)
  {
    var t := AdjustSpec(s, req, user, now).value;
    assert t.adjustments[..|t.adjustments| - 1] == s.adjustments;
  }

  /**
   * An adjustment followed by the opposite stock-count correction restores
   * every product, and the correction writes no expense.
   */
  lemma AdjustThenCorrect(s: DbState, req: AdjustmentRequest, user: UserId, now: int, notes: Option<string>)
    requires forall p :: p in s.products ==> s.products[p].stock >= 0
    requires AdjustSpec(s, req, user, now).Success?
    ensures var t := AdjustSpec(s, req, user, now).value;
      var undo := AdjustmentRequest(req.productId, -req.quantityChanged, "Stock Count Correction", notes);
      AdjustSpec(t, undo, user, now).Success? &&
      AdjustSpec(t, undo, user, now).value.products == s.products &&
      AdjustSpec(t, undo, user, now).value.expenses == t.expenses
  {
    var t := AdjustSpec(s, req, user, now).value;
    var p := req.productId;
    var undo := AdjustmentRequest(p, -req.quantityChanged, "Stock Count Correction", notes);
    assert ParseReason(undo.reason) == Some(StockCountCorrection);
    var u := AdjustSpec(t, undo, user, now).value;
    assert u.products[p] == s.products[p];
    assert u.products == s.products;
  }
}
