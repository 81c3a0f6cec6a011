/**
 * The persisted record shapes: a sale with its line items, a product and a
 * stock adjustment, with the enumerations, defaults, trimming and uniqueness
 * rules their schemas declare.
 */
module Records {
  import opened Wrappers

  // Document identities (database object ids) are modelled as naturals.
  type ProductId = nat
  type CustomerId = nat
  type SaleId = nat
  type UserId = nat
  type CategoryId = nat

  /** Timestamps are milliseconds; day `d` covers [d × MsPerDay, (d + 1) × MsPerDay). */
  const MsPerDay: int := 86400000

  // ---------------------------------------------------------------------------
  // String trimming (the `trim: true` schema option)
  // ---------------------------------------------------------------------------

  /** The characters that String.prototype.trim removes. */
  predicate IsSpace(c: char) {
    || c == ' ' || c == '\t' || c == '\n' || c == '\r'
    || c == '\U{000B}' || c == '\U{000C}' || c == '\U{00A0}' || c == '\U{1680}'
    || ('\U{2000}' <= c <= '\U{200A}')
    || c == '\U{2028}' || c == '\U{2029}' || c == '\U{202F}' || c == '\U{205F}'
    || c == '\U{3000}' || c == '\U{FEFF}'
  }

  /** Drops leading white space: the result is a suffix of `s`, everything dropped is white space. */
  function TrimStart(s: string): (r: string)
    ensures |r| <= |s| && r == s[|s| - |r|..]
    ensures forall k :: 0 <= k < |s| - |r| ==> IsSpace(s[k])
    ensures r != [] ==> !IsSpace(r[0])
  {
    if s != [] && IsSpace(s[0]) then TrimStart(s[1..]) else s
  }

  /** Drops trailing white space: the result is a prefix of `s`, everything dropped is white space. */
  function TrimEnd(s: string): (r: string)
    ensures |r| <= |s| && r == s[..|r|]
    ensures forall k :: |r| <= k < |s| ==> IsSpace(s[k])
    ensures r != [] ==> !IsSpace(r[|r| - 1])
  {
    if s != [] && IsSpace(s[|s| - 1]) then TrimEnd(s[..|s| - 1]) else s
  }

  predicate Trimmed(s: string) {
    s == [] || (!IsSpace(s[0]) && !IsSpace(s[|s| - 1]))
  }

  /** String.prototype.trim: drops the white space at both ends (TrimSlice, TrimUnique). */
  function Trim(s: string): (r: string)
    ensures Trimmed(r) && |r| <= |s|
  {
    var t := TrimStart(s);
    var r := TrimEnd(t);
    assert r != [] ==> r[0] == t[0];
    r
  }

  /**
   * What Trim keeps is a slice of `s` with only white space around it, and
   * it neither starts nor ends with white space.
   */
  lemma TrimSlice(s: string)
    ensures exists i, j :: 0 <= i <= j <= |s| && Trim(s) == s[i..j] && TrimmedAway(s, i, j)
  {
    var r, t := Trim(s), TrimStart(s);
    var i := |s| - |t|;
    var j := i + |r|;
    assert r == TrimEnd(t) && t == s[i..];
    assert r == t[..|r|];
    assert t[..|r|] == s[i..j];
    forall k | j <= k < |s| ensures IsSpace(s[k]) {
      assert s[k] == t[k - i];
    }
    assert TrimmedAway(s, i, j);
  }

  /** Everything of `s` outside `s[i..j]` is white space. */
  predicate TrimmedAway(s: string, i: nat, j: nat)
    requires i <= j <= |s|
  {
    (forall k :: 0 <= k < i ==> IsSpace(s[k])) && (forall k :: j <= k < |s| ==> IsSpace(s[k]))
  }

  /**
   * The slice that Trim keeps is the only one with white space all around
   * it that neither starts nor ends with white space.
   */
  lemma TrimUnique(s: string, i: nat, j: nat)
    requires i <= j <= |s| && TrimmedAway(s, i, j) && Trimmed(s[i..j])
    ensures Trim(s) == s[i..j]
  {
    var r, t := Trim(s), TrimStart(s);
    var i', j' := |s| - |t|, |s| - |t| + |r|;
    assert r == TrimEnd(t) && t == s[i'..];
    assert r == s[i'..j'];
    var a := s[i..j];
    if a != [] && r != [] {
      assert !IsSpace(s[i]) && !IsSpace(s[j - 1]) by { assert a[0] == s[i] && a[|a| - 1] == s[j - 1]; }
      assert !IsSpace(s[i']) && !IsSpace(s[j' - 1]) by { assert r[0] == s[i'] && r[|r| - 1] == s[j' - 1]; }
      assert i == i' && j == j';
    } else if a != [] {
      assert false;
    } else if r != [] {
      assert false;
    }
  }

  /** Trimming is idempotent: a value read back and saved again is unchanged. */
  lemma {:induction false} TrimIdempotent(s: string)
    ensures Trim(Trim(s)) == Trim(s)
  {
    var r := Trim(s);
    assert TrimStart(r) == r;
    assert TrimEnd(r) == r;
  }

  // ---------------------------------------------------------------------------
  // Sale (Sale.js)
  // ---------------------------------------------------------------------------

  datatype PaymentMethod = Cash | Card | Digital | Pending
  datatype PaymentStatus = Paid | Unpaid
  datatype OrderStatus = OrderPending | OrderCompleted | Served
  datatype SaleStatus = Completed | Retracted

  function PaymentMethodName(m: PaymentMethod): string {
    match m
    case Cash => "Cash"
    case Card => "Card"
    case Digital => "Digital"
    case Pending => "Pending"
  }

  /** The schema's enum validator for `paymentMethod`. */
  function ParsePaymentMethod(s: string): (r: Option<PaymentMethod>)
    ensures r.Some? ==> PaymentMethodName(r.value) == s
    ensures r.None? ==> forall m :: PaymentMethodName(m) != s
  {
    if s == "Cash" then Some(Cash)
    else if s == "Card" then Some(Card)
    else if s == "Digital" then Some(Digital)
    else if s == "Pending" then Some(Pending)
    else None
  }

  function PaymentStatusName(p: PaymentStatus): string {
    match p
    case Paid => "Paid"
    case Unpaid => "Unpaid"
  }

  /** The schema's enum validator for `paymentStatus`. */
  function ParsePaymentStatus(s: string): (r: Option<PaymentStatus>)
    ensures r.Some? ==> PaymentStatusName(r.value) == s
    ensures r.None? ==> forall p :: PaymentStatusName(p) != s
  {
    if s == "Paid" then Some(Paid)
    else if s == "Unpaid" then Some(Unpaid)
    else None
  }

  function OrderStatusName(o: OrderStatus): string {
    match o
    case OrderPending => "Pending"
    case OrderCompleted => "Completed"
    case Served => "Served"
  }

  /** The schema's enum validator for `orderStatus`. */
  function ParseOrderStatus(s: string): (r: Option<OrderStatus>)
    ensures r.Some? ==> OrderStatusName(r.value) == s
    ensures r.None? ==> forall o :: OrderStatusName(o) != s
  {
    if s == "Pending" then Some(OrderPending)
    else if s == "Completed" then Some(OrderCompleted)
    else if s == "Served" then Some(Served)
    else None
  }

  function SaleStatusName(st: SaleStatus): string {
    match st
    case Completed => "Completed"
    case Retracted => "Retracted"
  }

  /** The schema's enum validator for `status`. */
  function ParseSaleStatus(s: string): (r: Option<SaleStatus>)
    ensures r.Some? ==> SaleStatusName(r.value) == s
    ensures r.None? ==> forall st :: SaleStatusName(st) != s
  {
    if s == "Completed" then Some(Completed)
    else if s == "Retracted" then Some(Retracted)
    else None
  }

  /** One line of a sale; name, price and basePrice are snapshots taken when the line was written. */
  datatype LineItem = LineItem(
    productId: ProductId,
    name: string,
    basePrice: int,
    price: int,
    quantity: int,
    note: Option<string>)

  datatype Sale = Sale(
    cashierId: UserId,
    customerId: Option<CustomerId>,
    items: seq<LineItem>,
    totalAmount: int,
    paymentMethod: PaymentMethod,
    paymentStatus: PaymentStatus,
    orderStatus: OrderStatus,
    status: SaleStatus,
    createdAt: int)

  /** What saving does to a line item: the optional note is trimmed, nothing else changes. */
  function StoredItem(item: LineItem): (r: LineItem)
    ensures r == item.(note := r.note)
    ensures r.note.None? <==> item.note.None?
    ensures r.note.Some? ==> Trimmed(r.note.value) && r.note.value == Trim(item.note.value)
  {
    match item.note
    case None => item
    case Some(n) => item.(note := Some(Trim(n)))
  }

  function StoredItems(items: seq<LineItem>): (r: seq<LineItem>)
    ensures |r| == |items|
    ensures forall i :: 0 <= i < |items| ==> r[i] == StoredItem(items[i])
  {
    seq(|items|, i requires 0 <= i < |items| => StoredItem(items[i]))
  }

  /**
   * Saving a sale's lines again changes nothing: the notes are already
   * trimmed, and every other field of every line is exactly what was sent.
   */
  lemma StoredItemsIdempotent(items: seq<LineItem>)
    ensures StoredItems(StoredItems(items)) == StoredItems(items)
    ensures forall i :: 0 <= i < |items| ==> StoredItems(items)[i].(note := items[i].note) == items[i]
  {
    var r := StoredItems(items);
    forall i | 0 <= i < |items| ensures StoredItem(r[i]) == r[i] {
      if items[i].note.Some? {
        TrimIdempotent(items[i].note.value);
      }
    }
  }

  /**
   * A new sale document: every enumerated field that is not supplied takes
   * its schema default, and the line items are stored with trimmed notes.
   */
  function NewSale(
    cashierId: UserId, customerId: Option<CustomerId>, items: seq<LineItem>, totalAmount: int,
    paymentMethod: Option<PaymentMethod>, paymentStatus: Option<PaymentStatus>,
    orderStatus: Option<OrderStatus>, status: Option<SaleStatus>, createdAt: int): (s: Sale)
    ensures paymentMethod.None? ==> s.paymentMethod == Pending
    ensures paymentStatus.None? ==> s.paymentStatus == Unpaid
    ensures orderStatus.None? ==> s.orderStatus == OrderPending
    ensures status.None? ==> s.status == Completed
    ensures forall v :: paymentMethod == Some(v) ==> s.paymentMethod == v
    ensures forall v :: paymentStatus == Some(v) ==> s.paymentStatus == v
    ensures forall v :: orderStatus == Some(v) ==> s.orderStatus == v
    ensures forall v :: status == Some(v) ==> s.status == v
    ensures s.cashierId == cashierId && s.customerId == customerId
    ensures s.totalAmount == totalAmount && s.createdAt == createdAt
    ensures |s.items| == |items|
    ensures forall i :: 0 <= i < |items| ==> s.items[i] == StoredItem(items[i])
  {
    Sale(cashierId, customerId, StoredItems(items), totalAmount,
         paymentMethod.GetOr(Pending), paymentStatus.GetOr(Unpaid),
         orderStatus.GetOr(OrderPending), status.GetOr(Completed), createdAt)
  }

  // ---------------------------------------------------------------------------
  // Product (Product.js)
  // ---------------------------------------------------------------------------

  datatype Product = Product(
    name: string,
    sku: string,
    category: CategoryId,
    basePrice: int,
    price: int,
    stock: int,
    expiryDate: Option<int>,
    supplier: Option<string>)

  /** A new product document: name trimmed, stock and basePrice default to 0. */
  function NewProduct(
    name: string, sku: string, category: CategoryId, basePrice: Option<int>, price: int,
    stock: Option<int>, expiryDate: Option<int>, supplier: Option<string>): (p: Product)
    ensures Trimmed(p.name) && p.name == Trim(name)
    ensures p.sku == sku && p.category == category && p.price == price
    ensures p.expiryDate == expiryDate && p.supplier == supplier
    ensures stock.None? ==> p.stock == 0
    ensures basePrice.None? ==> p.basePrice == 0
    ensures forall v :: stock == Some(v) ==> p.stock == v
    ensures forall v :: basePrice == Some(v) ==> p.basePrice == v
  {
    Product(Trim(name), sku, category, basePrice.GetOr(0), price, stock.GetOr(0), expiryDate, supplier)
  }

  /** The unique index on `sku`. */
  ghost predicate SkusUnique(products: map<ProductId, Product>) {
    forall a, b :: a in products && b in products && a != b ==> products[a].sku != products[b].sku
  }

  datatype ProductError = DuplicateId | DuplicateSku | NameRequired | SkuRequired

  /**
   * Inserting a product document: required strings must be non-empty and
   * the SKU must not be in use by another product.
   */
  function InsertProduct(products: map<ProductId, Product>, id: ProductId, p: Product)
    : (r: Result<map<ProductId, Product>, ProductError>)
    ensures r.Success? <==>
      id !in products && p.name != [] && p.sku != [] &&
      forall q :: q in products ==> products[q].sku != p.sku
    ensures r.Success? ==> r.value == products[id := p]
  {
    if id in products then Failure(DuplicateId)
    else if p.name == [] then Failure(NameRequired)
    else if p.sku == [] then Failure(SkuRequired)
    else if exists q :: q in products && products[q].sku == p.sku then Failure(DuplicateSku)
    else Success(products[id := p])
  }

  /** The unique index holds after every successful insert. */
  lemma {:induction false} InsertKeepsSkusUnique(products: map<ProductId, Product>, id: ProductId, p: Product)
    requires SkusUnique(products)
    requires InsertProduct(products, id, p).Success?
    ensures SkusUnique(InsertProduct(products, id, p).value)
  {
    var r := InsertProduct(products, id, p).value;
    forall a, b | a in r && b in r && a != b
      ensures r[a].sku != r[b].sku
    {
      if a == id {
        assert r[b] == products[b];
      } else if b == id {
        assert r[a] == products[a];
      }
    }
  }

  // ---------------------------------------------------------------------------
  // Adjustment (Adjustment.js) and the expense record it may write
  // ---------------------------------------------------------------------------

  datatype AdjustmentReason = Damaged | Lost | Expired | StockCountCorrection | InitialStock

  function ReasonName(r: AdjustmentReason): string {
    match r
    case Damaged => "Damaged"
    case Lost => "Lost"
    case Expired => "Expired"
    case StockCountCorrection => "Stock Count Correction"
    case InitialStock => "Initial Stock"
  }

  /** The schema's enum validator for `reason`. */
  function ParseReason(s: string): (r: Option<AdjustmentReason>)
    ensures r.Some? ==> ReasonName(r.value) == s
    ensures r.None? ==> forall x :: ReasonName(x) != s
  {
    if s == "Damaged" then Some(Damaged)
    else if s == "Lost" then Some(Lost)
    else if s == "Expired" then Some(Expired)
    else if s == "Stock Count Correction" then Some(StockCountCorrection)
    else if s == "Initial Stock" then Some(InitialStock)
    else None
  }

  /** quantityChanged is signed; productName is a snapshot of the product's name. */
  datatype Adjustment = Adjustment(
    productId: ProductId,
    productName: string,
    quantityChanged: int,
    reason: AdjustmentReason,
    adjustedBy: UserId,
    notes: Option<string>)

  datatype Expense = Expense(
    description: string,
    amount: int,
    category: string,
    createdBy: UserId,
    date: int)
}
