/**
 * The edit form for an unpaid order (EditSaleModal.jsx). Its lines start as
 * a copy of the sale's lines. Stock for this order was already taken when it
 * was placed, so the quantity the form allows for a product is the listed
 * stock plus what the original sale holds of it; a request for more is
 * rejected (not clamped). The form sends the lines and their total to
 * updateSale, which does no stock check of its own.
 */
module EditSaleCart {
  import opened Wrappers
  import opened Records
  import opened Aggregate
  import opened StockLedger
  import opened Store
  import opened SaleController
  import opened PosCart
  import SaleLaws

  /** `items.find(item => item.productId === id)`: the first line for `id`. */
  function FindLine(items: seq<LineItem>, id: ProductId): (r: Option<LineItem>)
    ensures r.None? <==> id !in ProductIds(items)
    ensures r.Some? ==> r.value in items && r.value.productId == id
  {
    if items == [] then None
    else if items[0].productId == id then Some(items[0])
    else
      assert ProductIds(items) == [items[0].productId] + ProductIds(items[1..]);
      FindLine(items[1..], id)
  }

  /** The quantity of `id` on the first line for it, or 0. */
  function QtyInLines(items: seq<LineItem>, id: ProductId): int {
    match FindLine(items, id)
    case Some(line) => line.quantity
    case None => 0
  }

  /** availableStock: the listed stock plus the quantity the original sale holds. */
  function Available(product: CatalogProduct, original: seq<LineItem>): int {
    product.stock + QtyInLines(original, product.id)
  }

  function SetLineQuantity(items: seq<LineItem>, id: ProductId, quantity: int): seq<LineItem> {
    seq(|items|, i requires 0 <= i < |items| =>
      if items[i].productId == id then items[i].(quantity := quantity) else items[i])
  }

  function BumpLine(items: seq<LineItem>, id: ProductId): seq<LineItem> {
    seq(|items|, i requires 0 <= i < |items| =>
      if items[i].productId == id then items[i].(quantity := items[i].quantity + 1) else items[i])
  }

  /** `items.filter(item => item.productId !== id)`. */
  function WithoutLine(items: seq<LineItem>, id: ProductId): seq<LineItem> {
    if items == [] then []
    else (if items[0].productId == id then [] else [items[0]]) + WithoutLine(items[1..], id)
  }

  /**
   * handleQuantityChange: 0 or less removes the line; more than the
   * available quantity is rejected and the lines stay as they are; anything
   * else becomes the line's quantity. `None` is the case where the product is
   * no longer in the list and reading its stock throws.
   */
  function QuantityChange(
    catalog: seq<CatalogProduct>, original: seq<LineItem>, items: seq<LineItem>, id: ProductId, newQuantity: int)
    : Option<seq<LineItem>>
  {
    if newQuantity <= 0 then Some(WithoutLine(items, id))
    else match FindProduct(catalog, id)
      case None => None
      case Some(info) =>
        if newQuantity > Available(info, original) then Some(items)
        else Some(SetLineQuantity(items, id, newQuantity))
  }

  /**
   * handleAddToCart: refused once the form holds the available quantity;
   * otherwise one more unit of an existing line, or a new line of one unit
   * with the product's name, price and basePrice.
   */
  function AddLine(original: seq<LineItem>, items: seq<LineItem>, product: CatalogProduct): seq<LineItem> {
    if QtyInLines(items, product.id) >= Available(product, original) then items
    else if FindLine(items, product.id).Some? then BumpLine(items, product.id)
    else items + [LineItem(product.id, product.name, product.basePrice, product.price, 1, None)]
  }

  /** handleUpdate: the lines and totalAmount = Σ price × quantity, as updateSale receives them. */
  datatype UpdateRequest = UpdateRequest(items: seq<LineItem>, totalAmount: int)

  function UpdatePayload(items: seq<LineItem>): UpdateRequest {
    UpdateRequest(items, ItemsTotal(items))
  }

  // ---------------------------------------------------------------------------
  // The form's invariant
  // ---------------------------------------------------------------------------

  /**
   * What the form keeps: one line per product, each line's product in the
   * list, and no quantity above the available quantity.
   */
  ghost predicate WithinAvailability(catalog: seq<CatalogProduct>, original: seq<LineItem>, items: seq<LineItem>) {
    Distinct(ProductIds(items)) &&
    forall i :: 0 <= i < |items| ==>
      FindProduct(catalog, items[i].productId).Some? &&
      items[i].quantity <= Available(FindProduct(catalog, items[i].productId).value, original)
  }

  lemma {:induction false} FindLineFirst(items: seq<LineItem>, k: nat)
    requires k < |items|
    requires forall i :: 0 <= i < k ==> items[i].productId != items[k].productId
    ensures FindLine(items, items[k].productId) == Some(items[k])
  {
    if k > 0 {
      FindLineFirst(items[1..], k - 1);
    }
  }

  lemma LineIdsDiffer(items: seq<LineItem>, i: nat, k: nat)
    requires Distinct(ProductIds(items)) && i < |items| && k < |items| && i != k
    ensures items[i].productId != items[k].productId
  {
    assert ProductIds(items)[i] != ProductIds(items)[k];
  }

  /** With one line per product, `find` returns the line at its position. */
  lemma {:induction false} FindLineAt(items: seq<LineItem>, k: nat)
    requires Distinct(ProductIds(items)) && k < |items|
    ensures FindLine(items, items[k].productId) == Some(items[k])
  {
    forall i | 0 <= i < k ensures items[i].productId != items[k].productId {
      LineIdsDiffer(items, i, k);
    }
    FindLineFirst(items, k);
  }

  /** With one line per product, the first line's quantity is the product's total quantity. */
  lemma QtyInLinesIsQtyOf(items: seq<LineItem>, p: ProductId)
    requires Distinct(ProductIds(items))
    ensures QtyInLines(items, p) == QtyOf(items, p)
  {
    if p in ProductIds(items) {
      var k :| 0 <= k < |items| && ProductIds(items)[k] == p;
      FindLineAt(items, k);
      SaleLaws.QtyOfDistinct(items, k);
    } else {
      SaleLaws.QtyOfAbsent(items, p);
    }
  }

  /**
   * The form opens valid: a sale with one line per product, each product
   * listed with non-negative stock, is within availability of itself.
   */
  lemma OpeningFormIsWithin(catalog: seq<CatalogProduct>, original: seq<LineItem>)
    requires Distinct(ProductIds(original))
    requires forall i :: 0 <= i < |original| ==>
      FindProduct(catalog, original[i].productId).Some? && FindProduct(catalog, original[i].productId).value.stock >= 0
    ensures WithinAvailability(catalog, original, original)
  {
    forall i | 0 <= i < |original|
      ensures original[i].quantity <= Available(FindProduct(catalog, original[i].productId).value, original)
    {
      FindLineAt(original, i);
    }
  }

  // ---------------------------------------------------------------------------
  // handleQuantityChange
  // ---------------------------------------------------------------------------

  lemma {:induction false} WithoutLineAt(items: seq<LineItem>, k: nat)
    requires k < |items|
    requires forall i :: 0 <= i < |items| && i != k ==> items[i].productId != items[k].productId
    ensures WithoutLine(items, items[k].productId) == items[..k] + items[k + 1..]
  {
    var id := items[k].productId;
    if k == 0 {
      WithoutLineAbsent(items[1..], id);
      assert items[..0] + items[1..] == items[1..];
    } else {
      var tail := items[1..];
      forall i | 0 <= i < |tail| && i != k - 1 ensures tail[i].productId != tail[k - 1].productId {
        assert tail[i] == items[i + 1];
      }
      WithoutLineAt(tail, k - 1);
      assert WithoutLine(items, id) == [items[0]] + WithoutLine(tail, id);
      ConsRemove(items, k);
    }
  }

  lemma {:induction false} WithoutLineAbsent(items: seq<LineItem>, id: ProductId)
    requires forall i :: 0 <= i < |items| ==> items[i].productId != id
    ensures WithoutLine(items, id) == items
  {
    if items != [] {
      WithoutLineAbsent(items[1..], id);
      assert [items[0]] + items[1..] == items;
    }
  }

  /**
   * For the line at position `k`: a quantity of 0 or less removes it, one
   * above the available quantity leaves the lines unchanged, and any other
   * quantity replaces that line's quantity and nothing else.
   */
  lemma QuantityChangeCases(
    catalog: seq<CatalogProduct>, original: seq<LineItem>, items: seq<LineItem>, k: nat, newQuantity: int)
    requires Distinct(ProductIds(items)) && k < |items|
    requires FindProduct(catalog, items[k].productId).Some?
    ensures var id := items[k].productId;
      var available := Available(FindProduct(catalog, id).value, original);
      var r := QuantityChange(catalog, original, items, id, newQuantity);
      r.Some? &&
      (newQuantity <= 0 ==> r.value == items[..k] + items[k + 1..]) &&
      (0 < newQuantity && newQuantity > available ==> r.value == items) &&
      (0 < newQuantity <= available ==> r.value == items[k := items[k].(quantity := newQuantity)])
  {
    var id := items[k].productId;
    forall i | 0 <= i < |items| && i != k ensures items[i].productId != id {
      LineIdsDiffer(items, i, k);
    }
    if newQuantity <= 0 {
      WithoutLineAt(items, k);
    }
  }

  lemma RemoveLineKeepsWithin(catalog: seq<CatalogProduct>, original: seq<LineItem>, items: seq<LineItem>, k: nat)
    requires WithinAvailability(catalog, original, items) && k < |items|
    ensures WithinAvailability(catalog, original, items[..k] + items[k + 1..])
  {
    var r := items[..k] + items[k + 1..];
    forall i | 0 <= i < |r| ensures r[i] == items[if i < k then i else i + 1] { }
    forall i, j | 0 <= i < j < |r| ensures ProductIds(r)[i] != ProductIds(r)[j] {
      var i' := if i < k then i else i + 1;
      var j' := if j < k then j else j + 1;
      assert ProductIds(r)[i] == ProductIds(items)[i'] && ProductIds(r)[j] == ProductIds(items)[j'];
    }
  }

  lemma SetLineKeepsWithin(catalog: seq<CatalogProduct>, original: seq<LineItem>, items: seq<LineItem>, k: nat, q: int)
    requires WithinAvailability(catalog, original, items) && k < |items|
    requires q <= Available(FindProduct(catalog, items[k].productId).value, original)
    ensures WithinAvailability(catalog, original, items[k := items[k].(quantity := q)])
  {
    var r := items[k := items[k].(quantity := q)];
    assert ProductIds(r) == ProductIds(items);
  }

  /** Quantity changes keep the form within availability; they only fail for a product gone from the list. */
  lemma QuantityChangeKeepsWithin(
    catalog: seq<CatalogProduct>, original: seq<LineItem>, items: seq<LineItem>, id: ProductId, newQuantity: int)
    requires WithinAvailability(catalog, original, items)
    ensures QuantityChange(catalog, original, items, id, newQuantity).None? ==>
      newQuantity > 0 && FindProduct(catalog, id).None? && id !in ProductIds(items)
    ensures QuantityChange(catalog, original, items, id, newQuantity).Some? ==>
      WithinAvailability(catalog, original, QuantityChange(catalog, original, items, id, newQuantity).value)
  {
    if k :| 0 <= k < |items| && items[k].productId == id {
      QuantityChangeCases(catalog, original, items, k, newQuantity);
      if newQuantity <= 0 {
        RemoveLineKeepsWithin(catalog, original, items, k);
      } else if newQuantity <= Available(FindProduct(catalog, id).value, original) {
        SetLineKeepsWithin(catalog, original, items, k, newQuantity);
      }
    } else {
      assert forall i :: 0 <= i < |items| ==> ProductIds(items)[i] != id;
      if newQuantity <= 0 {
        WithoutLineAbsent(items, id);
      } else if FindProduct(catalog, id).Some? {
        assert SetLineQuantity(items, id, newQuantity) == items;
      }
    }
  }

  // ---------------------------------------------------------------------------
  // handleAddToCart
  // ---------------------------------------------------------------------------

  /**
   * Adding a product raises its line by one unit, or appends a one-unit line
   * copied from the product, exactly while the form holds less than the
   * available quantity; otherwise the lines are unchanged.
   */
  lemma AddLineCases(original: seq<LineItem>, items: seq<LineItem>, product: CatalogProduct)
    requires Distinct(ProductIds(items))
    ensures QtyInLines(items, product.id) >= Available(product, original) ==> AddLine(original, items, product) == items
    ensures QtyInLines(items, product.id) < Available(product, original) && product.id !in ProductIds(items) ==>
      AddLine(original, items, product) ==
        items + [LineItem(product.id, product.name, product.basePrice, product.price, 1, None)]
    ensures forall k :: 0 <= k < |items| && items[k].productId == product.id && items[k].quantity < Available(product, original) ==>
      AddLine(original, items, product) == items[k := items[k].(quantity := items[k].quantity + 1)]
  {
    forall k | 0 <= k < |items| && items[k].productId == product.id && items[k].quantity < Available(product, original)
      ensures AddLine(original, items, product) == items[k := items[k].(quantity := items[k].quantity + 1)]
    {
      AddLineExisting(original, items, product, k);
    }
  }

  lemma AddLineExisting(original: seq<LineItem>, items: seq<LineItem>, product: CatalogProduct, k: nat)
    requires Distinct(ProductIds(items)) && k < |items| && items[k].productId == product.id
    requires items[k].quantity < Available(product, original)
    ensures AddLine(original, items, product) == items[k := items[k].(quantity := items[k].quantity + 1)]
  {
    FindLineAt(items, k);
    BumpLineAt(items, k);
  }

  /** With one line per product, bumping a product's line changes that line alone. */
  lemma BumpLineAt(items: seq<LineItem>, k: nat)
    requires Distinct(ProductIds(items)) && k < |items|
    ensures BumpLine(items, items[k].productId) == items[k := items[k].(quantity := items[k].quantity + 1)]
  {
    forall i | 0 <= i < |items| && i != k ensures items[i].productId != items[k].productId {
      LineIdsDiffer(items, i, k);
    }
  }

  /** Adding keeps the form within availability of the product it was clicked from. */
  lemma AddLineKeepsWithin(catalog: seq<CatalogProduct>, original: seq<LineItem>, items: seq<LineItem>, product: CatalogProduct)
    requires WithinAvailability(catalog, original, items)
    requires FindProduct(catalog, product.id) == Some(product)
    ensures WithinAvailability(catalog, original, AddLine(original, items, product))
  {
    var r := AddLine(original, items, product);
    if QtyInLines(items, product.id) < Available(product, original) {
      if product.id !in ProductIds(items) {
        var line := LineItem(product.id, product.name, product.basePrice, product.price, 1, None);
        assert r == items + [line];
        AppendLineKeepsWithin(catalog, original, items, product);
      } else {
        var k :| 0 <= k < |items| && ProductIds(items)[k] == product.id;
        BumpLineKeepsWithin(catalog, original, items, product, k);
      }
    } else {
      assert r == items;
    }
  }

  lemma BumpLineKeepsWithin(
    catalog: seq<CatalogProduct>, original: seq<LineItem>, items: seq<LineItem>, product: CatalogProduct, k: nat)
    requires WithinAvailability(catalog, original, items)
    requires FindProduct(catalog, product.id) == Some(product)
    requires k < |items| && items[k].productId == product.id
    requires QtyInLines(items, product.id) < Available(product, original)
    ensures WithinAvailability(catalog, original, AddLine(original, items, product))
  {
    FindLineAt(items, k);
    AddLineExisting(original, items, product, k);
    SetLineKeepsWithin(catalog, original, items, k, items[k].quantity + 1);
  }

  /** A new one-unit line for a listed product not yet in the form, with room for one unit, keeps the form within availability. */
  lemma AppendLineKeepsWithin(
    catalog: seq<CatalogProduct>, original: seq<LineItem>, items: seq<LineItem>, product: CatalogProduct)
    requires WithinAvailability(catalog, original, items) && product.id !in ProductIds(items)
    requires FindProduct(catalog, product.id) == Some(product)
    requires 1 <= Available(product, original)
    ensures WithinAvailability(catalog, original, items + [LineItem(product.id, product.name, product.basePrice, product.price, 1, None)])
  {
    var r := items + [LineItem(product.id, product.name, product.basePrice, product.price, 1, None)];
    assert ProductIds(r) == ProductIds(items) + [product.id];
    forall i | 0 <= i < |r|
      ensures FindProduct(catalog, r[i].productId).Some? &&
        r[i].quantity <= Available(FindProduct(catalog, r[i].productId).value, original)
    {
      if i < |items| { assert r[i] == items[i]; }
    }
  }

  // ---------------------------------------------------------------------------
  // handleUpdate against updateSale
  // ---------------------------------------------------------------------------

  /** The total sent with the lines is their own total. */
  lemma UpdatePayloadTotal(items: seq<LineItem>)
    ensures UpdatePayload(items).items == items
    ensures UpdatePayload(items).totalAmount == ItemsTotal(items)
  {
  }

  /**
   * The form's cap is what keeps stock from going negative: an edit sent
   * from a form within availability, for a sale with one line per product
   * and no negative quantities, against a fresh product list, leaves every
   * stock non-negative — although updateSale itself checks nothing.
   */
  lemma EditWithinAvailabilityKeepsStock(
    s: DbState, id: SaleId, catalog: seq<CatalogProduct>, items: seq<LineItem>)
    requires id in s.sales
    requires UpdateSaleSpec(s, id, UpdatePayload(items).items, UpdatePayload(items).totalAmount).Success?
    requires Distinct(ProductIds(s.sales[id].items))
    requires forall i :: 0 <= i < |s.sales[id].items| ==> s.sales[id].items[i].quantity >= 0
    requires WithinAvailability(catalog, s.sales[id].items, items)
    requires Fresh(catalog, s.products)
    requires forall p :: p in s.products ==> s.products[p].stock >= 0
    ensures var t := UpdateSaleSpec(s, id, items, ItemsTotal(items)).value;
      forall p :: p in t.products ==> t.products[p].stock >= 0
  {
    var original := s.sales[id].items;
    var t := UpdateSaleSpec(s, id, items, ItemsTotal(items)).value;
    forall p | p in t.products ensures t.products[p].stock >= 0 {
      SaleLaws.UpdateSaleEffect(s, id, items, ItemsTotal(items));
      SaleLaws.UpdateStockAt(s, id, items, ItemsTotal(items), p);
      QtyInLinesIsQtyOf(original, p);
      if p in ProductIds(items) {
        var k :| 0 <= k < |items| && ProductIds(items)[k] == p;
        SaleLaws.QtyOfDistinct(items, k);
        var info := FindProduct(catalog, p).value;
        assert info in catalog;
        assert info.stock == s.products[p].stock;
      } else {
        SaleLaws.QtyOfAbsent(items, p);
        if p in ProductIds(original) {
          var k :| 0 <= k < |original| && ProductIds(original)[k] == p;
          SaleLaws.QtyOfDistinct(original, k);
        } else {
          SaleLaws.QtyOfAbsent(original, p);
        }
      }
    }
  }

  /** An order saved from the form stores a total equal to Σ price × quantity over its stored lines. */
  lemma EditedSaleTotalMatchesLines(s: DbState, id: SaleId, items: seq<LineItem>)
    requires UpdateSaleSpec(s, id, UpdatePayload(items).items, UpdatePayload(items).totalAmount).Success?
    ensures var sale := UpdateSaleSpec(s, id, items, ItemsTotal(items)).value.sales[id];
      sale.totalAmount == ItemsTotal(sale.items)
  {
    SaleLaws.UpdateSaleEffect(s, id, items, ItemsTotal(items));
    ItemsTotalPointwise(StoredItems(items), items);
  }
}
