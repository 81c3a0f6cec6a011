/**
 * The point-of-sale cart (POSPage.jsx): the cashier clicks products into a
 * cart, edits quantities and notes, and places the order either unpaid
 * ("pay later") or paid with a chosen method. Each cart operation returns a
 * new cart; the page keeps quantities within the stock shown in the product
 * list by refusing or clamping.
 */
module PosCart {
  import opened Wrappers
  import opened Records
  import opened Aggregate
  import opened StockLedger
  import opened Store
  import opened SaleController
  import SaleLaws

  /** A product as the page loaded it from the product list. */
  datatype CatalogProduct = CatalogProduct(id: ProductId, name: string, basePrice: int, price: int, stock: int)

  /** `{ ...product, quantity, note }`: the clicked product, copied, with a quantity and a note. */
  datatype CartItem = CartItem(product: CatalogProduct, quantity: int, note: string)

  function Ids(cart: seq<CartItem>): (r: seq<ProductId>)
    ensures |r| == |cart|
    ensures forall i :: 0 <= i < |cart| ==> r[i] == cart[i].product.id
  {
    seq(|cart|, i requires 0 <= i < |cart| => cart[i].product.id)
  }

  /** `cart.find(item => item._id === id)`: the first item for `id`. */
  function FindItem(cart: seq<CartItem>, id: ProductId): (r: Option<CartItem>)
    ensures r.None? <==> id !in Ids(cart)
    ensures r.Some? ==> r.value in cart && r.value.product.id == id
  {
    if cart == [] then None
    else if cart[0].product.id == id then Some(cart[0])
    else FindItem(cart[1..], id)
  }

  /** `products.find(p => p._id === id)`: the first catalog entry for `id`. */
  function FindProduct(catalog: seq<CatalogProduct>, id: ProductId): (r: Option<CatalogProduct>)
    ensures r.None? <==> forall i :: 0 <= i < |catalog| ==> catalog[i].id != id
    ensures r.Some? ==> r.value in catalog && r.value.id == id
  {
    if catalog == [] then None
    else if catalog[0].id == id then Some(catalog[0])
    else FindProduct(catalog[1..], id)
  }

  /** `cart.map(item => item._id === id ? f(item) : item)` for the three updates the page makes. */
  function Bump(cart: seq<CartItem>, id: ProductId): (r: seq<CartItem>) {
    seq(|cart|, i requires 0 <= i < |cart| =>
      if cart[i].product.id == id then cart[i].(quantity := cart[i].quantity + 1) else cart[i])
  }

  function SetQuantity(cart: seq<CartItem>, id: ProductId, quantity: int): (r: seq<CartItem>) {
    seq(|cart|, i requires 0 <= i < |cart| =>
      if cart[i].product.id == id then cart[i].(quantity := quantity) else cart[i])
  }

  function SetNote(cart: seq<CartItem>, id: ProductId, note: string): (r: seq<CartItem>) {
    seq(|cart|, i requires 0 <= i < |cart| =>
      if cart[i].product.id == id then cart[i].(note := note) else cart[i])
  }

  /** `cart.filter(item => item._id !== id)`: the other items, in order, each as often as it occurs. */
  function Without(cart: seq<CartItem>, id: ProductId): (r: seq<CartItem>)
    ensures id !in Ids(r)
    ensures forall x :: x in r <==> x in cart && x.product.id != id
    ensures forall x :: multiset(r)[x] == if x.product.id != id then multiset(cart)[x] else 0
  {
    if cart == [] then []
    else
      assert cart == [cart[0]] + cart[1..];
      (if cart[0].product.id == id then [] else [cart[0]]) + Without(cart[1..], id)
  }

  /** Removing distributes over concatenation, so the kept items stay in their order. */
  lemma {:induction false} WithoutAppend(a: seq<CartItem>, b: seq<CartItem>, id: ProductId)
    ensures Without(a + b, id) == Without(a, id) + Without(b, id)
  {
    if a == [] {
      assert a + b == b;
    } else {
      assert (a + b)[1..] == a[1..] + b;
      WithoutAppend(a[1..], b, id);
    }
  }

  /** addToCart: refused when out of stock or when the item already holds all the stock. */
  function AddToCart(cart: seq<CartItem>, product: CatalogProduct): seq<CartItem> {
    if product.stock <= 0 then cart
    else match FindItem(cart, product.id)
      case Some(existing) =>
        if existing.quantity < product.stock then Bump(cart, product.id) else cart
      case None => cart + [CartItem(product, 1, "")]
  }

  /**
   * updateQuantity: a quantity of 0 or less removes the item; otherwise the
   * quantity is clamped to the product's current stock. `None` is the case
   * where the product is no longer in the list and reading its stock throws.
   */
  function UpdateQuantity(catalog: seq<CatalogProduct>, cart: seq<CartItem>, id: ProductId, newQuantity: int)
    : Option<seq<CartItem>>
  {
    if newQuantity <= 0 then Some(Without(cart, id))
    else match FindProduct(catalog, id)
      case None => None
      case Some(info) =>
        if newQuantity > info.stock then Some(SetQuantity(cart, id, info.stock))
        else Some(SetQuantity(cart, id, newQuantity))
  }

  function NoteChange(cart: seq<CartItem>, id: ProductId, note: string): seq<CartItem> {
    SetNote(cart, id, note)
  }

  function Amount(item: CartItem): int {
    item.product.price * item.quantity
  }

  /** totalAmount: Σ price × quantity. */
  function CartTotal(cart: seq<CartItem>): int {
    if cart == [] then 0 else CartTotal(cart[..|cart| - 1]) + Amount(cart[|cart| - 1])
  }

  /** handlePlaceOrder: an empty cart is refused. */
  predicate CanPlaceOrder(cart: seq<CartItem>) {
    |cart| > 0
  }

  /** Each cart item projected to { productId, name, price, basePrice, quantity, note }. */
  function OrderLine(item: CartItem): LineItem {
    LineItem(item.product.id, item.product.name, item.product.basePrice, item.product.price, item.quantity, Some(item.note))
  }

  function OrderLines(cart: seq<CartItem>): (r: seq<LineItem>)
    ensures |r| == |cart|
    ensures forall i :: 0 <= i < |cart| ==> r[i] == OrderLine(cart[i])
  {
    seq(|cart|, i requires 0 <= i < |cart| => OrderLine(cart[i]))
  }

  /** Σ price × quantity over line items, as the edit form also computes it. */
  function ItemsTotal(items: seq<LineItem>): int {
    if items == [] then 0
    else ItemsTotal(items[..|items| - 1]) + items[|items| - 1].price * items[|items| - 1].quantity
  }

  /** handlePayLater: the order is sent Unpaid, with no payment method. */
  function PayLaterRequest(cart: seq<CartItem>, customer: Option<CustomerId>): NewSaleRequest {
    NewSaleRequest(OrderLines(cart), CartTotal(cart), None, Some(Unpaid), customer)
  }

  /** handleConfirmCheckout for a new order: sent Paid with the chosen method. */
  function PayNowRequest(cart: seq<CartItem>, paymentMethod: PaymentMethod, customer: Option<CustomerId>): NewSaleRequest {
    NewSaleRequest(OrderLines(cart), CartTotal(cart), Some(paymentMethod), Some(Paid), customer)
  }

  // ---------------------------------------------------------------------------
  // The cart invariant
  // ---------------------------------------------------------------------------

  /**
   * What the page maintains: one item per product, every item's product in
   * the list, and every quantity between 1 and that product's listed stock.
   */
  ghost predicate Valid(catalog: seq<CatalogProduct>, cart: seq<CartItem>) {
    Distinct(Ids(cart)) &&
    forall i :: 0 <= i < |cart| ==>
      FindProduct(catalog, cart[i].product.id).Some? &&
      1 <= cart[i].quantity <= FindProduct(catalog, cart[i].product.id).value.stock
  }

  /** `find` returns the first item whose id matches. */
  lemma {:induction false} FindItemFirst(cart: seq<CartItem>, k: nat)
    requires k < |cart|
    requires forall i :: 0 <= i < k ==> cart[i].product.id != cart[k].product.id
    ensures FindItem(cart, cart[k].product.id) == Some(cart[k])
  {
    if k > 0 {
      FindItemFirst(cart[1..], k - 1);
    }
  }

  /** In a cart with one item per product, `find` returns the item at its position. */
  lemma {:induction false} FindItemAt(cart: seq<CartItem>, k: nat)
    requires Distinct(Ids(cart)) && k < |cart|
    ensures FindItem(cart, cart[k].product.id) == Some(cart[k])
  {
    forall i | 0 <= i < k ensures cart[i].product.id != cart[k].product.id {
      OnlyAt(cart, k, i);
    }
    FindItemFirst(cart, k);
  }

  /** In a cart with one item per product, a per-product update changes exactly one position. */
  lemma OnlyAt(cart: seq<CartItem>, k: nat, i: nat)
    requires Distinct(Ids(cart)) && k < |cart| && i < |cart| && i != k
    ensures cart[i].product.id != cart[k].product.id
  {
    assert Ids(cart)[i] != Ids(cart)[k];
  }

  lemma {:induction false} CartTotalAppend(a: seq<CartItem>, b: seq<CartItem>)
    ensures CartTotal(a + b) == CartTotal(a) + CartTotal(b)
  {
    if b != [] {
      assert (a + b)[..|a + b| - 1] == a + b[..|b| - 1];
      CartTotalAppend(a, b[..|b| - 1]);
    } else {
      assert a + b == a;
    }
  }

  /** The total splits around any one item. */
  lemma CartTotalSplit(cart: seq<CartItem>, k: nat)
    requires k < |cart|
    ensures CartTotal(cart) == CartTotal(cart[..k]) + Amount(cart[k]) + CartTotal(cart[k + 1..])
  {
    var pre, upto, post := cart[..k], cart[..k + 1], cart[k + 1..];
    assert upto[..k] == pre && upto[k] == cart[k];
    assert CartTotal(upto) == CartTotal(pre) + Amount(cart[k]);
    assert upto + post == cart;
    CartTotalAppend(upto, post);
  }

  /** Replacing one item changes the total by exactly that item's difference. */
  lemma CartTotalReplace(cart: seq<CartItem>, k: nat, x: CartItem)
    requires k < |cart|
    ensures CartTotal(cart[k := x]) == CartTotal(cart) - Amount(cart[k]) + Amount(x)
  {
    var r := cart[k := x];
    assert r[..k] == cart[..k] && r[k + 1..] == cart[k + 1..];
    CartTotalSplit(cart, k);
    CartTotalSplit(r, k);
  }

  /** Removing one item takes exactly its amount out of the total. */
  lemma CartTotalRemove(cart: seq<CartItem>, k: nat)
    requires k < |cart|
    ensures CartTotal(cart[..k] + cart[k + 1..]) == CartTotal(cart) - Amount(cart[k])
  {
    CartTotalSplit(cart, k);
    CartTotalAppend(cart[..k], cart[k + 1..]);
  }

  // ---------------------------------------------------------------------------
  // addToCart
  // ---------------------------------------------------------------------------

  /**
   * Adding a product that is in stock and already in the cart raises its
   * quantity by one while it is below the listed stock, and otherwise
   * leaves the cart alone; a product not yet in the cart is appended with
   * quantity 1 and an empty note; an out-of-stock product is refused.
   */
  lemma AddToCartCases(cart: seq<CartItem>, product: CatalogProduct)
    requires Distinct(Ids(cart))
    ensures product.stock <= 0 ==> AddToCart(cart, product) == cart
    ensures product.stock > 0 && product.id !in Ids(cart) ==>
      AddToCart(cart, product) == cart + [CartItem(product, 1, "")]
    ensures forall k :: 0 <= k < |cart| && cart[k].product.id == product.id && product.stock > 0 ==>
      AddToCart(cart, product) ==
        if cart[k].quantity < product.stock then cart[k := cart[k].(quantity := cart[k].quantity + 1)] else cart
  {
    forall k | 0 <= k < |cart| && cart[k].product.id == product.id && product.stock > 0
      ensures AddToCart(cart, product) ==
        if cart[k].quantity < product.stock then cart[k := cart[k].(quantity := cart[k].quantity + 1)] else cart
    {
      AddToCartExisting(cart, product, k);
    }
  }

  lemma AddToCartExisting(cart: seq<CartItem>, product: CatalogProduct, k: nat)
    requires Distinct(Ids(cart)) && k < |cart| && cart[k].product.id == product.id && product.stock > 0
    ensures AddToCart(cart, product) ==
      if cart[k].quantity < product.stock then cart[k := cart[k].(quantity := cart[k].quantity + 1)] else cart
  {
    FindItemAt(cart, k);
    BumpAt(cart, k);
  }

  /** In a cart with one item per product, bumping a product changes its item alone. */
  lemma BumpAt(cart: seq<CartItem>, k: nat)
    requires Distinct(Ids(cart)) && k < |cart|
    ensures Bump(cart, cart[k].product.id) == cart[k := cart[k].(quantity := cart[k].quantity + 1)]
  {
    forall i | 0 <= i < |cart| && i != k ensures cart[i].product.id != cart[k].product.id {
      OnlyAt(cart, k, i);
    }
  }

  /** Adding keeps the cart valid against the list it was clicked from. */
  lemma AddToCartKeepsValid(catalog: seq<CatalogProduct>, cart: seq<CartItem>, product: CatalogProduct)
    requires Valid(catalog, cart)
    requires FindProduct(catalog, product.id) == Some(product)
    ensures Valid(catalog, AddToCart(cart, product))
  {
    var r := AddToCart(cart, product);
    if product.stock > 0 && product.id !in Ids(cart) {
      assert r == cart + [CartItem(product, 1, "")];
      AppendKeepsValid(catalog, cart, product);
    } else if product.stock > 0 {
      var k :| 0 <= k < |cart| && Ids(cart)[k] == product.id;
      AddToCartExisting(cart, product, k);
      if cart[k].quantity < product.stock {
        SetQuantityKeepsValid(catalog, cart, k, cart[k].quantity + 1);
        assert r == cart[k := cart[k].(quantity := cart[k].quantity + 1)];
      } else {
        assert r == cart;
      }
    } else {
      assert r == cart;
    }
  }

  /** A new item of quantity 1 for a listed, in-stock product not yet in the cart keeps the cart valid. */
  lemma AppendKeepsValid(catalog: seq<CatalogProduct>, cart: seq<CartItem>, product: CatalogProduct)
    requires Valid(catalog, cart) && product.id !in Ids(cart) && product.stock > 0
    requires FindProduct(catalog, product.id) == Some(product)
    ensures Valid(catalog, cart + [CartItem(product, 1, "")])
  {
    var r := cart + [CartItem(product, 1, "")];
    assert Ids(r) == Ids(cart) + [product.id];
    forall i | 0 <= i < |r|
      ensures FindProduct(catalog, r[i].product.id).Some? &&
        1 <= r[i].quantity <= FindProduct(catalog, r[i].product.id).value.stock
    {
      if i < |cart| { assert r[i] == cart[i]; }
    }
  }

  /** One more unit of an item adds its price to the total. */
  lemma CartTotalBump(cart: seq<CartItem>, k: nat)
    requires k < |cart|
    ensures CartTotal(cart[k := cart[k].(quantity := cart[k].quantity + 1)]) == CartTotal(cart) + cart[k].product.price
  {
    var p, q := cart[k].product.price, cart[k].quantity;
    CartTotalReplace(cart, k, cart[k].(quantity := q + 1));
    assert p * (q + 1) == p * q + p;
  }

  /** The price of the unit addToCart adds: the cart item's own price if there is one, else the product's. */
  function UnitPrice(cart: seq<CartItem>, product: CatalogProduct): int {
    match FindItem(cart, product.id)
    case Some(existing) => existing.product.price
    case None => product.price
  }

  /** The click is taken: the product is in stock and the cart does not yet hold all of it. */
  predicate AddAccepted(cart: seq<CartItem>, product: CatalogProduct) {
    product.stock > 0 &&
    (FindItem(cart, product.id).None? || FindItem(cart, product.id).value.quantity < product.stock)
  }

  /** A click that is taken raises the total by one unit's price; any other click leaves it alone. */
  lemma AddToCartTotal(cart: seq<CartItem>, product: CatalogProduct)
    requires Distinct(Ids(cart))
    ensures CartTotal(AddToCart(cart, product)) ==
      CartTotal(cart) + (if AddAccepted(cart, product) then UnitPrice(cart, product) else 0)
  {
    var r := AddToCart(cart, product);
    if product.stock > 0 && product.id !in Ids(cart) {
      var item := CartItem(product, 1, "");
      assert r == cart + [item];
      assert r[..|cart|] == cart;
      assert AddAccepted(cart, product);
      assert CartTotal(r) == CartTotal(cart) + UnitPrice(cart, product);
    } else if product.stock > 0 {
      var k :| 0 <= k < |cart| && Ids(cart)[k] == product.id;
      AddToCartExisting(cart, product, k);
      FindItemAt(cart, k);
      assert UnitPrice(cart, product) == cart[k].product.price;
      if cart[k].quantity < product.stock {
        var bumped := cart[k].(quantity := cart[k].quantity + 1);
        assert r == cart[k := bumped];
        CartTotalBump(cart, k);
        assert AddAccepted(cart, product);
        assert CartTotal(r) == CartTotal(cart) + UnitPrice(cart, product);
      } else {
        assert !AddAccepted(cart, product);
        assert r == cart;
      }
    } else {
      assert !AddAccepted(cart, product);
      assert r == cart;
    }
  }

  // ---------------------------------------------------------------------------
  // updateQuantity and handleNoteChange
  // ---------------------------------------------------------------------------

  /**
   * A quantity of 0 or less removes the item; a larger quantity than the
   * listed stock is clamped to it; any other quantity is taken as given.
   * Nothing but the one item's quantity changes.
   */
  lemma UpdateQuantityCases(catalog: seq<CatalogProduct>, cart: seq<CartItem>, k: nat, newQuantity: int)
    requires Valid(catalog, cart) && k < |cart|
    ensures var id := cart[k].product.id;
      var stock := FindProduct(catalog, id).value.stock;
      UpdateQuantity(catalog, cart, id, newQuantity).Some? &&
      (newQuantity <= 0 ==> UpdateQuantity(catalog, cart, id, newQuantity).value == cart[..k] + cart[k + 1..]) &&
      (newQuantity > 0 ==>
         UpdateQuantity(catalog, cart, id, newQuantity).value ==
         cart[k := cart[k].(quantity := if newQuantity > stock then stock else newQuantity)])
  {
    var id := cart[k].product.id;
    forall i | 0 <= i < |cart| && i != k ensures cart[i].product.id != id {
      OnlyAt(cart, k, i);
    }
    if newQuantity <= 0 {
      WithoutAt(cart, k);
    }
  }

  lemma {:induction false} WithoutAt(cart: seq<CartItem>, k: nat)
    requires k < |cart|
    requires forall i :: 0 <= i < |cart| && i != k ==> cart[i].product.id != cart[k].product.id
    ensures Without(cart, cart[k].product.id) == cart[..k] + cart[k + 1..]
  {
    var id := cart[k].product.id;
    if k == 0 {
      WithoutAbsent(cart[1..], id);
      assert Without(cart, id) == cart[1..];
      assert cart[..0] + cart[1..] == cart[1..];
    } else {
      var tail := cart[1..];
      forall i | 0 <= i < |tail| && i != k - 1 ensures tail[i].product.id != tail[k - 1].product.id {
        assert tail[i] == cart[i + 1];
      }
      WithoutAt(tail, k - 1);
      assert Without(cart, id) == [cart[0]] + Without(tail, id);
      ConsRemove(cart, k);
    }
  }

  /** Dropping position k of a sequence is keeping its head and dropping position k - 1 of its tail. */
  lemma ConsRemove<T>(s: seq<T>, k: nat)
    requires 0 < k < |s|
    ensures [s[0]] + (s[1..][..k - 1] + s[1..][k..]) == s[..k] + s[k + 1..]
  {
    assert s[1..][..k - 1] == s[1..k] && s[1..][k..] == s[k + 1..];
    assert [s[0]] + s[1..k] == s[..k];
  }

  lemma {:induction false} WithoutAbsent(cart: seq<CartItem>, id: ProductId)
    requires forall i :: 0 <= i < |cart| ==> cart[i].product.id != id
    ensures Without(cart, id) == cart
  {
    if cart != [] {
      WithoutAbsent(cart[1..], id);
      assert [cart[0]] + cart[1..] == cart;
    }
  }

  /** Removing one item from a valid cart leaves it valid. */
  lemma RemoveKeepsValid(catalog: seq<CatalogProduct>, cart: seq<CartItem>, k: nat)
    requires Valid(catalog, cart) && k < |cart|
    ensures Valid(catalog, cart[..k] + cart[k + 1..])
  {
    var r := cart[..k] + cart[k + 1..];
    forall i | 0 <= i < |r| ensures r[i] == cart[if i < k then i else i + 1] { }
    forall i, j | 0 <= i < j < |r| ensures Ids(r)[i] != Ids(r)[j] {
      var i' := if i < k then i else i + 1;
      var j' := if j < k then j else j + 1;
      assert Ids(r)[i] == Ids(cart)[i'] && Ids(r)[j] == Ids(cart)[j'];
    }
  }

  /** Setting one item's quantity to a value between 1 and its listed stock leaves the cart valid. */
  lemma SetQuantityKeepsValid(catalog: seq<CatalogProduct>, cart: seq<CartItem>, k: nat, q: int)
    requires Valid(catalog, cart) && k < |cart|
    requires 1 <= q <= FindProduct(catalog, cart[k].product.id).value.stock
    ensures Valid(catalog, cart[k := cart[k].(quantity := q)])
  {
    var r := cart[k := cart[k].(quantity := q)];
    assert Ids(r) == Ids(cart);
  }

  /** Quantity updates keep the cart valid; they only fail for a product gone from the list. */
  lemma UpdateQuantityKeepsValid(catalog: seq<CatalogProduct>, cart: seq<CartItem>, id: ProductId, newQuantity: int)
    requires Valid(catalog, cart)
    ensures UpdateQuantity(catalog, cart, id, newQuantity).None? ==>
      newQuantity > 0 && FindProduct(catalog, id).None? && id !in Ids(cart)
    ensures UpdateQuantity(catalog, cart, id, newQuantity).Some? ==>
      Valid(catalog, UpdateQuantity(catalog, cart, id, newQuantity).value)
  {
    if k :| 0 <= k < |cart| && cart[k].product.id == id {
      UpdateQuantityCases(catalog, cart, k, newQuantity);
      if newQuantity <= 0 {
        RemoveKeepsValid(catalog, cart, k);
      } else {
        var stock := FindProduct(catalog, id).value.stock;
        SetQuantityKeepsValid(catalog, cart, k, if newQuantity > stock then stock else newQuantity);
      }
    } else {
      assert id !in Ids(cart);
      if newQuantity <= 0 {
        WithoutAbsent(cart, id);
      } else if FindProduct(catalog, id).Some? {
        var stock := FindProduct(catalog, id).value.stock;
        assert SetQuantity(cart, id, if newQuantity > stock then stock else newQuantity) == cart;
      }
    }
  }

  /** Changing a quantity replaces that item's price × quantity in the total by price × the kept quantity. */
  lemma UpdateQuantityTotal(catalog: seq<CatalogProduct>, cart: seq<CartItem>, k: nat, newQuantity: int)
    requires Valid(catalog, cart) && k < |cart|
    ensures var r := UpdateQuantity(catalog, cart, cart[k].product.id, newQuantity).value;
      var kept := if newQuantity <= 0 then 0
                  else if newQuantity > FindProduct(catalog, cart[k].product.id).value.stock
                  then FindProduct(catalog, cart[k].product.id).value.stock
                  else newQuantity;
      CartTotal(r) == CartTotal(cart) - Amount(cart[k]) + cart[k].product.price * kept
  {
    UpdateQuantityCases(catalog, cart, k, newQuantity);
    if newQuantity <= 0 {
      CartTotalRemove(cart, k);
    } else {
      var stock := FindProduct(catalog, cart[k].product.id).value.stock;
      CartTotalReplace(cart, k, cart[k].(quantity := if newQuantity > stock then stock else newQuantity));
    }
  }

  /** A note edit changes nothing the order is priced or stocked by. */
  lemma NoteChangeKeepsOrder(catalog: seq<CatalogProduct>, cart: seq<CartItem>, id: ProductId, note: string)
    requires Valid(catalog, cart)
    ensures var r := NoteChange(cart, id, note);
      Valid(catalog, r) &&
      CartTotal(r) == CartTotal(cart) &&
      Lines(OrderLines(r)) == Lines(OrderLines(cart)) &&
      forall i :: 0 <= i < |cart| ==>
        r[i].note == (if cart[i].product.id == id then note else cart[i].note)
  {
    var r := NoteChange(cart, id, note);
    assert Ids(r) == Ids(cart);
    NoteChangeTotal(cart, id, note);
  }

  lemma {:induction false} NoteChangeTotal(cart: seq<CartItem>, id: ProductId, note: string)
    ensures CartTotal(SetNote(cart, id, note)) == CartTotal(cart)
  {
    if cart != [] {
      var init := cart[..|cart| - 1];
      assert SetNote(cart, id, note)[..|cart| - 1] == SetNote(init, id, note);
      NoteChangeTotal(init, id, note);
    }
  }

  // ---------------------------------------------------------------------------
  // Placing the order
  // ---------------------------------------------------------------------------

  /** The total sent is the total of the lines sent. */
  lemma {:induction false} PayloadTotal(cart: seq<CartItem>)
    ensures ItemsTotal(OrderLines(cart)) == CartTotal(cart)
  {
    if cart != [] {
      assert OrderLines(cart)[..|cart| - 1] == OrderLines(cart[..|cart| - 1]);
      PayloadTotal(cart[..|cart| - 1]);
    }
  }

  /** Both payloads carry the cart's lines and total; only the payment fields differ. */
  lemma PayloadShape(cart: seq<CartItem>, paymentMethod: PaymentMethod, customer: Option<CustomerId>)
    ensures var later := PayLaterRequest(cart, customer);
      var now := PayNowRequest(cart, paymentMethod, customer);
      later.items == now.items && later.totalAmount == now.totalAmount == ItemsTotal(later.items) &&
      later.paymentStatus == Some(Unpaid) && later.paymentMethod.None? &&
      now.paymentStatus == Some(Paid) && now.paymentMethod == Some(paymentMethod) &&
      ProductIds(later.items) == Ids(cart) &&
      forall i :: 0 <= i < |cart| ==>
        later.items[i].quantity == cart[i].quantity && later.items[i].price == cart[i].product.price &&
        later.items[i].basePrice == cart[i].product.basePrice && later.items[i].note == Some(cart[i].note)
  {
    PayloadTotal(cart);
  }

  /** The list the page shows agrees with the stored stock. */
  ghost predicate Fresh(catalog: seq<CatalogProduct>, products: map<ProductId, Product>) {
    forall i :: 0 <= i < |catalog| ==>
      catalog[i].id in products && products[catalog[i].id].stock == catalog[i].stock
  }

  /**
   * A valid, non-empty cart placed against a fresh product list is accepted
   * by addSale, and — one line per product — it leaves no stock negative.
   */
  lemma ValidCartIsAccepted(
    s: DbState, catalog: seq<CatalogProduct>, cart: seq<CartItem>, req: NewSaleRequest, cashier: UserId, now: int)
    requires Valid(catalog, cart) && CanPlaceOrder(cart) && Fresh(catalog, s.products)
    requires req.items == OrderLines(cart)
    requires req.customerId.Some? ==> req.customerId.value in s.customers
    requires forall p :: p in s.products ==> s.products[p].stock >= 0
    ensures AddSaleSpec(s, req, cashier, now).Success?
    ensures forall p :: p in AddSaleSpec(s, req, cashier, now).value.products ==>
      AddSaleSpec(s, req, cashier, now).value.products[p].stock >= 0
  {
    forall i | 0 <= i < |req.items| ensures SaleLaws.LineAccepted(s.products, req.items[i]) {
      var info := FindProduct(catalog, cart[i].product.id).value;
      assert info in catalog;
    }
    SaleLaws.AddSaleOutcome(s, req, cashier, now);
    assert ProductIds(req.items) == Ids(cart);
    SaleLaws.AddSaleKeepsStockNonNegative(s, req, cashier, now);
  }

  /** Line lists that agree on every price and quantity have the same total. */
  lemma {:induction false} ItemsTotalPointwise(a: seq<LineItem>, b: seq<LineItem>)
    requires |a| == |b|
    requires forall i :: 0 <= i < |a| ==> a[i].price == b[i].price && a[i].quantity == b[i].quantity
    ensures ItemsTotal(a) == ItemsTotal(b)
  {
    if a != [] {
      ItemsTotalPointwise(a[..|a| - 1], b[..|b| - 1]);
    }
  }

  /** The sale stored for a cart's order carries a total equal to Σ price × quantity over its stored lines. */
  lemma PlacedSaleTotalMatchesLines(s: DbState, cart: seq<CartItem>, req: NewSaleRequest, cashier: UserId, now: int)
    requires req.items == OrderLines(cart) && req.totalAmount == CartTotal(cart)
    requires AddSaleSpec(s, req, cashier, now).Success?
    ensures var sale := AddSaleSpec(s, req, cashier, now).value.sales[s.nextSaleId];
      sale.totalAmount == ItemsTotal(sale.items)
  {
    SaleLaws.AddSaleValue(s, req, cashier, now);
    CreatedSaleTotalMatchesLines(s.products, cart, req, cashier, now);
  }

  lemma CreatedSaleTotalMatchesLines(
    products: map<ProductId, Product>, cart: seq<CartItem>, req: NewSaleRequest, cashier: UserId, now: int)
    requires req.items == OrderLines(cart) && req.totalAmount == CartTotal(cart)
    requires ProductsExist(products, req.items)
    ensures var sale := CreatedSale(req, Snapshot(products, req.items), cashier, now);
      sale.totalAmount == ItemsTotal(sale.items)
  {
    SaleLaws.CreatedSaleFields(products, req, cashier, now);
    var sale := CreatedSale(req, Snapshot(products, req.items), cashier, now);
    ItemsTotalPointwise(sale.items, req.items);
    PayloadTotal(cart);
  }
}
