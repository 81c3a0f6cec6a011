/**
 * Per-product stock as the sale handlers change it: a sequence of `$inc`
 * updates, each a signed amount against one product id. An update whose id
 * names no product changes nothing (findByIdAndUpdate without upsert).
 */
module StockLedger {
  import opened Records
  import opened Aggregate

  /** One `$inc` of a product's stock: (product id, signed amount). */
  type StockDelta = (ProductId, int)

  function IncStock(products: map<ProductId, Product>, id: ProductId, amount: int): map<ProductId, Product> {
    if id in products then products[id := products[id].(stock := products[id].stock + amount)]
    else products
  }

  /**
   * The `$inc` updates applied in order. Whatever the order, each product's
   * stock moves by the net amount recorded against it, and nothing else about
   * any product changes.
   */
  function ApplyDeltas(products: map<ProductId, Product>, ds: seq<StockDelta>): (r: map<ProductId, Product>)
    ensures r.Keys == products.Keys
    ensures forall p :: p in r ==> r[p] == products[p].(stock := products[p].stock + SumFor(ds, p))
  {
    if ds == [] then products
    else
      var last := ds[|ds| - 1];
      IncStock(ApplyDeltas(products, ds[..|ds| - 1]), last.0, last.1)
  }

  /** Each line item as (product id, quantity). */
  function Lines(items: seq<LineItem>): (r: seq<StockDelta>)
    ensures |r| == |items|
    ensures forall i :: 0 <= i < |items| ==> r[i] == (items[i].productId, items[i].quantity)
  {
    seq(|items|, i requires 0 <= i < |items| => (items[i].productId, items[i].quantity))
  }

  function Negated(ds: seq<StockDelta>): (r: seq<StockDelta>)
    ensures |r| == |ds|
    ensures forall i :: 0 <= i < |ds| ==> r[i] == (ds[i].0, -ds[i].1)
  {
    seq(|ds|, i requires 0 <= i < |ds| => (ds[i].0, -ds[i].1))
  }

  function ProductIds(items: seq<LineItem>): seq<ProductId> {
    KeysOf(Lines(items))
  }

  /** Total quantity of product `p` over all lines of `items`. */
  function QtyOf(items: seq<LineItem>, p: ProductId): int {
    SumFor(Lines(items), p)
  }

  lemma {:induction false} NegatedSum(ds: seq<StockDelta>, p: ProductId)
    ensures SumFor(Negated(ds), p) == -SumFor(ds, p)
  {
    if ds != [] {
      assert Negated(ds)[..|ds| - 1] == Negated(ds[..|ds| - 1]);
      NegatedSum(ds[..|ds| - 1], p);
    }
  }

  lemma QtyOfAppend(a: seq<LineItem>, b: seq<LineItem>, p: ProductId)
    ensures QtyOf(a + b, p) == QtyOf(a, p) + QtyOf(b, p)
  {
    assert Lines(a + b) == Lines(a) + Lines(b);
    SumForAppend(Lines(a), Lines(b), p);
  }

  /** `new Map(items.map(i => [i.productId, i.quantity]))`: a later line for the same product overwrites an earlier one. */
  function QtyMap(items: seq<LineItem>): map<ProductId, int> {
    if items == [] then map[]
    else
      var last := items[|items| - 1];
      QtyMap(items[..|items| - 1])[last.productId := last.quantity]
  }

  /** The map has an entry exactly for the products that appear on some line. */
  lemma {:induction false} QtyMapKeys(items: seq<LineItem>)
    ensures forall p :: p in QtyMap(items) <==> p in ProductIds(items)
  {
    if items != [] {
      var init := items[..|items| - 1];
      assert ProductIds(items) == ProductIds(init) + [items[|items| - 1].productId];
      QtyMapKeys(init);
    }
  }

  /** `map.get(p) || 0`: the quantity of the last line for `p`, or 0 when there is none. */
  function LastQty(items: seq<LineItem>, p: ProductId): int {
    var m := QtyMap(items);
    if p in m then m[p] else 0
  }

  /** When every product appears on at most one line, the last line's quantity is the total. */
  lemma {:induction false} LastQtyIsTotal(items: seq<LineItem>, p: ProductId)
    requires Distinct(ProductIds(items))
    ensures LastQty(items, p) == QtyOf(items, p)
  {
    if items != [] {
      var init := items[..|items| - 1];
      var last := items[|items| - 1];
      assert Lines(items)[..|items| - 1] == Lines(init);
      assert ProductIds(items) == ProductIds(init) + [last.productId];
      assert Distinct(ProductIds(init)) by {
        forall i, j | 0 <= i < j < |init| ensures ProductIds(init)[i] != ProductIds(init)[j] {
          assert ProductIds(init)[i] == ProductIds(items)[i];
          assert ProductIds(init)[j] == ProductIds(items)[j];
        }
      }
      LastQtyIsTotal(init, p);
      if p == last.productId {
        forall i | 0 <= i < |init| ensures ProductIds(init)[i] != p {
          assert ProductIds(init)[i] == ProductIds(items)[i];
        }
        SumForAbsent(Lines(init), p);
      }
    }
  }

  /** Product ids of the old and new lines, each once: `new Set([...old.keys(), ...new.keys()])`. */
  function ChangedIds(oldItems: seq<LineItem>, newItems: seq<LineItem>): seq<ProductId> {
    Dedup(ProductIds(oldItems) + ProductIds(newItems))
  }

  /** The reconciliation updates over `ids`: `$inc` by old - new quantity, skipped when that is 0. */
  function Reconcile(ids: seq<ProductId>, oldItems: seq<LineItem>, newItems: seq<LineItem>): seq<StockDelta> {
    if ids == [] then []
    else
      var id := ids[|ids| - 1];
      var diff := LastQty(oldItems, id) - LastQty(newItems, id);
      Reconcile(ids[..|ids| - 1], oldItems, newItems) + (if diff != 0 then [(id, diff)] else [])
  }

  /** One more id adds its own difference, and only for that product. */
  lemma {:induction false} ReconcileStep(ids: seq<ProductId>, oldItems: seq<LineItem>, newItems: seq<LineItem>, p: ProductId)
    requires ids != []
    ensures var id := ids[|ids| - 1];
      SumFor(Reconcile(ids, oldItems, newItems), p) ==
      SumFor(Reconcile(ids[..|ids| - 1], oldItems, newItems), p) +
        (if id == p then LastQty(oldItems, id) - LastQty(newItems, id) else 0)
  {
    var id := ids[|ids| - 1];
    var diff := LastQty(oldItems, id) - LastQty(newItems, id);
    var step: seq<StockDelta> := if diff != 0 then [(id, diff)] else [];
    var r0 := Reconcile(ids[..|ids| - 1], oldItems, newItems);
    assert SumFor(step, p) == if diff != 0 && id == p then diff else 0 by {
      if diff != 0 {
        assert step[..0] == [];
      }
    }
    SumForAppend(r0, step, p);
  }

  lemma InInit(ids: seq<ProductId>, p: ProductId)
    requires ids != []
    ensures p in ids <==> p in ids[..|ids| - 1] || p == ids[|ids| - 1]
  {
    assert ids == ids[..|ids| - 1] + [ids[|ids| - 1]];
  }

  lemma {:induction false} ReconcileSum(ids: seq<ProductId>, oldItems: seq<LineItem>, newItems: seq<LineItem>, p: ProductId)
    requires Distinct(ids)
    ensures SumFor(Reconcile(ids, oldItems, newItems), p) ==
            if p in ids then LastQty(oldItems, p) - LastQty(newItems, p) else 0
  {
    if ids != [] {
      var init := ids[..|ids| - 1];
      ReconcileStep(ids, oldItems, newItems, p);
      DistinctInit(ids);
      ReconcileSum(init, oldItems, newItems, p);
      InInit(ids, p);
    }
  }

  /** Net effect of the reconciliation on product `p`: old quantity minus new quantity. */
  lemma ReconcileNet(oldItems: seq<LineItem>, newItems: seq<LineItem>, p: ProductId)
    ensures SumFor(Reconcile(ChangedIds(oldItems, newItems), oldItems, newItems), p) ==
            LastQty(oldItems, p) - LastQty(newItems, p)
  {
    var ids := ChangedIds(oldItems, newItems);
    ReconcileSum(ids, oldItems, newItems, p);
    if p !in ids {
      QtyMapKeys(oldItems);
      QtyMapKeys(newItems);
      assert p !in ProductIds(oldItems) && p !in ProductIds(newItems);
    }
  }
}
