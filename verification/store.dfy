/**
 * The collections the handlers read and write: products, customers, sales
 * (keyed by the id the database hands out), stock adjustments and expenses.
 * `DbState` is their value; `Database` holds them as mutable fields.
 */
module Store {
  import opened Records

  datatype DbState = DbState(
    products: map<ProductId, Product>,
    customers: set<CustomerId>,
    sales: map<SaleId, Sale>,
    nextSaleId: nat,
    adjustments: seq<Adjustment>,
    expenses: seq<Expense>)

  /** Every stored sale carries an id that was handed out already, so the next id is unused. */
  ghost predicate IdsIssued(s: DbState) {
    forall id :: id in s.sales ==> id < s.nextSaleId
  }

  class Database {
    var products: map<ProductId, Product>
    var customers: set<CustomerId>
    var sales: map<SaleId, Sale>
    var nextSaleId: nat
    var adjustments: seq<Adjustment>
    var expenses: seq<Expense>

    function State(): DbState
      reads this
    {
      DbState(products, customers, sales, nextSaleId, adjustments, expenses)
    }

    constructor (products: map<ProductId, Product>, customers: set<CustomerId>)
      ensures State() == DbState(products, customers, map[], 0, [], [])
    {
      this.products := products;
      this.customers := customers;
      this.sales := map[];
      this.nextSaleId := 0;
      this.adjustments := [];
      this.expenses := [];
    }
  }

  /** The sales collection in natural (insertion, i.e. id) order, over the ids below `n`. */
  function Collection(sales: map<SaleId, Sale>, n: nat): seq<Sale> {
    if n == 0 then []
    else Collection(sales, n - 1) + (if n - 1 in sales then [sales[n - 1]] else [])
  }

  /** Σ f(sale) over a list of sales. */
  function SumSales(sales: seq<Sale>, f: Sale -> int): int {
    if sales == [] then 0
    else SumSales(sales[..|sales| - 1], f) + f(sales[|sales| - 1])
  }

  lemma {:induction false} SumSalesAppend(a: seq<Sale>, b: seq<Sale>, f: Sale -> int)
    ensures SumSales(a + b, f) == SumSales(a, f) + SumSales(b, f)
  {
    if b != [] {
      assert (a + b)[..|a + b| - 1] == a + b[..|b| - 1];
      SumSalesAppend(a, b[..|b| - 1], f);
    } else {
      assert a + b == a;
    }
  }

  /** Collections over maps that agree below `n` are equal. */
  lemma {:induction false} CollectionAgree(s1: map<SaleId, Sale>, s2: map<SaleId, Sale>, n: nat)
    requires forall k :: k < n ==> (k in s1 <==> k in s2)
    requires forall k :: k < n && k in s1 ==> s1[k] == s2[k]
    ensures Collection(s1, n) == Collection(s2, n)
  {
    if n > 0 {
      CollectionAgree(s1, s2, n - 1);
    }
  }

  /** Storing a sale under the next id appends it to the collection. */
  lemma CollectionInsert(sales: map<SaleId, Sale>, n: nat, v: Sale)
    ensures Collection(sales[n := v], n + 1) == Collection(sales, n) + [v]
  {
    CollectionAgree(sales[n := v], sales, n);
  }

  /** Replacing one stored sale changes a sum over the collection by exactly that sale's difference. */
  lemma {:induction false} CollectionUpdate(sales: map<SaleId, Sale>, n: nat, id: SaleId, v: Sale, f: Sale -> int)
    requires id in sales && id < n
    ensures SumSales(Collection(sales[id := v], n), f) == SumSales(Collection(sales, n), f) - f(sales[id]) + f(v)
  {
    var m := n - 1;
    var tail1: seq<Sale> := if m in sales[id := v] then [sales[id := v][m]] else [];
    var tail0: seq<Sale> := if m in sales then [sales[m]] else [];
    SumSalesAppend(Collection(sales[id := v], m), tail1, f);
    SumSalesAppend(Collection(sales, m), tail0, f);
    if m == id {
      CollectionAgree(sales[id := v], sales, m);
      assert SumSales(tail1, f) == f(v) by { assert tail1[..0] == []; }
      assert SumSales(tail0, f) == f(sales[id]) by { assert tail0[..0] == []; }
    } else {
      CollectionUpdate(sales, m, id, v, f);
      assert tail1 == tail0;
    }
  }
}
