/**
 * The accounting summary (AccountingPage.jsx): over Completed sales and
 * recorded expenses inside an optional day range, the revenue, the cost of
 * goods sold (each line's basePrice × quantity), gross profit and net
 * income; and the check the add-expense form makes before submitting.
 *
 * Days are numbered; day `d` covers the timestamps d × MsPerDay up to and
 * including d × MsPerDay + MsPerDay - 1.
 */
module Accounting {
  import opened Wrappers
  import opened Records
  import opened Store
  import opened SaleController
  import opened SaleReports
  import SaleLaws
  import SaleReportLaws

  /** The two date pickers; an empty picker leaves that side unbounded. */
  datatype DateRange = DateRange(startDay: Option<int>, endDay: Option<int>)

  /** From the start of the start day to the last millisecond of the end day, both inclusive. */
  predicate InRange(t: int, range: DateRange) {
    (range.startDay.None? || t >= range.startDay.value * MsPerDay) &&
    (range.endDay.None? || t <= range.endDay.value * MsPerDay + MsPerDay - 1)
  }

  /** A sale enters the figures when it is Completed and was created inside the range. */
  predicate Counted(sale: Sale, range: DateRange) {
    IsCompleted(sale) && InRange(sale.createdAt, range)
  }

  function InRangeOf(range: DateRange): Sale -> bool {
    (x: Sale) => InRange(x.createdAt, range)
  }

  /** The sales the page keeps: Completed ones (on load), then those inside the range. */
  function CountedSales(sales: seq<Sale>, range: DateRange): seq<Sale> {
    FilterSales(FilterSales(sales, IsCompleted), InRangeOf(range))
  }

  /** The expenses dated inside the range, in their original order (ExpensesInRangeCount). */
  function ExpensesInRange(expenses: seq<Expense>, range: DateRange): (r: seq<Expense>)
    ensures forall e :: e in r <==> e in expenses && InRange(e.date, range)
  {
    if expenses == [] then []
    else
      var init := expenses[..|expenses| - 1];
      var last := expenses[|expenses| - 1];
      assert expenses == init + [last];
      ExpensesInRange(init, range) + (if InRange(last.date, range) then [last] else [])
  }

  /** Σ basePrice × quantity over a sale's lines. */
  function SaleCost(sale: Sale): int {
    LinesCost(sale.items)
  }

  function LinesCost(items: seq<LineItem>): int {
    if items == [] then 0
    else LinesCost(items[..|items| - 1]) + items[|items| - 1].basePrice * items[|items| - 1].quantity
  }

  function CostOf(): Sale -> int {
    (x: Sale) => SaleCost(x)
  }

  function ExpenseTotal(expenses: seq<Expense>): int {
    if expenses == [] then 0 else ExpenseTotal(expenses[..|expenses| - 1]) + expenses[|expenses| - 1].amount
  }

  /** Each expense inside the range is kept as often as it occurs, and no other expense is. */
  lemma ExpensesInRangeCount(expenses: seq<Expense>, range: DateRange)
    ensures forall e ::
      multiset(ExpensesInRange(expenses, range))[e] == if InRange(e.date, range) then multiset(expenses)[e] else 0
  {
    forall e ensures multiset(ExpensesInRange(expenses, range))[e] ==
      if InRange(e.date, range) then multiset(expenses)[e] else 0
    {
      ExpenseKeptCount(expenses, range, e);
    }
  }

  lemma {:induction false} ExpenseKeptCount(expenses: seq<Expense>, range: DateRange, e: Expense)
    ensures multiset(ExpensesInRange(expenses, range))[e] == if InRange(e.date, range) then multiset(expenses)[e] else 0
  {
    if expenses != [] {
      var init, last := expenses[..|expenses| - 1], expenses[|expenses| - 1];
      var tail: seq<Expense> := if InRange(last.date, range) then [last] else [];
      var kept := ExpensesInRange(init, range);
      ExpenseKeptCount(init, range, e);
      assert ExpensesInRange(expenses, range) == kept + tail;
      assert multiset(expenses) == multiset(init) + multiset{last} by { assert expenses == init + [last]; }
      assert multiset(kept + tail) == multiset(kept) + multiset(tail);
    }
  }

  /** Σ over all expenses of the amount of those dated inside the range. */
  function ExpenseTotalIn(expenses: seq<Expense>, range: DateRange): int {
    if expenses == [] then 0
    else
      var last := expenses[|expenses| - 1];
      ExpenseTotalIn(expenses[..|expenses| - 1], range) + (if InRange(last.date, range) then last.amount else 0)
  }

  /** The total of the filtered expenses counts each expense inside the range once, and no other. */
  lemma {:induction false} ExpensesInRangeTotal(expenses: seq<Expense>, range: DateRange)
    ensures ExpenseTotal(ExpensesInRange(expenses, range)) == ExpenseTotalIn(expenses, range)
  {
    if expenses != [] {
      var init, last := expenses[..|expenses| - 1], expenses[|expenses| - 1];
      ExpensesInRangeTotal(init, range);
      var kept := ExpensesInRange(init, range);
      if InRange(last.date, range) {
        assert (kept + [last])[..|kept + [last]| - 1] == kept;
      } else {
        assert kept + [] == kept;
      }
    }
  }

  datatype Figures = Figures(revenue: int, cogs: int, grossProfit: int, expenses: int, netIncome: int)

  /** totalRevenue, totalCOGS, grossProfit, totalExpenses and netIncome. */
  function AccountingFigures(sales: seq<Sale>, expenses: seq<Expense>, range: DateRange): Figures {
    var counted := CountedSales(sales, range);
    var revenue := SumSales(counted, TotalAmount);
    var cogs := SumSales(counted, CostOf());
    var spent := ExpenseTotal(ExpensesInRange(expenses, range));
    Figures(revenue, cogs, revenue - cogs, spent, revenue - cogs - spent)
  }

  /** What one sale contributes to the revenue and to the cost of goods sold. */
  function RevenueIn(range: DateRange): Sale -> int {
    (x: Sale) => if Counted(x, range) then x.totalAmount else 0
  }

  function CostIn(range: DateRange): Sale -> int {
    (x: Sale) => if Counted(x, range) then SaleCost(x) else 0
  }

  // ---------------------------------------------------------------------------
  // The add-expense form
  // ---------------------------------------------------------------------------

  datatype ExpenseForm = ExpenseForm(description: string, amount: string, category: string)

  datatype FormError = MissingField

  /** handleAddExpense: refused unless description, amount and category are all filled in. */
  function SubmitExpense(form: ExpenseForm): (r: Result<ExpenseForm, FormError>)
    ensures r.Success? <==> form.description != [] && form.amount != [] && form.category != []
    ensures r.Success? ==> r.value == form
  {
    if form.description == [] || form.amount == [] || form.category == [] then Failure(MissingField)
    else Success(form)
  }

  // ---------------------------------------------------------------------------
  // Laws
  // ---------------------------------------------------------------------------

  /**
   * The figures count each Completed sale inside the range once and nothing
   * else; gross profit is revenue less cost, and net income is gross profit
   * less the expenses dated inside the range.
   */
  lemma FiguresCountCompletedInRange(sales: seq<Sale>, expenses: seq<Expense>, range: DateRange)
    ensures var f := AccountingFigures(sales, expenses, range);
      f.revenue == SumSales(sales, RevenueIn(range)) &&
      f.cogs == SumSales(sales, CostIn(range)) &&
      f.grossProfit == f.revenue - f.cogs &&
      f.netIncome == f.revenue - f.cogs - f.expenses &&
      f.expenses == ExpenseTotalIn(expenses, range)
  {
    ExpensesInRangeTotal(expenses, range);
    var completed := FilterSales(sales, IsCompleted);
    var revenueInRange := x => if InRangeOf(range)(x) then TotalAmount(x) else 0;
    FilterSum(completed, InRangeOf(range), TotalAmount, revenueInRange);
    FilterSum(sales, IsCompleted, revenueInRange, RevenueIn(range));
    var costInRange := x => if InRangeOf(range)(x) then CostOf()(x) else 0;
    FilterSum(completed, InRangeOf(range), CostOf(), costInRange);
    FilterSum(sales, IsCompleted, costInRange, CostIn(range));
  }

  /** Retracted sales never change the figures: adding one leaves every figure as it was. */
  lemma RetractedSaleIgnored(sales: seq<Sale>, x: Sale, expenses: seq<Expense>, range: DateRange)
    requires x.status == Retracted
    ensures AccountingFigures(sales + [x], expenses, range) == AccountingFigures(sales, expenses, range)
  {
    FiguresCountCompletedInRange(sales + [x], expenses, range);
    FiguresCountCompletedInRange(sales, expenses, range);
    SumSalesAppend(sales, [x], RevenueIn(range));
    SumSalesAppend(sales, [x], CostIn(range));
    assert SumSales([x], RevenueIn(range)) == 0 by { assert [x][..0] == []; }
    assert SumSales([x], CostIn(range)) == 0 by { assert [x][..0] == []; }
  }

  /** With both pickers set, a timestamp is inside the range exactly when its day lies between them. */
  lemma InRangeByDay(t: int, startDay: int, endDay: int)
    ensures InRange(t, DateRange(Some(startDay), Some(endDay))) <==> startDay <= t / MsPerDay <= endDay
  {
    var d, r := t / MsPerDay, t % MsPerDay;
    assert t == d * MsPerDay + r && 0 <= r < MsPerDay;
    if startDay <= d {
      assert startDay * MsPerDay <= d * MsPerDay;
    } else {
      assert (startDay - d) * MsPerDay >= MsPerDay;
    }
    if d <= endDay {
      assert d * MsPerDay <= endDay * MsPerDay;
    } else {
      assert (d - endDay) * MsPerDay >= MsPerDay;
    }
  }

  /** Σ over lines of the product's basePrice × quantity, for lines whose products all exist. */
  function CurrentCost(products: map<ProductId, Product>, items: seq<LineItem>): int
    requires forall i :: 0 <= i < |items| ==> items[i].productId in products
  {
    if items == [] then 0
    else
      var last := items[|items| - 1];
      CurrentCost(products, items[..|items| - 1]) + products[last.productId].basePrice * last.quantity
  }

  /**
   * The cost the page counts for a sale addSale just stored is the products'
   * basePrice at the time of sale, whatever basePrice the client sent.
   */
  lemma PlacedSaleCost(s: DbState, req: NewSaleRequest, cashier: UserId, now: int)
    requires AddSaleSpec(s, req, cashier, now).Success?
    ensures forall i :: 0 <= i < |req.items| ==> req.items[i].productId in s.products
    ensures SaleCost(AddSaleSpec(s, req, cashier, now).value.sales[s.nextSaleId]) == CurrentCost(s.products, req.items)
  {
    SaleLaws.AddSaleValue(s, req, cashier, now);
    CreatedSaleCost(s.products, req, cashier, now);
  }

  lemma CreatedSaleCost(products: map<ProductId, Product>, req: NewSaleRequest, cashier: UserId, now: int)
    requires ProductsExist(products, req.items)
    ensures SaleCost(CreatedSale(req, Snapshot(products, req.items), cashier, now)) == CurrentCost(products, req.items)
  {
    SaleLaws.CreatedSaleFields(products, req, cashier, now);
    var sale := CreatedSale(req, Snapshot(products, req.items), cashier, now);
    CostPointwise(products, sale.items, req.items);
  }

  lemma {:induction false} CostPointwise(products: map<ProductId, Product>, stored: seq<LineItem>, items: seq<LineItem>)
    requires |stored| == |items|
    requires forall i :: 0 <= i < |items| ==> items[i].productId in products
    requires forall i :: 0 <= i < |items| ==>
      stored[i].basePrice == products[items[i].productId].basePrice && stored[i].quantity == items[i].quantity
    ensures LinesCost(stored) == CurrentCost(products, items)
  {
    if items != [] {
      CostPointwise(products, stored[..|stored| - 1], items[..|items| - 1]);
    }
  }

  /**
   * Retracting a sale takes exactly its contribution out of revenue and
   * cost of goods sold, and leaves the expenses alone.
   */
  lemma RetractSaleMovesFigures(s: DbState, id: SaleId, range: DateRange)
    requires IdsIssued(s)
    requires RetractSaleSpec(s, id).Success?
    ensures var t := RetractSaleSpec(s, id).value;
      var before := AccountingFigures(SaleReportLaws.AllSales(s), s.expenses, range);
      var after := AccountingFigures(SaleReportLaws.AllSales(t), t.expenses, range);
      after.revenue == before.revenue - RevenueIn(range)(s.sales[id]) &&
      after.cogs == before.cogs - CostIn(range)(s.sales[id]) &&
      after.expenses == before.expenses
  {
    var t := RetractSaleSpec(s, id).value;
    var retracted := t.sales[id];
    assert t.sales == s.sales[id := retracted];
    CollectionUpdate(s.sales, s.nextSaleId, id, retracted, RevenueIn(range));
    CollectionUpdate(s.sales, s.nextSaleId, id, retracted, CostIn(range));
    FiguresCountCompletedInRange(SaleReportLaws.AllSales(s), s.expenses, range);
    FiguresCountCompletedInRange(SaleReportLaws.AllSales(t), t.expenses, range);
  }

  /**
   * A new sale enters the figures at once, paid or not (unlike today's
   * revenue, which waits for payment): revenue grows by its total and cost
   * by its lines' cost when its timestamp is inside the range.
   */
  lemma AddSaleMovesFigures(s: DbState, req: NewSaleRequest, cashier: UserId, now: int, range: DateRange)
    requires AddSaleSpec(s, req, cashier, now).Success?
    ensures var t := AddSaleSpec(s, req, cashier, now).value;
      var before := AccountingFigures(SaleReportLaws.AllSales(s), s.expenses, range);
      var after := AccountingFigures(SaleReportLaws.AllSales(t), t.expenses, range);
      after.revenue == before.revenue + (if InRange(now, range) then req.totalAmount else 0) &&
      after.cogs == before.cogs + (if InRange(now, range) then SaleCost(t.sales[s.nextSaleId]) else 0) &&
      after.expenses == before.expenses
  {
    SaleLaws.AddSaleValue(s, req, cashier, now);
    SaleLaws.CreatedSaleFields(s.products, req, cashier, now);
    InsertMovesFigures(s.sales, s.nextSaleId, CreatedSale(req, Snapshot(s.products, req.items), cashier, now), s.expenses, range);
  }

  /** Storing one more sale under the next id adds its contribution to revenue and cost, and nothing to expenses. */
  lemma InsertMovesFigures(sales: map<SaleId, Sale>, n: nat, sale: Sale, expenses: seq<Expense>, range: DateRange)
    ensures var before := AccountingFigures(Collection(sales, n), expenses, range);
      var after := AccountingFigures(Collection(sales[n := sale], n + 1), expenses, range);
      after.revenue == before.revenue + RevenueIn(range)(sale) &&
      after.cogs == before.cogs + CostIn(range)(sale) &&
      after.expenses == before.expenses
  {
    var before := Collection(sales, n);
    CollectionInsert(sales, n, sale);
    SumSalesAppend(before, [sale], RevenueIn(range));
    SumSalesAppend(before, [sale], CostIn(range));
    assert [sale][..0] == [];
    FiguresCountCompletedInRange(before, expenses, range);
    FiguresCountCompletedInRange(before + [sale], expenses, range);
  }
}
