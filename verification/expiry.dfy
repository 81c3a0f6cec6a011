/**
 * The expired and at-risk inventory report (ExpiredInventoryReport.jsx):
 * products with an expiry date are classed against the moment the page
 * loads — Expired before it, At-Risk up to sixty days after it, Valid
 * later — the Valid ones are dropped and the rest are listed soonest
 * expiry first.
 */
module ExpiryReport {
  import opened Wrappers
  import opened Records
  import opened Aggregate

  datatype ExpiryStatus = Expired | AtRisk | Valid

  /** Sixty days, the window in which a product counts as at risk. */
  const AtRiskWindow: int := 60 * MsPerDay

  function Classify(expiry: int, now: int): ExpiryStatus {
    if expiry < now then ExpiryStatus.Expired
    else if expiry <= now + AtRiskWindow then AtRisk
    else Valid
  }

  /** A product of the catalogue listing with its status attached. */
  datatype ExpiryRow = ExpiryRow(id: ProductId, product: Product, expiry: int, status: ExpiryStatus)

  /** The two filters and the map, in listing order. */
  function Flagged(products: seq<(ProductId, Product)>, now: int): seq<ExpiryRow> {
    if products == [] then []
    else
      var init := products[..|products| - 1];
      var last := products[|products| - 1];
      Flagged(init, now) +
        match last.1.expiryDate
          case None => []
          case Some(e) => if Classify(e, now) == Valid then [] else [ExpiryRow(last.0, last.1, e, Classify(e, now))]
  }

  function ByExpiry(row: ExpiryRow): int {
    row.expiry
  }

  /** The report: the flagged products sorted by expiry date, ascending. */
  function ExpiryReportRows(products: seq<(ProductId, Product)>, now: int): seq<ExpiryRow> {
    SortBy(Flagged(products, now), ByExpiry)
  }

  // ---------------------------------------------------------------------------
  // Laws
  // ---------------------------------------------------------------------------

  /** The three classes split the time line at `now` and at sixty days after it. */
  lemma ClassifyBands(expiry: int, now: int)
    ensures Classify(expiry, now) == ExpiryStatus.Expired <==> expiry < now
    ensures Classify(expiry, now) == AtRisk <==> now <= expiry <= now + 60 * MsPerDay
    ensures Classify(expiry, now) == Valid <==> expiry > now + 60 * MsPerDay
  {
  }

  /** A row of the listing is flagged. */
  ghost predicate RowOf(products: seq<(ProductId, Product)>, now: int, row: ExpiryRow) {
    exists i :: 0 <= i < |products| && products[i].1.expiryDate == Some(row.expiry) &&
      row == ExpiryRow(products[i].0, products[i].1, row.expiry, Classify(row.expiry, now))
  }

  lemma {:induction false} FlaggedMembers(products: seq<(ProductId, Product)>, now: int)
    ensures forall row :: row in Flagged(products, now) <==> RowOf(products, now, row) && row.status != Valid
  {
    if products != [] {
      var init := products[..|products| - 1];
      var last := products[|products| - 1];
      FlaggedMembers(init, now);
      forall row ensures row in Flagged(products, now) <==> RowOf(products, now, row) && row.status != Valid {
        if RowOf(products, now, row) && row.status != Valid {
          var i :| 0 <= i < |products| && products[i].1.expiryDate == Some(row.expiry) &&
            row == ExpiryRow(products[i].0, products[i].1, row.expiry, Classify(row.expiry, now));
          if i < |init| {
            assert init[i] == products[i];
            assert RowOf(init, now, row);
          }
        }
        if row in Flagged(init, now) {
          var i :| 0 <= i < |init| && init[i].1.expiryDate == Some(row.expiry) &&
            row == ExpiryRow(init[i].0, init[i].1, row.expiry, Classify(row.expiry, now));
          assert products[i] == init[i];
        }
      }
    }
  }

  /**
   * The report lists every product whose expiry date has passed or falls
   * within sixty days, each with its status, and nothing else; the rows run
   * from the soonest expiry to the latest.
   */
  lemma ExpiryReportContents(products: seq<(ProductId, Product)>, now: int)
    ensures var rows := ExpiryReportRows(products, now);
      (forall i, j :: 0 <= i < j < |rows| ==> rows[i].expiry <= rows[j].expiry) &&
      (forall row :: row in rows <==> RowOf(products, now, row) && row.expiry <= now + 60 * MsPerDay) &&
      (forall row :: row in rows ==> (row.status == ExpiryStatus.Expired <==> row.expiry < now))
  {
    var flagged := Flagged(products, now);
    var rows := ExpiryReportRows(products, now);
    FlaggedMembers(products, now);
    ExpiryReportSorted(products, now);
    forall row ensures row in rows <==> row in flagged {
      assert row in rows <==> row in multiset(rows);
      assert row in flagged <==> row in multiset(flagged);
    }
  }

  lemma ExpiryReportSorted(products: seq<(ProductId, Product)>, now: int)
    ensures var rows := ExpiryReportRows(products, now);
      forall i, j :: 0 <= i < j < |rows| ==> rows[i].expiry <= rows[j].expiry
  {
    var rows := ExpiryReportRows(products, now);
    forall i, j | 0 <= i < j < |rows| ensures rows[i].expiry <= rows[j].expiry {
      assert ByExpiry(rows[i]) <= ByExpiry(rows[j]);
    }
  }

  /** Each flagged product appears exactly as often as it is listed: none is lost or repeated by the sort. */
  lemma {:induction false} ExpiryReportCount(products: seq<(ProductId, Product)>, now: int)
    ensures |ExpiryReportRows(products, now)| == |Flagged(products, now)|
    ensures |Flagged(products, now)| == FlaggedCount(products, now)
  {
    if products != [] {
      ExpiryReportCount(products[..|products| - 1], now);
    }
  }

  /** The number of listed products with an expiry date no later than sixty days ahead. */
  function FlaggedCount(products: seq<(ProductId, Product)>, now: int): nat {
    if products == [] then 0
    else
      var last := products[|products| - 1];
      FlaggedCount(products[..|products| - 1], now) +
        (if last.1.expiryDate.Some? && last.1.expiryDate.value <= now + 60 * MsPerDay then 1 else 0)
  }

  /** Products without an expiry date never appear. */
  lemma NoExpiryNoRow(products: seq<(ProductId, Product)>, now: int, p: Product)
    requires p.expiryDate.None?
    ensures forall row :: row in ExpiryReportRows(products, now) ==> row.product != p
  {
    ExpiryReportContents(products, now);
  }
}
