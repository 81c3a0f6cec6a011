# Point-of-sale core in Dafny

This project models the core of a small point-of-sale and inventory
application (an Express/Mongoose server with a React client): the life of a
sale against per-product stock, manual stock adjustments with their loss
expenses, the two carts the client keeps (the POS cart and the edit-order
form), and the read-only summaries built over sales and products (selling
reports, today's revenue, the accounting figures, the therapist leaderboard
and the expiry report).

Layout:

- `wrappers.dfy` (`Wrappers`): `Option` and `Result`.
- `records.dfy` (`Records`): the Sale, line item, Product, Adjustment and Expense
  records, their enums with the schema validators, defaults and trimming.
- `aggregate.dfy` (`Aggregate`): the aggregation building blocks: grouping with
  `$sum`, a sort by an integer key, `$limit`, de-duplication.
- `stock.dfy` (`StockLedger`): `$inc` updates on product stock, and the
  per-product reconciliation that `updateSale` runs.
- `store.dfy` (`Store`): the database as a value (`DbState`) and as an object
  (`Database`) whose fields the handlers update in place.
- `sales.dfy` (`SaleController`): `addSale`, `updateSale`, `updateSaleToPaid` and
  `retractSale`. Each is a function on `DbState` (all checks first; a failure
  changes nothing, as the transaction aborts) and a method on `Database` proved
  equal to it.
- `sale_laws.dfy` (`SaleLaws`): what each handler guarantees, the round trips
  (create then retract, create then edit then retract), and the quirks of the
  source.
- `sale_reports.dfy`, `report_laws.dfy` (`SaleReports`, `SaleReportLaws`): the
  top/all-selling pipelines and today's revenue, and how each handler moves them.
- `adjustments.dfy` (`AdjustmentController`): `createAdjustment`.
- `pos_cart.dfy` (`PosCart`): the POS page's cart, the order payloads, and the cart invariant.
- `edit_cart.dfy` (`EditSaleCart`): the edit-order form and its availability rule.
- `accounting.dfy` (`Accounting`): the accounting page's figures and the add-expense check.
- `therapists.dfy` (`Therapists`): the therapist report, `createTherapist` and `updateTherapist`.
- `expiry.dfy` (`ExpiryReport`): the expired and at-risk inventory report.

Conventions: ids are natural numbers. Money and quantities are unbounded
integers. Timestamps are integer milliseconds. A date picked as a day is a day
number `d`, covering the timestamps `d * MsPerDay` to `d * MsPerDay + MsPerDay - 1`.
The server's clock, the signed-in user and freshly generated ids are
parameters.

Where the source and its description differ, the model follows the source:

- `updateSale` has no stock check at all. Editing an unpaid order can drive
  stock negative (`SaleLaws.EditCanOverdraw`).
- `addSale` checks every line against the stock as it was before the sale.
  Two lines for the same product can therefore overdraw it
  (`SaleLaws.DuplicateLinesOverdraw`).
- `updateSale` keeps only the last line per product (a JavaScript `Map`), so
  editing a sale with duplicate lines loses stock
  (`SaleLaws.EditOfDuplicateLinesLosesStock`).
- Neither `updateSale` nor `updateSaleToPaid` looks at `status`, so a
  retracted unpaid sale can still be edited and paid
  (`SaleLaws.RetractedSaleStaysOpen`).

## Model

| member | source | states |
|---|---|---|
| Records.ParsePaymentMethod | server/models/Sale.js:17 | only Cash, Card, Digital and Pending are accepted, and each parses to the method of that name |
| Records.ParsePaymentStatus | server/models/Sale.js:18 | only Paid and Unpaid are accepted |
| Records.ParseOrderStatus | server/models/Sale.js:19 | only Pending, Completed and Served are accepted |
| Records.ParseSaleStatus | server/models/Sale.js:20 | only Completed and Retracted are accepted |
| Records.StoredItem | server/models/Sale.js:8-15 | a stored line keeps every field except the note; a present note becomes its trim, and an absent one stays absent |
| Records.StoredItemsIdempotent | server/models/Sale.js:8-15 | every stored line equals the line sent apart from its note, and saving the stored lines again changes nothing |
| Records.NewSale | server/models/Sale.js:5-21 | an omitted paymentMethod, paymentStatus, orderStatus or status takes its default (Pending, Unpaid, Pending, Completed); a given one is kept; cashierId, customerId, totalAmount and createdAt are kept; items are stored line by line |
| Records.NewProduct | server/models/Product.js:3-12 | the name is the trim of the given name; sku, category, price, expiryDate and supplier are kept; omitted stock and basePrice are 0, and given ones are kept |
| Records.InsertProduct | server/models/Product.js:4-5 | an insert succeeds exactly when the id is new, name and sku are non-empty, and no product has that sku |
| Records.InsertKeepsSkusUnique | server/models/Product.js:5 | inserting keeps SKUs unique across products |
| Records.TrimSlice | server/models/Product.js:4 | the trimmed string is a slice of the input with only white space outside it, and it neither starts nor ends with white space |
| Records.TrimUnique | server/models/Product.js:4 | any slice with only white space around it that neither starts nor ends with white space is the trimmed string, so trimming removes the leading and trailing white space and nothing else |
| Records.TrimIdempotent | server/models/Therapist.js:7 | trimming an already trimmed value changes nothing |
| Records.ParseReason | server/models/Adjustment.js:7-11 | only the five reasons are accepted, each parsing to the reason of that name |
| StockLedger.ApplyDeltas | server/controllers/saleController.js:110-114 | applying `$inc` updates in order moves each product's stock by the sum of its deltas and changes nothing else; updates of missing products are no-ops |
| StockLedger.ReconcileNet | server/controllers/saleController.js:151-166 | the reconciliation over the union of old and new product ids moves each product by its old quantity minus its new quantity (last line per product, absent counts as 0) |
| StockLedger.LastQtyIsTotal | server/controllers/saleController.js:151-152 | with one line per product, the `Map` quantity is the product's total quantity |
| SaleController.FirstFault | server/controllers/saleController.js:77-84 | the index of the first line whose product is missing or short of stock; all earlier lines pass |
| SaleController.AddSale | server/controllers/saleController.js:56-131 | the method changes the database exactly as `AddSaleSpec` says; on failure nothing changes; on success the new sale is stored under the next id |
| SaleController.UpdateSale | server/controllers/saleController.js:136-183 | the method changes the database exactly as `UpdateSaleSpec` says; on failure nothing changes |
| SaleController.ReconcileStock | server/controllers/saleController.js:151-166 | the loop applies one `$inc` of old − new per changed product id, in order, skipping zero differences |
| SaleController.UpdateSaleToPaid | server/controllers/saleController.js:188-204 | the method changes the database exactly as `PaySaleSpec` says; on failure nothing changes |
| SaleController.RetractSale | server/controllers/saleController.js:209-244 | the method changes the database exactly as `RetractSaleSpec` says; on failure nothing changes |
| SaleController.SaveSale | server/controllers/saleController.js:107-114 | the sale is stored under the next id, the id counter advances, and every line's quantity is taken out of stock |
| SaleController.ApplyLines | server/controllers/saleController.js:110-114 | the loop applies one `$inc` per line, with the sign given, in order |
| SaleLaws.AddSaleOutcome | server/controllers/saleController.js:59-84 | addSale succeeds exactly when there are items, the customer (if given) exists and every line's product exists with enough stock; otherwise the error of the first failing check is returned |
| SaleLaws.AddSaleEffect | server/controllers/saleController.js:107-114 | on success every product's stock drops by its total quantity in the request, paid or unpaid; one sale is added under the next id; nothing else changes |
| SaleLaws.AddSaleRecord | server/controllers/saleController.js:85-106 | the new sale is Completed with order status Pending; paymentStatus is the given one or Unpaid; paymentMethod is the given one only when Paid, else Pending; lines carry the products' basePrice |
| SaleLaws.AddSaleKeepsStockNonNegative | server/controllers/saleController.js:82-84 | with one line per product, a successful sale leaves no stock negative |
| SaleLaws.DuplicateLinesOverdraw | server/controllers/saleController.js:82-114 | the same line twice is accepted whenever one copy fits the stock, and the stock drops by twice its quantity: below zero when it held less than that |
| SaleLaws.UpdateSaleOutcome | server/controllers/saleController.js:140-145 | updateSale fails for a missing sale (not found) or a Paid one (cannot edit), and succeeds for any unpaid sale whose products all still exist |
| SaleLaws.UpdateSaleEffect | server/controllers/saleController.js:151-169 | each product's stock becomes stock + old − new (last line per product); the sale is the old sale with the stored new items and the new total; every other sale, the customers, the next id, the adjustments and the expenses are unchanged |
| SaleLaws.UpdateSaleEffectDistinct | server/controllers/saleController.js:151-166 | with one line per product on both sides, stock moves by the old total minus the new total |
| SaleLaws.EditCanOverdraw | server/controllers/saleController.js:155-166 | raising an unpaid line from 1 to 5 with stock 0 is accepted and leaves stock −4 |
| SaleLaws.EditDownToLastLineThenRetract | server/controllers/saleController.js:151-166 | editing an unpaid sale whose last line is `line` down to that line alone, then retracting it, gives back only that one line's quantity |
| SaleLaws.EditOfDuplicateLinesLosesStock | server/controllers/saleController.js:151-152 | creating a sale of the same line twice, editing it down to one copy and retracting it leaves the stock one copy's quantity below where it started |
| SaleLaws.PaySaleEffect | server/controllers/saleController.js:188-204 | pay succeeds exactly for an unpaid sale; the sale becomes the old sale with Paid and the given method; stock, every other sale, the customers, the next id, the adjustments and the expenses are unchanged |
| SaleLaws.RetractSaleEffect | server/controllers/saleController.js:209-231 | retract succeeds exactly for a Completed sale; every product gets its quantity back; the sale is the old sale with status Retracted; every other sale, the customers, the next id, the adjustments and the expenses are unchanged |
| SaleLaws.RetractTwiceFails | server/controllers/saleController.js:215-217 | a second retraction is refused as already retracted |
| SaleLaws.RetractedSaleStaysOpen | server/controllers/saleController.js:140-145 | a retracted unpaid sale can still be paid, and still be edited |
| SaleLaws.AddSaleStockAt | server/controllers/saleController.js:110-114 | one product's stock after a sale |
| SaleLaws.AddSaleShape | server/controllers/saleController.js:92-114 | the stored sale is Completed and its lines move the same quantities as the request |
| SaleLaws.RetractStockAt | server/controllers/saleController.js:224-228 | one product's stock after a retraction |
| SaleLaws.UpdateStockAtLast | server/controllers/saleController.js:155-166 | one product's stock after an edit, by last line per product |
| SaleLaws.UpdateStockAt | server/controllers/saleController.js:155-166 | one product's stock after an edit, by totals, with one line per product |
| SaleLaws.CreateThenRetractRestoresStock | server/controllers/saleController.js:109-114 | creating a sale and retracting it restores every product exactly |
| SaleLaws.EditThenRetractStockAt | server/controllers/saleController.js:209-228 | after an edit of a Completed sale (one line per product on both sides), retracting it succeeds and gives each product back the quantity the sale held before the edit |
| SaleLaws.CreateEditRetractSucceeds | server/controllers/saleController.js:140-145 | an order placed unpaid can always be edited and then retracted, and no product appears or disappears on the way |
| SaleLaws.CreateEditRetractRestoresStock | server/controllers/saleController.js:155-166 | create, then any edit, then retract also restores every product, with one line per product |
| SaleLaws.HandlersKeepIdsIssued | server/controllers/saleController.js:92-107 | every stored sale has an id below the next id, and all four handlers keep it so |
| SaleReports.FilterSalesCount | server/controllers/saleController.js:12 | each sale that passes is kept as often as it occurs, and no other sale appears |
| SaleReports.FilterSalesAppend | server/controllers/saleController.js:12 | filtering distributes over concatenation, so the kept sales stay in their original order |
| SaleReports.FilterSalesOne | server/controllers/saleController.js:12 | a single sale is kept exactly when it passes |
| SaleReports.SellingTotalsRows | server/controllers/saleController.js:11-20 | one row per product sold by a Completed sale, with its total quantity over Completed sales and the name on its first line |
| SaleReports.AllSellingProductsSorted | server/controllers/saleController.js:9-27 | getAllSellingProducts holds the same rows, largest quantity first |
| SaleReports.TopProductsAreTop | server/controllers/saleController.js:32-51 | getTopProducts is the first min(5, n) rows, and none left out sold more than one kept |
| SaleReports.TodaysSalesShape | server/controllers/saleController.js:285-297 | today's list is exactly the Completed sales created that day, each as often as it is stored, newest first |
| SaleReports.TodaysRevenueCountsPaidOnly | server/controllers/saleController.js:302 | today's revenue is the sum of totalAmount over the day's Completed sales that are Paid |
| SaleReportLaws.AddSaleMovesReports | server/controllers/saleController.js:9-51 | a new sale adds its units to every product's sold count; it adds its total to today's revenue only when paid up front and created today |
| SaleReportLaws.UpdateSaleMovesReports | server/controllers/saleController.js:168-169 | an edit moves sold counts by new − old (Completed sales only) and leaves today's revenue unchanged |
| SaleReportLaws.PaySaleMovesReports | server/controllers/saleController.js:199-200 | paying leaves sold counts alone and adds the sale's total to today's revenue when it was created today |
| SaleReportLaws.RetractSaleMovesReports | server/controllers/saleController.js:224-230 | retracting takes the sale's units out of the sold counts and its contribution out of today's revenue |
| AdjustmentController.CreateAdjustment | server/controllers/adjustmentController.js:9-65 | the method changes the database exactly as `AdjustSpec` says, appends the returned adjustment, and changes nothing on failure |
| AdjustmentController.AdjustOutcome | server/controllers/adjustmentController.js:16-41 | the adjustment succeeds exactly when the product exists, its new stock is not negative, the reason is one of the five and the name is non-empty; a missing product is not found, a negative result is refused |
| AdjustmentController.AdjustEffect | server/controllers/adjustmentController.js:24-41 | the product's stock moves by exactly quantityChanged and nothing else about it or any other product changes; one adjustment records product, name snapshot, change, reason, user and notes |
| AdjustmentController.LossExpenseWritten | server/controllers/adjustmentController.js:44-53 | an expense is written exactly for Damaged, Lost or Expired with a negative change: \|change\| × basePrice under "Stock Loss", described by name and reason |
| AdjustmentController.NoExpenseWithoutLoss | server/controllers/adjustmentController.js:44 | restocking, stock-count corrections and initial stock never write an expense |
| AdjustmentController.AdjustKeepsStockNonNegative | server/controllers/adjustmentController.js:24-29 | no adjustment drives any stock negative |
| AdjustmentController.AdjustKeepsLedger | server/controllers/adjustmentController.js:24-41 | stock minus the sum of the product's recorded adjustments is unchanged by an adjustment |
| AdjustmentController.AdjustThenCorrect | server/controllers/adjustmentController.js:24-53 | an adjustment followed by the opposite stock-count correction restores every product and the correction writes no expense |
| PosCart.FindItem | client/src/pages/POSPage.jsx:119 | finds an item exactly when one has the id |
| PosCart.FindProduct | client/src/pages/POSPage.jsx:136 | finds a product exactly when the list has one with the id |
| PosCart.Without | client/src/pages/POSPage.jsx:138 | removing keeps exactly the items of other products, each as often as it occurs, and no item of the removed product |
| PosCart.WithoutAppend | client/src/pages/POSPage.jsx:138 | removal distributes over concatenation, so the kept items stay in their order |
| PosCart.FindItemAt | client/src/pages/POSPage.jsx:119 | in a cart with one item per product, `find` returns that item |
| PosCart.CartTotalReplace | client/src/pages/POSPage.jsx:272 | replacing one item moves the total by the difference of their amounts |
| PosCart.AddToCartCases | client/src/pages/POSPage.jsx:113-131 | out of stock: unchanged; in the cart below stock: that item's quantity + 1; at stock: unchanged; otherwise appended with quantity 1 and an empty note |
| PosCart.AddToCartKeepsValid | client/src/pages/POSPage.jsx:113-131 | adding keeps one item per product and every quantity between 1 and the product's stock |
| PosCart.AddToCartTotal | client/src/pages/POSPage.jsx:113-131 | a click on an in-stock product the cart does not yet hold all of raises the total by one unit's price (the cart item's price, or the product's for a new item); any other click leaves the total as it was |
| PosCart.UpdateQuantityCases | client/src/pages/POSPage.jsx:134-150 | a quantity ≤ 0 removes the item; above stock it is clamped to stock; otherwise it is set; other items are unchanged |
| PosCart.UpdateQuantityKeepsValid | client/src/pages/POSPage.jsx:134-150 | updating keeps the cart invariant; the only failure is a product missing from the list, and that product is not in the cart |
| PosCart.UpdateQuantityTotal | client/src/pages/POSPage.jsx:134-150 | the total moves by the item's price times the kept quantity minus its old amount |
| PosCart.NoteChangeKeepsOrder | client/src/pages/POSPage.jsx:157-159 | a note change alters only the matching item's note; the invariant, total and quantities are kept |
| PosCart.PayloadTotal | client/src/pages/POSPage.jsx:176-178 | the payload's total equals Σ price × quantity over its lines |
| PosCart.PayloadShape | client/src/pages/POSPage.jsx:176-181 | pay-later sends Unpaid with no method, pay-now sends Paid with the method; both project every item to id, name, price, basePrice, quantity and note |
| PosCart.ValidCartIsAccepted | client/src/pages/POSPage.jsx:215-221 | a valid non-empty cart placed against fresh stock is accepted by addSale and leaves no stock negative |
| PosCart.PlacedSaleTotalMatchesLines | client/src/pages/POSPage.jsx:272 | the sale stored from a cart has totalAmount = Σ price × quantity of its lines |
| EditSaleCart.FindLine | client/src/components/EditSaleModal.jsx:29 | finds a line exactly when one has the product id |
| EditSaleCart.FindLineAt | client/src/components/EditSaleModal.jsx:50 | with one line per product, `find` returns that line |
| EditSaleCart.QtyInLinesIsQtyOf | client/src/components/EditSaleModal.jsx:29-31 | with one line per product, the original quantity read is the product's total in the sale |
| EditSaleCart.OpeningFormIsWithin | client/src/components/EditSaleModal.jsx:9-14 | the form opened on a sale satisfies the availability invariant |
| EditSaleCart.QuantityChangeCases | client/src/components/EditSaleModal.jsx:20-42 | a quantity ≤ 0 removes the line; above stock + original quantity it is rejected and nothing changes; otherwise only that line's quantity is set |
| EditSaleCart.QuantityChangeKeepsWithin | client/src/components/EditSaleModal.jsx:20-42 | a change keeps every line within its availability; the only failure is a product missing from the list |
| EditSaleCart.AddLineCases | client/src/components/EditSaleModal.jsx:44-64 | at or above availability: unchanged; an existing line: quantity + 1; otherwise appended with quantity 1 and the product's name, price and basePrice |
| EditSaleCart.AddLineKeepsWithin | client/src/components/EditSaleModal.jsx:44-64 | adding keeps every line within its availability |
| EditSaleCart.EditWithinAvailabilityKeepsStock | client/src/components/EditSaleModal.jsx:27-36 | an edit the form allows, against fresh stock, leaves no stock negative on the server |
| EditSaleCart.EditedSaleTotalMatchesLines | client/src/components/EditSaleModal.jsx:18 | the edited sale's total equals Σ price × quantity of its stored lines |
| Accounting.ExpensesInRangeCount | client/src/pages/AccountingPage.jsx:100-109 | each expense dated inside the range is kept as often as it occurs, and no other expense appears |
| Accounting.ExpensesInRangeTotal | client/src/pages/AccountingPage.jsx:100-117 | the total of the filtered expenses is Σ over all expenses of the amount of those dated inside the range |
| Accounting.SubmitExpense | client/src/pages/AccountingPage.jsx:47-54 | the expense is sent exactly when description, amount and category are all non-empty |
| Accounting.FiguresCountCompletedInRange | client/src/pages/AccountingPage.jsx:89-118 | revenue and cost of goods count each Completed sale inside the range once and nothing else; gross profit is revenue − cost; net income is that less Σ over all expenses of the amount of those dated inside the range |
| Accounting.RetractedSaleIgnored | client/src/pages/AccountingPage.jsx:34 | a Retracted sale changes no figure |
| Accounting.InRangeByDay | client/src/pages/AccountingPage.jsx:91-96 | with both dates set, a timestamp is kept exactly when its day lies between them, both inclusive |
| Accounting.PlacedSaleCost | client/src/pages/AccountingPage.jsx:113-115 | the cost counted for a new sale is Σ product basePrice × quantity at the time of sale |
| Accounting.RetractSaleMovesFigures | client/src/pages/AccountingPage.jsx:112-115 | retracting takes exactly the sale's contribution out of revenue and cost and leaves expenses alone |
| Accounting.AddSaleMovesFigures | client/src/pages/AccountingPage.jsx:112-115 | a new sale, paid or not, adds its total and cost when its timestamp is in range |
| Therapists.TalliesCount | server/controllers/therapistController.js:23-28 | the group sum for a therapist is the number of matched sales credited to them |
| Therapists.GroupsCount | server/controllers/therapistController.js:11-28 | one group per therapist with matched sales, with its count, and no other |
| Therapists.TopGroupsShape | server/controllers/therapistController.js:29-30 | at most ten groups, largest count first, no therapist twice, each with its true count |
| Therapists.Joined | server/controllers/therapistController.js:31-43 | every row's therapist exists, carries that therapist's name, and comes from a group |
| Therapists.JoinedOrder | server/controllers/therapistController.js:31-43 | the join keeps the groups' order and never repeats a therapist |
| Therapists.JoinedHas | server/controllers/therapistController.js:31-37 | a group whose therapist exists has its row |
| Therapists.TherapistReportRows | server/controllers/therapistController.js:7-50 | the report has at most ten rows, each an existing therapist with their name and number of matched sales, largest first, none repeated |
| Therapists.TherapistReportComplete | server/controllers/therapistController.js:29-37 | when at most ten therapists have matched sales, each that still exists has a row |
| Therapists.RangeNeedsBothDates | server/controllers/therapistController.js:16-21 | with either date missing, the range is ignored |
| Therapists.CreateOutcome | server/controllers/therapistController.js:80-92 | createTherapist refuses a name already taken; otherwise it succeeds exactly for a non-empty trimmed name, storing an active therapist with fee 0 |
| Therapists.HandlersKeepNamesUnique | server/models/Therapist.js:4-9 | create and update keep therapist names unique |
| Therapists.TherapistRecord.ApplyUpdate | server/controllers/therapistController.js:102-103 | the fetched document is updated in place to the merge of its old value and the request |
| Therapists.MergeKeepsOmitted | server/controllers/therapistController.js:102-103 | an absent or empty name keeps the old name; an absent isActive keeps the old flag; the fee is never touched; merging twice equals merging once |
| Therapists.UpdateOutcome | server/controllers/therapistController.js:97-112 | a missing therapist is not found; otherwise the merged document is saved with its name trimmed, refused when that name is empty or another therapist's, and no other therapist changes |
| ExpiryReport.ClassifyBands | client/src/pages/ExpiredInventoryReport.jsx:12-25 | Expired before now, At-Risk from now to sixty days later inclusive, Valid after |
| ExpiryReport.FlaggedMembers | client/src/pages/ExpiredInventoryReport.jsx:16-28 | the filtered rows are exactly the dated products whose status is not Valid |
| ExpiryReport.ExpiryReportContents | client/src/pages/ExpiredInventoryReport.jsx:16-29 | the report lists exactly the products whose expiry is at most sixty days ahead, each with its status, soonest expiry first |
| ExpiryReport.ExpiryReportCount | client/src/pages/ExpiredInventoryReport.jsx:16-29 | the report has one row per product with an expiry date at most sixty days ahead |
| ExpiryReport.NoExpiryNoRow | client/src/pages/ExpiredInventoryReport.jsx:17 | products without an expiry date never appear |

## Left out

- Mongo sessions, `populate`, HTTP status codes and response bodies: a handler returns either the new database value or an error value.
- Concurrency between requests: each handler is one atomic step.
- Authentication and authorisation; `deleteSale`, `getSales`, `getSaleById` and the other routes outside the sale, adjustment, therapist and report paths.
- `addSale` request fields the Sale schema does not declare (`subtotal`, `discount`, `voucherCode`, `therapistId`, `includeTherapistOnInvoice`). Mongoose drops them on save, so they are not stored. The therapist report is modelled over sale documents that carry a `therapistId`, as the aggregation reads them. Because Sale.js declares no `therapistId`, no sale that `addSale` stores carries one, so the report's `therapistId: { $ne: null }` match finds none of them and the leaderboard stays empty for every sale this code writes; the model does not connect `SaleDoc` to `Sale`.
- AddSaleOutcome, UpdateSaleOutcome, CreateEditRetractSucceeds: a line item's name is taken as given, and the Sale schema's `required` rule on it (which refuses an empty name when `sale.save` runs, aborting `addSale` or rolling back `updateSale`'s stock moves) is not modelled, so these lemmas count a line with an empty name as accepted. The client always sends the name of a listed product, and Product.js makes product names required and trimmed.
- AddSaleSpec, PaySaleSpec: the request's payment method and status are typed values, so a string outside the schema's enums cannot be expressed. In the source such a string makes the save fail: `addSale` aborts the transaction with a 500, and `updateSaleToPaid` writes nothing. `ParsePaymentMethod` and `ParsePaymentStatus` state which strings the schema accepts.
- Floating-point money and `Number(amount)` parsing: amounts and prices are integers.
- Time zones and daylight saving: days are fixed-length day numbers, and "sixty days from now" is `60 * MsPerDay`.
- The tie order of `$sort`: equal counts or quantities may come out in any order; only the order by key is stated.
- The Expense model is not part of this model. The expense written by an adjustment takes its date from the clock parameter.
- The accounting page's `item.basePrice || 0` fallback: basePrice is always present on stored lines.
- The rendering, the XLSX export and the toasts and alerts of the client pages.
- `updateTherapist` with `isActive: null` (stored as null by Mongoose): the flag is modelled as present or absent.
- `createTherapist` with no name: the filter `{ name: undefined }` matches any therapist. The model takes the name as a string.
- The POS `updateQuantity` and the edit form's `handleQuantityChange` read the stock of a product that vanished from the list, which throws. These are modelled as `None`.
- The edit form reads the original quantity from the first line for a product; the server's `Map` keeps the last. They agree when a sale has one line per product, which is what `EditWithinAvailabilityKeepsStock` assumes.
- The order of writes in `createAdjustment`: the source saves the product before the adjustment is validated and undoes it by aborting the transaction; the model validates first and writes only on success, which leaves the same database.
