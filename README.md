# Smart Inventory (IMS-SOFE): a verified Dafny model

This project models the core of the Smart Inventory system, an inventory and point-of-sale web
application. The server side is PHP over MySQL; the browser side is JavaScript with `localStorage`
lists. The model covers:

- **Checkout** (`SaveTransaction`): request validation, and subtotal, 12% tax and total in
  integer centavos, where declared values win. It then writes one header and one item row per line
  and decrements stock conditionally, trying product code, then numeric id, then `productid`. Any
  failing line rolls everything back.
- **Stock status**: the four classifiers of the low-stock report (`LowStockReport`), the admin and
  employee product tables (`ProductsAdmin`, `ProductsEmployee`) and the admin dashboard
  (`DashboardAdmin`). `StockRules` relates them and shows where they part ways.
- **The employee cart** (`CheckoutClient`): merge by id, remove by index, the totals, the payload,
  the clear-on-response rule and the product grid filter.
- **Category and product numbering**: the next `category_id` (`AddCategory`), resequencing to
  1..N after a delete (`DeleteCategory`), and the `C`/`P` codes with three-digit padding
  (`Common.PadLeft3`, `AddProduct`).
- **Ledger queries**: the transaction detail lookup with its fallbacks (`TransactionDetails`) and
  the three-table delete (`DeleteTransaction`).
- **The `localStorage` pages**:
  - employees (`EmployeesClient`) and categories (`CategoriesClient`), with counter-derived ids
    (`LocalIds`);
  - transactions (`TransactionsClient`);
  - reports (`Reports`).
- **Employee records on the server**: `AddEmployee` and `UpdateEmployee`.

How the model is built:

- **Tables** are sequences of row datatypes, held in `Schema.Database`. Each PHP endpoint is a
  method on that database.
  - Its `modifies` clause lists exactly the tables it may write.
  - Its `ensures` ties the answer and the new tables to a specification function of the old tables.
  - The properties are lemmas about those functions.
- **JavaScript pages** that keep module-level state are classes with that state as fields.
- **Money**: PHP money is centavos (`int`). JavaScript numbers are `real` with a NaN case
  (`JsValues.Num`).
- **What the program cannot see** becomes a parameter:
  - database failures, and whether a statement could be prepared;
  - clocks, dates and `Date.now()`;
  - the browser's date parsing;
  - `password_hash` results, confirmation dialogs, and what a `fetch` yields.

## Behaviour worth knowing

- `save_transaction.php` (mysqli branch) answers HTTP 500 for every failure inside its `try`. That
  covers a non-positive quantity, a line that no strategy can decrement, and every failed storage
  call (begin, header insert, statement prepare, item insert, stock UPDATE, commit).
- The item row stores the caller-supplied name as given. No product lookup is made for it.
- No check is made for an already stored `txn_id`. With no unique index on that column, a
  resubmitted id gets a second header.
- Deleting a transaction removes item rows by `txn_id` only. The checkout writes item rows with only
  the numeric `transaction_id`, so those rows survive the delete (see "## Findings").
- Report ids in `reports.js` are the last five digits of `Date.now()`. They repeat every 100
  seconds, and a delete by id then removes both reports.
- The transactions page passes ids to its View and Delete buttons as text. A transaction stored
  with a numeric id can be neither viewed nor deleted.
- The four stock classifiers agree on stock of 0 or more. On negative stock they disagree: the
  admin table says Unavailable, the report says Critical, and the employee table says Available.
- `add_product.php` stores the `P` code padded to at least three digits, so it is never cut. The
  category code it reports back is built with `LPAD(category_id, 3, '0')`, which cuts a four-digit
  number: category 1234 is reported as "C123".
- The UPDATE in `add_product.php` that sets the new product's code is not checked. When it fails,
  the add still answers success and the row keeps a NULL code.
- Two edits of a missing entry behave differently. An employee edit whose entry is gone throws and
  changes nothing. A category edit whose entry is gone writes to index -1, so no element changes,
  yet it is reported as saved.

## Model

| member | source | states |
|---|---|---|
| SaveTransaction.TaxIsNearest | src/pages/employee/4_transactions/save_transaction.php:78 | the default tax is within half a centavo of 12% of the subtotal, rounding halves away from zero, and is symmetric in sign |
| SaveTransaction.DeclaredTotalsWin | src/pages/employee/4_transactions/save_transaction.php:70-79 | each declared amount is used on its own: a declared tax and a declared total verbatim, a declared subtotal when it is positive |
| SaveTransaction.ComputedTotals | src/pages/employee/4_transactions/save_transaction.php:70-79 | each amount not declared is computed on its own: a declared subtotal of at most 0 (0 when absent) gets the sum of qty times price added, a missing tax is 12% of the subtotal, and a missing total is subtotal plus tax |
| SaveTransaction.ExampleTotals | src/pages/employee/4_transactions/save_transaction.php:70-79 | two items at 100 and one at 50 give 250, 30 and 280 |
| SaveTransaction.UpdateWherePointwise | src/pages/employee/4_transactions/save_transaction.php:154-161 | one conditional UPDATE lowers every row matching the key with stock at least qty by exactly qty and leaves every other row unchanged |
| SaveTransaction.AffectedZero | src/pages/employee/4_transactions/save_transaction.php:213 | the affected-row count is at most the table size and is zero exactly when no row is eligible |
| SaveTransaction.NothingEligibleNoChange | src/pages/employee/4_transactions/save_transaction.php:154-161 | an UPDATE that affects no row leaves the table unchanged |
| SaveTransaction.DecrementIsOneUpdate | src/pages/employee/4_transactions/save_transaction.php:199-243 | a served line is one UPDATE under the key of the strategy that succeeded, and that UPDATE affected a row; the id strategy needs an all-digit identifier |
| SaveTransaction.DecrementOrder | src/pages/employee/4_transactions/save_transaction.php:203-243 | product_code wins whenever it affects a row; the numeric id is used only after that, and only for an all-digit identifier; the line fails exactly when every prepared strategy affected none |
| SaveTransaction.RunBadQuantity | src/pages/employee/4_transactions/save_transaction.php:179-186 | a line with quantity at most 0 stops the item loop with an invalid-quantity failure |
| SaveTransaction.RunBreaks | src/pages/employee/4_transactions/save_transaction.php:190-243 | a line whose item insert fails, or whose reached UPDATE fails, stops the loop with a database error |
| SaveTransaction.RunNoStock | src/pages/employee/4_transactions/save_transaction.php:245-253 | a line whose statements succeed but that no strategy can serve stops the loop with an insufficient-stock failure naming the identifier and quantity |
| SaveTransaction.RunStep | src/pages/employee/4_transactions/save_transaction.php:171-254 | a served line whose statements all succeed appends its row and continues with the decremented products |
| SaveTransaction.SaveWhenRunFails | src/pages/employee/4_transactions/save_transaction.php:120-376 | a valid request whose item loop fails, for lack of stock, a bad quantity or a failed statement, is answered 500 and changes nothing but the auto-increment counter |
| SaveTransaction.SaveWhenRunCompletes | src/pages/employee/4_transactions/save_transaction.php:128-278 | a valid request whose loop completes and whose commit succeeds stores one header, the loop's item rows and stock, and answers with the txn id, numeric id and totals |
| SaveTransaction.UpdateStock | src/pages/employee/4_transactions/save_transaction.php:154-213 | executing one prepared UPDATE changes the product table exactly as the conditional decrement and returns the affected-row count |
| SaveTransaction.DecrementLine | src/pages/employee/4_transactions/save_transaction.php:199-246 | the three UPDATEs in fallback order: the line breaks exactly when the failing UPDATE is one the fallback reaches; otherwise it succeeds exactly when the specified decrement does and leaves its products; a line that breaks or fails leaves the products unchanged |
| SaveTransaction.SubtotalOf | src/pages/employee/4_transactions/save_transaction.php:70-77 | the subtotal loop computes the specified subtotal |
| SaveTransaction.ItemLoop | src/pages/employee/4_transactions/save_transaction.php:171-254 | the foreach over items fails exactly when the specified item loop fails, with the same failure; on success it leaves exactly the loop's products and item rows; on failure it leaves only lowered stock and the rows of the lines up to the failing one, for the caller to roll back |
| SaveTransaction.SaveTransaction | src/pages/employee/4_transactions/save_transaction.php:61-376 | for any failing storage call or none, the endpoint's answer and its new products, headers, item rows and counter are exactly those of the checkout specification |
| SaveTransaction.UpdateOnlyFalls | src/pages/employee/4_transactions/save_transaction.php:154-161 | a conditional UPDATE with positive qty keeps length and keys and only lowers stock, never below zero |
| SaveTransaction.StockOnlyFallsTransitive | src/pages/employee/4_transactions/save_transaction.php:171-254 | only lowering stock composes across the lines of the loop |
| SaveTransaction.RunAppendsRows | src/pages/employee/4_transactions/save_transaction.php:189 | a completed loop appends one item row per line, in input order |
| SaveTransaction.RowsCons | src/pages/employee/4_transactions/save_transaction.php:171-189 | the rows of a non-empty line list are the first line's row followed by the rows of the rest |
| SaveTransaction.SaveWhenCommitFails | src/pages/employee/4_transactions/save_transaction.php:263-266 | a valid request whose item loop completes but whose commit fails is a 500 that restores every table and only advances the transaction counter |
| SaveTransaction.DecrementOnlyFalls | src/pages/employee/4_transactions/save_transaction.php:199-253 | one served line changes no column but stock, and stock only falls and never below zero |
| SaveTransaction.RunStockOnlyFalls | src/pages/employee/4_transactions/save_transaction.php:154-254 | a completed loop only lowers stock and never below zero |
| SaveTransaction.RunRejectsBadQuantity | src/pages/employee/4_transactions/save_transaction.php:179-186 | any line with quantity at most 0, anywhere in the list, makes the whole loop fail |
| SaveTransaction.ByCodeStep | src/pages/employee/4_transactions/save_transaction.php:154-213 | with unique product codes, a decrement by code lowers exactly the named row by qty |
| SaveTransaction.RunLowersByDemand | src/pages/employee/4_transactions/save_transaction.php:171-254 | with unique codes and only the code strategy matching, a completed loop lowers each product by exactly the sum of its lines' quantities |
| SaveTransaction.CodeOnlyFirstStep | src/pages/employee/4_transactions/save_transaction.php:199-214 | the first served line lowers only the row with its code, keeps every key and code unique, and leaves the remaining lines code-only |
| SaveTransaction.NeverOversells | src/pages/employee/4_transactions/save_transaction.php:154-254 | when product codes are unique and no line names a product by id or productid, a completed checkout never takes more of a product than it had in stock |
| SaveTransaction.SaveRejectsMalformed | src/pages/employee/4_transactions/save_transaction.php:61-67 | a blank txn id, or items missing, not an array or empty, is a 400 that changes no table and no counter |
| SaveTransaction.SaveAllOrNothing | src/pages/employee/4_transactions/save_transaction.php:120-376 | a rejected checkout leaves products, headers and items as they were (only the counter may advance); a saved one adds one header, one row per line in order, and only lowers stock |
| SaveTransaction.SaveIgnoresExistingHeaders | src/pages/employee/4_transactions/save_transaction.php:128-143 | whether a checkout succeeds does not depend on the headers already stored: there is no duplicate txn id check |
| SaveTransaction.SecondLineSeesReducedStock | src/pages/employee/4_transactions/save_transaction.php:171-254 | two lines for one product are checked one after the other against the reduced stock, so the second fails when the sum exceeds the stock |
| SaveTransaction.RunIgnoresOuterFault | src/pages/employee/4_transactions/save_transaction.php:124-266 | a failure of begin, header, items prepare or commit does not change what the item loop does |
| SaveTransaction.RunOkIgnoresFault | src/pages/employee/4_transactions/save_transaction.php:171-254 | a loop that completes under a failing statement is the fault-free loop: the failing statement was never run |
| SaveTransaction.InsertFaultFailsRun | src/pages/employee/4_transactions/save_transaction.php:188-197 | a failing item insert on any line of a loop that would otherwise complete makes the loop fail with a database error |
| SaveTransaction.SaveStorageFaults | src/pages/employee/4_transactions/save_transaction.php:120-266 | every storage failure on a valid request is a 500: a failed begin or header insert changes nothing at all; a failed items prepare, a failed item insert in a checkout that would otherwise be saved, or a failed commit restores every table and only advances the counter |
| SaveTransaction.SavedIgnoresFault | src/pages/employee/4_transactions/save_transaction.php:120-278 | a storage failure never makes a checkout succeed: a saved checkout is the fault-free one |
| LowStockReport.StatusOf | src/pages/admin/6_reports/get_low_stock_report.php:129-137 | each status as the stock band it covers: exactly 0 Unavailable, otherwise at most 20 Critical, 21 to 40 Low, above 40 Available |
| LowStockReport.BuildItems | src/pages/admin/6_reports/get_low_stock_report.php:121-150 | the foreach over the rows collects exactly the specified items, in row order |
| LowStockReport.LowStockReport | src/pages/admin/6_reports/get_low_stock_report.php:66-166 | when the query runs, for any answer of the ordered, limited query, the response echoes the parameters, lists the emitted items and counts them in `returned`; when a prepare, execute or query fails, or no database handle exists, the answer is `success: false` |
| LowStockReport.NegativeStockIsCritical | src/pages/admin/6_reports/get_low_stock_report.php:129-132 | negative stock is reported Critical, not Unavailable |
| LowStockReport.MissingColumnsDefault | src/pages/admin/6_reports/get_low_stock_report.php:123-146 | a missing stock counts as 0 and is kept as Unavailable; missing sales are 0 and a missing code is "" |
| LowStockReport.EmitMembers | src/pages/admin/6_reports/get_low_stock_report.php:139-158 | every emitted item comes from a kept row, every kept row is emitted, and the number emitted is the number of kept rows |
| LowStockReport.EmitIsKeptItems | src/pages/admin/6_reports/get_low_stock_report.php:121-150 | the loop's items are exactly the items of the rows whose stock is at most 40, in row order |
| LowStockReport.DayInRange | src/pages/admin/6_reports/get_low_stock_report.php:67-84 | with same-width dates and the start not after the end, a sale on any day from start to end, at any time from 00:00:00 to 23:59:59, is counted |
| LowStockReport.FirstAndLastSecondInRange | src/pages/admin/6_reports/get_low_stock_report.php:69-84 | a sale at midnight on the start day and one at 23:59:59 on the end day are both inside the range |
| LowStockReport.RowColumns | src/pages/admin/6_reports/get_low_stock_report.php:74-87 | a product's query row carries its code, name and stock; its category is "Uncategorized" when no category has its internal id; a product without a product code sells nothing in range |
| LowStockReport.EmitFromKept | src/pages/admin/6_reports/get_low_stock_report.php:139-149 | every emitted item is the item of a row with stock at most 40 |
| LowStockReport.KeptEmitted | src/pages/admin/6_reports/get_low_stock_report.php:139-149 | every row with stock at most 40 is emitted |
| LowStockReport.EmitCount | src/pages/admin/6_reports/get_low_stock_report.php:139-158 | the number of emitted items is the number of kept rows |
| LowStockReport.ReportNeverAvailable | src/pages/admin/6_reports/get_low_stock_report.php:136-149 | no emitted item is Available or has stock above 40, and there are at most as many items as rows |
| LowStockReport.ReportKeepsQueryOrder | src/pages/admin/6_reports/get_low_stock_report.php:88-150 | the items are the kept rows' items in query order, and so keep it: stock ascending, then units sold descending |
| LowStockReport.SmallCatalogueFullyReported | src/pages/admin/6_reports/get_low_stock_report.php:88-149 | with at most 1000 products, every product with stock at most 40 is reported |
| LowStockReport.ReportAtMostLimit | src/pages/admin/6_reports/get_low_stock_report.php:89-158 | at most 1000 items are reported |
| CheckoutClient.SpliceStart | src/pages/employee/3_checkout/checkout_EMP.js:71 | where `splice` starts removing always lies within the cart |
| CheckoutClient.CheckoutPage.constructor | src/pages/employee/3_checkout/checkout_EMP.js:17-53 | the page starts with no products and the cart restored from session storage |
| CheckoutClient.CheckoutPage.LoadProducts | src/pages/employee/3_checkout/checkout_EMP.js:20-42 | a successful fetch replaces the products with the mapped rows; a failed one keeps those already loaded |
| CheckoutClient.ProductOfFallbacks | src/pages/employee/3_checkout/checkout_EMP.js:27-35 | the id is the first present of product_code, productid and id, else ""; the name of product_name and name, else ""; the category of category_name and category, else ""; the price is `Number` of the first present of price, selling_price and unit_price, else 0; the stock is `Number` of a present stock, else 0; a falsy but present value is kept |
| CheckoutClient.CheckoutPage.AddProductToCart | src/pages/employee/3_checkout/checkout_EMP.js:59-68 | the page reports whether the id names a loaded product, and the cart becomes the specified merge-by-id add |
| CheckoutClient.CheckoutPage.RemoveFromCart | src/pages/employee/3_checkout/checkout_EMP.js:70-75 | the cart becomes the specified `splice(index, 1)` |
| CheckoutClient.CheckoutPage.ProcessCheckout | src/pages/employee/3_checkout/checkout_EMP.js:101-133 | an empty cart posts nothing; otherwise the body built from the cart is posted, and the cart is cleared or kept by the response rule |
| CheckoutClient.UnknownIdLeavesCart | src/pages/employee/3_checkout/checkout_EMP.js:60-61 | an id matching no loaded product leaves the cart unchanged |
| CheckoutClient.AddExistingRaisesQty | src/pages/employee/3_checkout/checkout_EMP.js:62-63 | adding a product already in the cart changes only that line's quantity, raised by `qty` |
| CheckoutClient.AddNewAppendsLine | src/pages/employee/3_checkout/checkout_EMP.js:62-64 | adding a product not yet in the cart appends exactly one line with its id, name, category, price and the quantity |
| CheckoutClient.FirstMatchingProductWins | src/pages/employee/3_checkout/checkout_EMP.js:60 | when several loaded products print as the same id, the first of them is added |
| CheckoutClient.AddKeepsIdsDistinct | src/pages/employee/3_checkout/checkout_EMP.js:62-64 | adding keeps the cart's ids unique |
| CheckoutClient.RemoveInRange | src/pages/employee/3_checkout/checkout_EMP.js:70-71 | removing position i of the cart removes exactly that line and keeps the others in order |
| CheckoutClient.RemoveOutOfRange | src/pages/employee/3_checkout/checkout_EMP.js:71 | a position at or past the end removes nothing; a negative one counts from the end; one below minus the length removes the first line |
| CheckoutClient.RemoveKeepsIdsDistinct | src/pages/employee/3_checkout/checkout_EMP.js:70-71 | removing never makes two lines share an id |
| CheckoutClient.SubtotalIsSum | src/pages/employee/3_checkout/checkout_EMP.js:103-240 | the subtotal is the sum of price times quantity over the lines |
| CheckoutClient.NaNLinePoisonsTotals | src/pages/employee/3_checkout/checkout_EMP.js:103-242 | a line with a non-numeric price or quantity makes subtotal, tax and total NaN |
| CheckoutClient.TotalsFromSubtotal | src/pages/employee/3_checkout/checkout_EMP.js:103-242 | tax is 12% of the subtotal and the total is 112% of it, unrounded, the same in the summary and the checkout |
| CheckoutClient.AddRaisesSubtotal | src/pages/employee/3_checkout/checkout_EMP.js:59-240 | adding a product raises the subtotal by the added quantity times its line's price |
| CheckoutClient.RemoveLowersSubtotal | src/pages/employee/3_checkout/checkout_EMP.js:70-240 | removing line i lowers the subtotal by that line's amount |
| CheckoutClient.PayloadMirrorsCart | src/pages/employee/3_checkout/checkout_EMP.js:109-116 | the body carries the txn id, a null employee id, one item with id, name, qty and price per cart line in cart order, and the summary's three figures |
| CheckoutClient.EmptyCartSendsNothing | src/pages/employee/3_checkout/checkout_EMP.js:102 | checkout of an empty cart leaves it empty |
| CheckoutClient.ClearedEvenWhenServerRefuses | src/pages/employee/3_checkout/checkout_EMP.js:88-125 | a reply that parses as JSON clears the cart even when it says `success: false` |
| CheckoutClient.CartKeptOnlyWhenDeclined | src/pages/employee/3_checkout/checkout_EMP.js:88-131 | a non-empty cart survives checkout exactly when the post failed or did not parse and the user declined to clear it; otherwise it becomes empty |
| CheckoutClient.VisibleIsFilter | src/pages/employee/3_checkout/checkout_EMP.js:172-176 | the grid shows exactly the products the filter accepts, as a subsequence of the product list |
| CheckoutClient.NoFilterShowsAll | src/pages/employee/3_checkout/checkout_EMP.js:169-174 | with no search text and category "all" or none, every product is shown |
| CheckoutClient.CategoryCaseInsensitive | src/pages/employee/3_checkout/checkout_EMP.js:170-173 | the category choice is compared ignoring letter case |
| CheckoutClient.ShownProductMatches | src/pages/employee/3_checkout/checkout_EMP.js:172-176 | a shown product is in the chosen category, ignoring case, and with search text it matches the name, the whole id or the category |
| CheckoutClient.ExactIdFound | src/pages/employee/3_checkout/checkout_EMP.js:169-175 | a search equal to a product's id, ignoring case and surrounding blanks, finds it under "all" |
| CheckoutClient.ProductIdPrefersCode | src/pages/employee/3_checkout/checkout_EMP.js:30 | a loaded product's id is its `product_code` whenever the row has one |
| DeleteCategory.RankBelow | src/pages/admin/2_categories/delete_category.php:26-30 | the number of rows among the first n ordered before row i is at most n |
| DeleteCategory.RankOf | src/pages/admin/2_categories/delete_category.php:26-30 | counting the rows ordered before row i computes its rank |
| DeleteCategory.Renumber | src/pages/admin/2_categories/delete_category.php:25-44 | the JOIN update leaves exactly the resequenced table |
| DeleteCategory.DeleteCategory | src/pages/admin/2_categories/delete_category.php:5-54 | the endpoint's answer and its new table are exactly those of the delete specification, including rollback at any failing step |
| DeleteCategory.FailureChangesNothing | src/pages/admin/2_categories/delete_category.php:6-53 | a missing or zero id, or a failure at any step, answers false and leaves the table as it was |
| DeleteCategory.RemovesExactlyThatRow | src/pages/admin/2_categories/delete_category.php:13-40 | a delete removes exactly the rows with that internal id; the others stay in table order with their internal id, name and description |
| DeleteCategory.RankBelowSelf | src/pages/admin/2_categories/delete_category.php:26-30 | a row's rank among the first n rows containing it is below n |
| DeleteCategory.RankBelowGrows | src/pages/admin/2_categories/delete_category.php:26-30 | a row ordered before another has a smaller rank |
| DeleteCategory.RankKeepsOrder | src/pages/admin/2_categories/delete_category.php:26-30 | row a comes before row b in `category_id` order exactly when its new number is smaller |
| DeleteCategory.RankIsInjective | src/pages/admin/2_categories/delete_category.php:26-30 | distinct rows get distinct ranks below N |
| DeleteCategory.RankSetSize | src/pages/admin/2_categories/delete_category.php:26-30 | the first n rows get n different ranks |
| DeleteCategory.RanksCoverAll | src/pages/admin/2_categories/delete_category.php:26-30 | every number 0 to N-1 is some row's rank |
| DeleteCategory.NumbersAreOneToN | src/pages/admin/2_categories/delete_category.php:25-40 | after a successful delete the numbers are exactly 1..N, each used once, and follow the old `category_id` order |
| DeleteCategory.ResequenceCoversOneToN | src/pages/admin/2_categories/delete_category.php:25-40 | every number 1..N is given to some row |
| DeleteCategory.ResequenceWithinOneToN | src/pages/admin/2_categories/delete_category.php:25-40 | every number given lies in 1..N |
| DeleteCategory.ResequenceKeepsOrder | src/pages/admin/2_categories/delete_category.php:26-40 | the new numbers are distinct and follow the old order |
| AddCategory.LowestGapIsLowest | src/pages/admin/2_categories/add_category.php:17-22 | the chosen number is the smallest existing one whose successor is unused |
| AddCategory.NextCategoryId | src/pages/admin/2_categories/add_category.php:15-28 | an empty table gives 1; otherwise the result's predecessor is in use and the result is not |
| AddCategory.NextIsFirstGap | src/pages/admin/2_categories/add_category.php:17-22 | no existing number with an unused successor lies below the chosen number's predecessor |
| AddCategory.AddCategory | src/pages/admin/2_categories/add_category.php:5-48 | the endpoint's answer and its new table and auto-increment counter are exactly those of the add specification |
| AddCategory.RejectedAddChangesNothing | src/pages/admin/2_categories/add_category.php:6-47 | a blank trimmed name, or a failing INSERT, is an error that inserts nothing; a blank name is "name required" |
| AddCategory.AddAppendsOneRow | src/pages/admin/2_categories/add_category.php:28-45 | a successful add appends one row with the next internal id, an unused number and the trimmed fields, and returns its C code |
| AddCategory.NextIsUnused | src/pages/admin/2_categories/add_category.php:17-22 | the chosen number is never already in use |
| AddCategory.ContiguousGivesNext | src/pages/admin/2_categories/add_category.php:17-22 | numbers 1..n in any order give n + 1 |
| AddCategory.GapBelowMinimumNotFilled | src/pages/admin/2_categories/add_category.php:17-22 | a gap below the smallest number is not filled: 2 and 3 give 4 |
| AddCategory.FirstGapFilled | src/pages/admin/2_categories/add_category.php:17-22 | the first gap above an existing number is filled: 1, 2 and 4 give 3 |
| Common.PadLeft3RoundTrip | src/pages/admin/2_categories/add_category.php:43 | the padded decimal text of n is all digits and reads back as n |
| Common.PadLeft3Injective | src/pages/admin/2_categories/add_category.php:43 | distinct numbers give distinct padded texts |
| Common.PrefixedCodeReadsBack | src/pages/admin/2_categories/add_category.php:43 | a code is its letter, then at least three digits whose value is the number |
| Common.PrefixedCodeInjective | src/pages/admin/2_categories/add_category.php:43 | distinct numbers get distinct codes |
| Common.TrimEnds | src/pages/admin/2_categories/add_category.php:6-7 | trimmed text neither starts nor ends with whitespace and is no longer than the input |
| Common.TrimAllSpace | src/pages/admin/2_categories/add_category.php:6-9 | text made only of whitespace trims to "", so it counts as missing |
| ProductsAdmin.ProductsAdminPage.constructor | src/pages/admin/3_products/products_AD.js:33-35 | the page starts with no categories, no products and nothing being edited |
| ProductsAdmin.ProductsAdminPage.LoadCategories | src/pages/admin/3_products/products_AD.js:45-66 | a successful fetch maps each category row, with its code fallback, in order; a failed one leaves no categories |
| ProductsAdmin.ProductsAdminPage.LoadProducts | src/pages/admin/3_products/products_AD.js:91-103 | a successful fetch stores the rows; a failed one leaves no products |
| ProductsAdmin.ProductsAdminPage.ResetEditing | src/pages/admin/3_products/products_AD.js:185-199 | opening or closing the modal returns to adding |
| ProductsAdmin.ProductsAdminPage.OpenEdit | src/pages/admin/3_products/products_AD.js:201-202 | opening the edit modal makes later submits update that product |
| ProductsAdmin.ProductsAdminPage.Submit | src/pages/admin/3_products/products_AD.js:232-285 | the posted body is the normalised form, and it carries an id exactly when a product is being edited |
| ProductsAdmin.LevelBands | src/pages/admin/3_products/products_AD.js:117-135 | each level as the stock it covers: at most 0 Unavailable, up to 20 Low, up to 40 Medium, above 40 High |
| ProductsAdmin.LevelMonotone | src/pages/admin/3_products/products_AD.js:123-135 | more stock never gives a lower level |
| ProductsAdmin.NonNumericStockUnavailable | src/pages/admin/3_products/products_AD.js:117-125 | a stock that does not read as a number counts as 0 and shows Unavailable |
| ProductsAdmin.MissingOrTextStockUnavailable | src/pages/admin/3_products/products_AD.js:117 | a missing stock and the text "abc" both count as 0 |
| ProductsAdmin.StatusMatchesStock | src/pages/admin/3_products/products_AD.js:120-138 | the status cell always has the stock cell's class, and that class names the status text |
| ProductsAdmin.ClassNamesTheLevel | src/pages/admin/3_products/products_AD.js:120-135 | each level's class is "stock-" followed by its status text in lower case |
| ProductsAdmin.DisplayCodeFallback | src/pages/admin/3_products/products_AD.js:113 | the shown code is the stored `product_code`, or else "P" and the id padded to three digits, the code the server assigns |
| ProductsAdmin.CategoryCodeFallbacks | src/pages/admin/3_products/products_AD.js:40-60 | with no stored code, both derivations give the server's C code for a non-zero number; `codeFromCategory` skips a zero number and the loader prints a missing one as "Cundefined" |
| ProductsAdmin.SaveRejected | src/pages/admin/3_products/products_AD.js:243-246 | a blank name or no chosen category posts nothing |
| ProductsAdmin.SaveNormalises | src/pages/admin/3_products/products_AD.js:235-262 | a posted body has the trimmed name; an unparsable price or stock is 0; the status "unavailable" forces stock 0; the id is sent exactly when editing |
| ProductsAdmin.SaveReadsDigits | src/pages/admin/3_products/products_AD.js:239-240 | a stock typed as digits is sent as its value |
| ProductsEmployee.EmployeeProductsPage.constructor | src/pages/employee/2_products/products_EMP.js:48 | the table starts as served and nothing has been rendered yet |
| ProductsEmployee.EmployeeProductsPage.Load | src/pages/employee/2_products/products_EMP.js:106-134 | one run of the loader does exactly what the loader specification does with the fetch's outcome |
| ProductsEmployee.EmployeeProductsPage.StartWatching | src/pages/employee/2_products/products_EMP.js:182-184 | starting to watch forgets the last rendered data, so the next load renders |
| ProductsEmployee.StockClassBands | src/pages/employee/2_products/products_EMP.js:32-39 | each class as the stock it covers: exactly 0 unavailable, otherwise up to 20 low, up to 40 medium, above that high; a negative stock is low |
| ProductsEmployee.StatusUnavailableIffZero | src/pages/employee/2_products/products_EMP.js:40-82 | the status is Unavailable exactly when the stock is 0, and then the stock cell also says "Unavailable" with the unavailable class |
| ProductsEmployee.NonNumericStockAvailable | src/pages/employee/2_products/products_EMP.js:33-82 | a stock that is not a number has no class, shows as NaN and is reported Available |
| ProductsEmployee.MissingStockUnavailable | src/pages/employee/2_products/products_EMP.js:71 | a missing or falsy stock is 0, hence Unavailable |
| ProductsEmployee.DisplayedIdFallback | src/pages/employee/2_products/products_EMP.js:67 | the shown id is `product_code`, else `id`, else "" |
| ProductsEmployee.RenderOneRowEach | src/pages/employee/2_products/products_EMP.js:60-88 | a non-empty list renders one row per product, in order |
| ProductsEmployee.LoadIdempotent | src/pages/employee/2_products/products_EMP.js:106-134 | loading twice with the same outcome is the same as loading once |
| ProductsEmployee.LoadRendersNewData | src/pages/employee/2_products/products_EMP.js:121-128 | data equal to the last rendered data changes nothing; other data is rendered and remembered |
| ProductsEmployee.AsWrittenErrorMasksData | src/pages/employee/2_products/products_EMP.js:114-133 | as written, an error between two loads of the same data leaves the error line on screen |
| ProductsEmployee.CorrectedLoadShowsData | src/pages/employee/2_products/products_EMP.js:114-133 | when an error also forgets the last data, the table always shows the remembered data and every successful load shows its data |
| ProductsEmployee.EmployeeProductsPage.CorrectedLoad | src/pages/employee/2_products/products_EMP.js:106-134 | the corrected loader's new state is the corrected step's, which forgets the last data on an error |
| AddProduct.CategoryOf | src/pages/admin/3_products/add_product.php:34 | the joined category is one with the product's internal category id; a NULL id joins none, and no category is joined only when none has that id |
| AddProduct.AddProduct | src/pages/admin/3_products/add_product.php:5-45 | whether or not the unchecked code UPDATE succeeds, the endpoint's answer and its new product table and counter are exactly those of the add specification |
| AddProduct.RejectedAddInsertsNothing | src/pages/admin/3_products/add_product.php:11-45 | a blank trimmed name, or a statement that cannot be prepared or executed, inserts nothing; a blank name is "name required" |
| AddProduct.FailedCodeUpdateStillSucceeds | src/pages/admin/3_products/add_product.php:23-42 | when the unchecked code UPDATE fails the add still answers success, the new row keeps a NULL code, and the row read back reports none while the fallback answer still shows the code |
| AddProduct.MissingFieldsDefault | src/pages/admin/3_products/add_product.php:7-9 | a missing price is 0.00, a missing stock 0 and a missing category NULL |
| AddProduct.OnlyNewRowGetsCode | src/pages/admin/3_products/add_product.php:23-26 | a successful add appends one row with the new id and its P code, and every older row keeps its code |
| AddProduct.ProductCodeNotTruncated | src/pages/admin/3_products/add_product.php:25 | the product code is "P" and at least three digits reading back as the id, so a four-digit id gives a five-character code |
| AddProduct.FourDigitCode | src/pages/admin/3_products/add_product.php:25 | id 1234 gives a code of five characters |
| AddProduct.JoinedCategoryCodeTruncates | src/pages/admin/3_products/add_product.php:32 | the reported category code is cut by LPAD: number 1234 is reported "C123" although its own code is "C1234"; short numbers agree |
| TransactionDetails.HeaderByTxn | src/pages/employee/4_transactions/get_transaction_details.php:33-35 | the lookup by `txn_id` finds a stored header with that txn id, and finds none exactly when no header has it |
| TransactionDetails.HeaderById | src/pages/employee/4_transactions/get_transaction_details.php:37-41 | the lookup by numeric id finds a stored header with that id, and finds none exactly when no header has it |
| TransactionDetails.EmployeeName | src/pages/employee/4_transactions/get_transaction_details.php:49-55 | no name for an empty (NULL or 0) `employee_id`; a name found is the `full_name` of an employee with that id; no name for a nonzero id only when no employee has it |
| TransactionDetails.MissingIdRejected | src/pages/employee/4_transactions/get_transaction_details.php:21-22 | an absent, blank or "0" id is answered 400 |
| TransactionDetails.FailedQueryIsServerError | src/pages/employee/4_transactions/get_transaction_details.php:24-139 | with an id present, a query that throws is answered 500 |
| TransactionDetails.ResolutionOrder | src/pages/employee/4_transactions/get_transaction_details.php:33-43 | a header with that `txn_id` wins; otherwise a numeric id is looked up as the numeric id; otherwise the answer is 404 |
| TransactionDetails.FoundReportsHeader | src/pages/employee/4_transactions/get_transaction_details.php:45-77 | a resolved header is reported with its own txn id, subtotal, tax and employee id; the total is its total when present and otherwise its subtotal |
| TransactionDetails.ItemsFallback | src/pages/employee/4_transactions/get_transaction_details.php:57-67 | the string-key lookup runs only when no item row has the header's numeric id and the txn id is not empty; otherwise exactly the numeric-key rows are listed |
| TransactionDetails.ItemNames | src/pages/employee/4_transactions/get_transaction_details.php:58 | every listed item is a stored row with that key, named by the joined product's name, else its stored name, else "" |
| TransactionDetails.NumericKeyRows | src/pages/employee/4_transactions/get_transaction_details.php:58-60 | the numeric-key rows are as many as the item rows with that foreign key, and none exactly when no row has it |
| TransactionDetails.KeyedRows | src/pages/employee/4_transactions/get_transaction_details.php:58-67 | each listing is exactly the item rows with the key, in table order, each with its joined product name: the numeric foreign key, or the string key `COALESCE(txn_id, txn, transaction_id)` |
| DeleteTransaction.DeleteTransaction | src/pages/admin/5_transactions/delete_transaction.php:17-47 | the three DELETEs run in order and leave exactly the tables and answer of the cascade specification; product stock is never touched |
| DeleteTransaction.MissingIdDeletesNothing | src/pages/admin/5_transactions/delete_transaction.php:17-21 | a missing or falsy id fails and changes nothing |
| DeleteTransaction.DeletesExactlyTheKeyedRows | src/pages/admin/5_transactions/delete_transaction.php:26-44 | with no failing statement, exactly the rows keyed by the string id go from all three tables, the others stay in order, and the answer is success |
| DeleteTransaction.SuccessWhenNothingMatches | src/pages/admin/5_transactions/delete_transaction.php:26-44 | an id that matches no row still reports success, and nothing changes |
| DeleteTransaction.PartialDeleteStays | src/pages/admin/5_transactions/delete_transaction.php:24-47 | with no transaction, a failure of the second or third statement answers false but leaves the earlier deletions applied |
| DeleteTransaction.AsWrittenLeavesOrphan | src/pages/admin/5_transactions/delete_transaction.php:26-28 | as written, deleting header "T1" leaves its checkout-written item row pointing at no header |
| DeleteTransaction.SavedRowsSurviveDelete | src/pages/admin/5_transactions/delete_transaction.php:26 | every item row a completed checkout writes survives the delete of that sale |
| DeleteTransaction.CorrectedKeepsNoOrphans | src/pages/admin/5_transactions/delete_transaction.php:26-28 | a delete that also removes the item rows by the header's numeric id keeps every item row pointing at an existing header, and removes exactly the keyed headers |
| DeleteTransaction.CorrectedDeleteTransaction | src/pages/admin/5_transactions/delete_transaction.php:24-47 | the endpoint with the corrected item statement leaves the tables of the corrected cascade and touches no product |
| LocalIds.CodeReadsBack | src/pages/admin/4_employees/employees.js:18 | `parseInt(id.substring(1))` reads a generated id back as its number |
| LocalIds.NextCodeIsCode | src/pages/admin/4_employees/employees.js:5-7 | the next id is the letter and the counter padded to three digits, and it reads back as the counter |
| LocalIds.NaNCounterSticks | src/pages/admin/4_employees/employees.js:17-124 | a last id with no digits after its letter makes the counter NaN, the next id then reads "NaN" and incrementing keeps it NaN |
| LocalIds.WellNumberedIdsUnique | src/pages/admin/4_employees/employees.js:5-124 | in a list numbered by the counter the ids are unique |
| LocalIds.LoadWellNumbered | src/pages/admin/4_employees/employees.js:15-21 | loading a list of increasing generated ids sets the counter to the last one's number plus one, or 1 for an empty list, and the list is then well numbered |
| LocalIds.AppendNextKeepsWellNumbered | src/pages/admin/4_employees/employees.js:110-124 | appending an entry with the next id and advancing the counter keeps the list well numbered, and the new id is not already taken |
| LocalIds.ReplaceKeepsWellNumbered | src/pages/admin/4_employees/employees.js:95-103 | replacing an entry by one with the same id keeps the list well numbered |
| LocalIds.FilterKeepsWellNumbered | src/pages/admin/4_employees/employees.js:150 | filtering keeps the list well numbered |
| EmployeesClient.Mask | src/pages/admin/4_employees/employees.js:183-185 | the mask has max(6, password length) characters |
| EmployeesClient.EmployeesPage.constructor | src/pages/admin/4_employees/employees.js:1-3 | the page starts with no employees, counter 1 and no row being edited |
| EmployeesClient.EmployeesPage.LoadEmployeesData | src/pages/admin/4_employees/employees.js:9-24 | without the table nothing changes; otherwise the list is the saved one, or empty, and the counter is recomputed from its last id |
| EmployeesClient.EmployeesPage.EditEmployee | src/pages/admin/4_employees/employees.js:131-142 | later submits edit the employee with the row's id |
| EmployeesClient.EmployeesPage.CloseEmployeeModal | src/pages/admin/4_employees/employees.js:61-64 | closing the modal ends the edit |
| EmployeesClient.EmployeesPage.AddEmployee | src/pages/admin/4_employees/employees.js:70-129 | the outcome and the new list, counter and edit state are exactly those of the save specification |
| EmployeesClient.EmployeesPage.DeleteEmployee | src/pages/admin/4_employees/employees.js:144-154 | when confirmed, exactly the employees with the row's id go; otherwise nothing changes |
| EmployeesClient.ValidateIsStrongPassword | src/pages/admin/4_employees/employees.js:66-68 | `validatePassword` holds exactly when the password has at least eight characters, one of them A-Z |
| EmployeesClient.RejectedSaveChangesNothing | src/pages/admin/4_employees/employees.js:73-87 | a missing field or a weak password is refused and changes no list, counter or edit state |
| EmployeesClient.AddAppendsOne | src/pages/admin/4_employees/employees.js:109-127 | a successful add appends exactly one employee with the next id, the trimmed fields and today's date, advances the counter and ends the edit |
| EmployeesClient.AddKeepsWellNumbered | src/pages/admin/4_employees/employees.js:109-125 | an add keeps a well-numbered list well numbered and every id unique |
| EmployeesClient.EditReplacesInPlace | src/pages/admin/4_employees/employees.js:91-107 | an edit replaces the first employee with that id, keeping its id and creation date, changes no other entry, recomputes the counter and keeps the list well numbered |
| EmployeesClient.EditOfMissingIdThrows | src/pages/admin/4_employees/employees.js:92-102 | a submit while editing an id no longer in the list throws and changes nothing |
| EmployeesClient.DeleteRemovesThatId | src/pages/admin/4_employees/employees.js:150 | a delete keeps exactly the employees with another id, in order, and keeps the list well numbered |
| EmployeesClient.MaskShape | src/pages/admin/4_employees/employees.js:183-185 | the mask is all bullets, at least six and at least as long as the password |
| EmployeesClient.ShortPasswordsLookAlike | src/pages/admin/4_employees/employees.js:183-185 | passwords of up to six characters have the same mask |
| CategoriesClient.CategoriesPage.constructor | src/pages/admin/2_categories/categories.js:1-3 | the page starts with no categories, counter 1 and no row being edited |
| CategoriesClient.CategoriesPage.LoadCategoriesData | src/pages/admin/2_categories/categories.js:9-24 | without the table nothing changes; otherwise the list is the saved one, or empty, and the counter is recomputed from its last id |
| CategoriesClient.CategoriesPage.EditCategory | src/pages/admin/2_categories/categories.js:104-112 | later submits edit the category with the row's id |
| CategoriesClient.CategoriesPage.CloseCategoryModal | src/pages/admin/2_categories/categories.js:59-62 | closing the modal ends the edit |
| CategoriesClient.CategoriesPage.AddCategory | src/pages/admin/2_categories/categories.js:64-102 | the outcome and the new list, counter and edit state are exactly those of the save specification |
| CategoriesClient.CategoriesPage.DeleteCategory | src/pages/admin/2_categories/categories.js:114-126 | when confirmed, exactly the categories with the row's id go; otherwise nothing changes |
| CategoriesClient.RejectedSaveChangesNothing | src/pages/admin/2_categories/categories.js:67-73 | a blank name or description changes nothing, not even the edit state |
| CategoriesClient.AcceptedSaveEndsEdit | src/pages/admin/2_categories/categories.js:75-99 | every accepted submit ends the edit |
| CategoriesClient.AddAppendsOne | src/pages/admin/2_categories/categories.js:84-94 | a successful add appends exactly one category with the next id and the trimmed fields, and advances the counter |
| CategoriesClient.AddKeepsWellNumbered | src/pages/admin/2_categories/categories.js:84-94 | an add keeps a well-numbered list well numbered and every id unique |
| CategoriesClient.EditReplacesInPlace | src/pages/admin/2_categories/categories.js:75-83 | an edit replaces the first category with that id, keeping its id; no other entry and not the counter changes, and the list stays well numbered |
| CategoriesClient.EditOfMissingIdIsLost | src/pages/admin/2_categories/categories.js:76-83 | a submit while editing an id no longer in the list is accepted but saves nothing, and the edit ends |
| CategoriesClient.DeleteRemovesThatId | src/pages/admin/2_categories/categories.js:120 | a delete keeps exactly the categories with another id, in order, and keeps the list well numbered |
| CategoriesClient.DeleteLastThenReloadReusesNumber | src/pages/admin/2_categories/categories.js:17-120 | with increasing numbers, deleting the last category removes exactly it; a reload then sets the counter to the previous entry's number plus one, which is at most the deleted number |
| CategoriesClient.ContiguousDeleteLastReusesId | src/pages/admin/2_categories/categories.js:17-120 | with consecutive numbers, as a list built only by adds has, a reload after deleting the last category sets the counter to exactly the deleted number, so the next add reuses its id |
| CategoriesClient.DropLastById | src/pages/admin/2_categories/categories.js:120 | filtering out the last entry's id, which no earlier entry has, gives back the earlier entries |
| CategoriesClient.LoadPrefix | src/pages/admin/2_categories/categories.js:17-21 | reloading the list without its last entry sets the counter past the entry before it |
| DashboardAdmin.StockStats | src/pages/admin/1_dashboard/dashboard_AD.js:123-145 | the stock loop yields the sum of stock times price, the products with stock from 0 to 40 as the low figure, and the products with stock exactly 0 as the out-of-stock figure |
| DashboardAdmin.Highest | src/pages/admin/1_dashboard/dashboard_AD.js:177-181 | the loop finds the largest amount, or 0 when no amount is positive |
| DashboardAdmin.LoadSalesMetrics | src/pages/admin/1_dashboard/dashboard_AD.js:157-189 | today's and the month's totals are the sums of the amounts, the count is the month's number of transactions, the average is the month's total over its count (0 for none) and the highest is the month's largest amount with a floor of 0 |
| DashboardAdmin.OutAndLowDisjoint | src/pages/admin/1_dashboard/dashboard_AD.js:137-138 | no product is both out of stock and low, and one of the two holds exactly when the stock is from 0 to 40 |
| DashboardAdmin.LowFigureCountsZeroToForty | src/pages/admin/1_dashboard/dashboard_AD.js:137-145 | the displayed low figure, low plus out, counts exactly the products with stock from 0 to 40 |
| DashboardAdmin.NegativeStockUncounted | src/pages/admin/1_dashboard/dashboard_AD.js:137-138 | a negative stock is counted neither as out of stock nor as low |
| DashboardAdmin.StockTextWithoutDigitsIsOut | src/pages/admin/1_dashboard/dashboard_AD.js:131-137 | stock text with no digits reads as 0 and counts as out of stock |
| DashboardAdmin.FilterDropsUnit | src/pages/admin/1_dashboard/dashboard_AD.js:131 | stripping characters other than digits, "." and "-" turns "12 pcs" into "12" |
| DashboardAdmin.TwelveReads | src/pages/admin/1_dashboard/dashboard_AD.js:131 | the text "12" reads as the number 12 |
| DashboardAdmin.StockTextWithUnitIsRead | src/pages/admin/1_dashboard/dashboard_AD.js:129-138 | the stock "12 pcs" is read as 12 and counts as low |
| DashboardAdmin.CategoryCountBounds | src/pages/admin/1_dashboard/dashboard_AD.js:114-119 | without the categories endpoint the count is at most the number of products; the distinct product categories number at most one per product and at least one when there are products, and every product's key is among them |
| DashboardAdmin.UncategorizedCountedOnce | src/pages/admin/1_dashboard/dashboard_AD.js:117 | products without a category all count under one "Uncategorized" key |
| DashboardAdmin.SumAtMostCountTimesBound | src/pages/admin/1_dashboard/dashboard_AD.js:174 | the month's total is at most its count times any bound on the amounts |
| DashboardAdmin.AverageAtMostHighest | src/pages/admin/1_dashboard/dashboard_AD.js:174-181 | the average sale never exceeds the highest sale shown |
| DashboardAdmin.NoTransactionsGivesZeros | src/pages/admin/1_dashboard/dashboard_AD.js:175-181 | with no transactions the average and the highest sale are both 0 |
| DashboardAdmin.HighestFloorIsZero | src/pages/admin/1_dashboard/dashboard_AD.js:177-181 | when no amount is positive, the highest sale shown is 0 |
| Reports.InsertDesc | src/pages/admin/6_reports/reports.js:79 | inserting an entry into the ranking keeps every entry and adds the new one, as a multiset |
| Reports.SortDesc | src/pages/admin/6_reports/reports.js:79 | sorting by sales, highest first, is a permutation of the entries |
| Reports.EmployeeStats | src/pages/admin/6_reports/reports.js:60-78 | the grouping loop yields one entry per employee name, in order of first appearance, with that employee's summed sales and count |
| Reports.ReportsPage.constructor | src/pages/admin/6_reports/reports.js:5 | the page starts with no reports |
| Reports.ReportsPage.LoadReports | src/pages/admin/6_reports/reports.js:115-118 | the saved list is loaded, or none when nothing is saved |
| Reports.ReportsPage.GenerateReport | src/pages/admin/6_reports/reports.js:15-112 | the page's list gains the generated report at its end, and is unchanged when both dates are not given or the window is empty |
| Reports.ReportsPage.DeleteReport | src/pages/admin/6_reports/reports.js:211-216 | a confirmed delete removes every report with that id; a declined one changes nothing |
| Reports.NamesMembers | src/pages/admin/6_reports/reports.js:62-73 | the employee names are exactly those of the transactions, each once |
| Reports.NoShareWithoutName | src/pages/admin/6_reports/reports.js:62-71 | an employee without transactions has zero sales and zero count |
| Reports.ShareAppend | src/pages/admin/6_reports/reports.js:69-70 | one more transaction adds its total and one to its own employee only |
| Reports.GroupSumAppend | src/pages/admin/6_reports/reports.js:62-78 | one more transaction raises the entries' summed sales by its total when its employee has an entry |
| Reports.GroupsSum | src/pages/admin/6_reports/reports.js:62-83 | the entries' sales add up to the sales of all the transactions |
| Reports.GroupsDistinct | src/pages/admin/6_reports/reports.js:62-78 | no employee name has two entries |
| Reports.InsertedFrom | src/pages/admin/6_reports/reports.js:79 | every entry after an insertion is the inserted one or an old one |
| Reports.InsertKeepsSorted | src/pages/admin/6_reports/reports.js:79 | inserting into a ranking sorted highest first keeps it sorted |
| Reports.SortIsSorted | src/pages/admin/6_reports/reports.js:79 | the sorted ranking is ordered by sales, highest first |
| Reports.InsertSum | src/pages/admin/6_reports/reports.js:79 | an insertion adds the inserted entry's sales to the sum |
| Reports.SortSum | src/pages/admin/6_reports/reports.js:79-83 | sorting keeps the summed sales |
| Reports.InsertKeepsNamesDistinct | src/pages/admin/6_reports/reports.js:79 | inserting an entry for a new name keeps the names distinct |
| Reports.SortKeepsNamesDistinct | src/pages/admin/6_reports/reports.js:79 | sorting keeps the names distinct |
| Reports.MissingDatesNoReport | src/pages/admin/6_reports/reports.js:20-23 | without both a start and an end date there is no report |
| Reports.WindowInclusive | src/pages/admin/6_reports/reports.js:27-30 | a transaction is in the window exactly when its time, the start and the end all parse and it lies between the two, both included |
| Reports.WindowKeepsOrder | src/pages/admin/6_reports/reports.js:27-30 | the window keeps the stored order |
| Reports.EmptyWindowNoReport | src/pages/admin/6_reports/reports.js:32-35 | when no stored transaction falls in the window there is no report |
| Reports.GeneratedTotals | src/pages/admin/6_reports/reports.js:37-105 | a report counts the window's transactions and carries the type, dates, generation date, id and "Admin"; sales and inventory reports total the window; sales details hold the total and the count, inventory details the count; any other type but "employee" totals 0 with no details |
| Reports.RankingSortedAndSummed | src/pages/admin/6_reports/reports.js:73-83 | the ranking is sorted highest first and its sales add up to the window's total |
| Reports.RankingNamesDistinct | src/pages/admin/6_reports/reports.js:73-78 | the ranking has one entry per distinct name |
| Reports.RankingRowsAreGroups | src/pages/admin/6_reports/reports.js:62-78 | each entry belongs to an employee of the window and holds that employee's sales and count |
| Reports.RankingCoversNames | src/pages/admin/6_reports/reports.js:62-78 | every employee of the window has an entry |
| Reports.EmployeeRanking | src/pages/admin/6_reports/reports.js:59-84 | the employee report's details are the grouped entries sorted highest first, no name twice, and its total is the window's total |
| Reports.EmployeeTotalIsSalesTotal | src/pages/admin/6_reports/reports.js:46-83 | for the same window the employee report and the sales report have the same total |
| Reports.LastDigits | src/pages/admin/6_reports/reports.js:38 | the last k decimal digits of a number of at least k digits are its value modulo 10^k |
| Reports.LowDigitsPeriodic | src/pages/admin/6_reports/reports.js:38 | the last k digits do not change when 10^k is added |
| Reports.Last5Digits | src/pages/admin/6_reports/reports.js:38 | the last five characters of a number of at least five digits are its low five digits |
| Reports.ReportIdsRepeat | src/pages/admin/6_reports/reports.js:38 | report ids repeat every 100000 ms, so two reports 100 seconds apart share an id |
| Reports.DeleteRemovesThatId | src/pages/admin/6_reports/reports.js:214 | a delete keeps exactly the reports with another id, in their order |
| TransactionsClient.TransactionsPage.constructor | src/pages/admin/5_transactions/transactions.js:5 | the page starts with no transactions |
| TransactionsClient.TransactionsPage.LoadTransactions | src/pages/admin/5_transactions/transactions.js:81-83 | the saved list is loaded, or none when nothing is saved |
| TransactionsClient.TransactionsPage.ApplyFilters | src/pages/admin/5_transactions/transactions.js:24-32 | the list shown is the stored list under both filters; the stored list is not changed |
| TransactionsClient.TransactionsPage.ViewTransaction | src/pages/admin/5_transactions/transactions.js:36-58 | the view is that of the first transaction with the id, or none |
| TransactionsClient.TransactionsPage.DeleteTransaction | src/pages/admin/5_transactions/transactions.js:68-72 | a confirmed delete removes every transaction with that id; a declined one changes nothing |
| TransactionsClient.FiltersCombineWithAnd | src/pages/admin/5_transactions/transactions.js:28-30 | a transaction is shown exactly when it matches both the date prefix and the employee id, an empty value matching all, in the stored order |
| TransactionsClient.NoFilterShowsAll | src/pages/admin/5_transactions/transactions.js:28-30 | with neither filter set the whole list is shown |
| TransactionsClient.FiltersCommute | src/pages/admin/5_transactions/transactions.js:29-30 | the order of the two filters does not matter |
| TransactionsClient.ViewShowsFirstMatch | src/pages/admin/5_transactions/transactions.js:37-58 | the view is found exactly when some transaction has the id; it shows the first one, its total and one line per item with subtotal quantity times price |
| TransactionsClient.DeleteRemovesThatId | src/pages/admin/5_transactions/transactions.js:71 | a delete keeps exactly the transactions with another id, in their order |
| TransactionsClient.ButtonMatchesOnlyTextIds | src/pages/admin/5_transactions/transactions.js:37-109 | the buttons pass the id as text, so a numeric id is matched by neither View nor Delete, while a text id is |
| StockRules.AgreeWhenNotNegative | src/pages/admin/3_products/products_AD.js:117-138 | on a stock of at least 0 the admin table, the low-stock report and the employee table draw the same bands: out at 0, lowest band to 20, middle to 40, top above |
| StockRules.DisagreeWhenNegative | src/pages/employee/2_products/products_EMP.js:32-42 | below 0 the admin table says Unavailable, the report Critical, and the employee table colours the stock low but calls it Available |
| StockRules.MinusOneExample | src/pages/employee/2_products/products_EMP.js:32-42 | a stock of -1 shows the disagreement |
| StockRules.ReportKeepsAllButAvailable | src/pages/admin/6_reports/get_low_stock_report.php:129-149 | the report keeps a row exactly when its status is not Available |
| StockRules.DashboardAgainstTables | src/pages/admin/1_dashboard/dashboard_AD.js:137-138 | the dashboard counts a product out exactly when the employee table calls it Unavailable, and low exactly when the admin table puts it in the Low or Medium band; negative stock is in neither count |
| StockRules.AdminCountsMoreUnavailable | src/pages/admin/3_products/products_AD.js:117-138 | over a list the admin table finds at least as many products unavailable as the report, and as many when no stock is negative |
| UpdateEmployee.UpdateEmployee | src/pages/admin/4_employees/update_employee.php:13-123 | the endpoint's answer and new employee table are those of the update rules applied to the old table, including a 500 when the username SELECT or the UPDATE throws |
| UpdateEmployee.ResetRuleIsStrongPassword | src/pages/admin/4_employees/update_employee.php:40 | the reset accepts a password exactly when it has at least eight characters and one of A-Z |
| UpdateEmployee.ResetChangesOnlyThatHash | src/pages/admin/4_employees/update_employee.php:33-51 | a successful reset had a code and a strong password, and changes only the hash of the rows with that code |
| UpdateEmployee.WeakResetRejected | src/pages/admin/4_employees/update_employee.php:35-43 | a reset without a code or with a weak password fails and changes nothing |
| UpdateEmployee.GeneralUpdateRequiredFields | src/pages/admin/4_employees/update_employee.php:62-66 | a general update without a code or full name answers 400 and changes nothing |
| UpdateEmployee.UsernameTakenRejected | src/pages/admin/4_employees/update_employee.php:73-79 | a username held by a row with another code stops the update with nothing changed: "already used" when the SELECT runs, a failure in any case |
| UpdateEmployee.FailedUsernameQueryChangesNothing | src/pages/admin/4_employees/update_employee.php:71-80 | a general update with a username whose uniqueness SELECT throws answers 500 and changes nothing |
| UpdateEmployee.NoUsernameNoQuery | src/pages/admin/4_employees/update_employee.php:73 | without a username the uniqueness SELECT is not run, so its failure cannot affect the update |
| UpdateEmployee.GeneralUpdateRows | src/pages/admin/4_employees/update_employee.php:83-118 | a general update sets the full name, and the email, phone and username to their trimmed text or NULL when empty, on the rows with that code; it keeps their hash without a password and replaces it with `pwHash` with one, and leaves the other rows alone |
| UpdateEmployee.GeneralUpdateSkipsPasswordRule | src/pages/admin/4_employees/update_employee.php:83-99 | the general update stores a short lower-case password that the reset would refuse |
| UpdateEmployee.UpdateKeepsUsernamesUnique | src/pages/admin/4_employees/update_employee.php:73-116 | both kinds of update keep non-NULL usernames unique across employee codes |
| AddEmployee.AddEmployee | src/pages/admin/4_employees/add_employee.php:28-69 | the endpoint's answer, new employee table and next id are those of the add rules applied to the old ones, including a 500 when the duplicate SELECT or the INSERT throws |
| AddEmployee.RequiredFields | src/pages/admin/4_employees/add_employee.php:42-46 | a blank or "0" code or full name answers 400 and inserts nothing |
| AddEmployee.DuplicateRejected | src/pages/admin/4_employees/add_employee.php:50-55 | an existing code, or an existing non-NULL username equal to the given one, inserts nothing: "already exists" when the SELECT runs, a failure in any case |
| AddEmployee.FailedClashQueryInsertsNothing | src/pages/admin/4_employees/add_employee.php:48-51 | a valid request whose duplicate SELECT throws answers 500 and inserts nothing |
| AddEmployee.AddedRow | src/pages/admin/4_employees/add_employee.php:57-65 | a successful add appends exactly one row with the next id: the trimmed code and name, the trimmed email, phone and username or NULL when empty, `pwHash` for a non-empty password and NULL otherwise, and today's date |
| AddEmployee.AddKeepsKeysUnique | src/pages/admin/4_employees/add_employee.php:48-65 | adding keeps employee codes unique and non-NULL usernames unique across codes |
| JsValues.ParseIntDigits | src/pages/admin/4_employees/employees.js:18 | parseInt reads a non-empty run of digits as its decimal value |
| JsValues.ParseIntPadded | src/pages/admin/4_employees/employees.js:18 | parseInt reads back the zero-padded id suffix the pages generate |
| JsValues.NumberOfDigits | src/pages/employee/2_products/products_EMP.js:71 | Number() reads a non-empty run of digits as its decimal value |

## Left out

- JSON encoding and decoding, HTTP plumbing, `db_connect` path probing, and the shutdown and error handlers are left out. Requests arrive as datatypes and answers leave as datatypes; they are I/O, not logic.
- Sessions and authentication are left out. This covers the session-based employee lookup in `save_transaction.php` (lines 82-111), whose result is a parameter (`employeeId`), and the login pages. They depend on server state outside the core.
- `password_hash` is a parameter (`pwHash`). It is a foreign cryptographic function.
- Where an endpoint has both a mysqli and a PDO branch, one is modelled: the mysqli branch of `save_transaction.php` (lines 122-280), and the PDO branch of `delete_transaction.php` (from line 25) and of `get_transaction_details.php` (from line 31). The other branch is left out, notably `save_transaction.php`'s PDO answers 400 and 409 (lines 321 and 347), and the "no DB connection" exception (line 367).
- Concurrency and isolation are left out. Each checkout is one sequential, atomic method, and the safety of concurrent `UPDATE ... WHERE stock >= ?` statements is MySQL's.
- Floating point is left out: `floatval`, `round` to two places for negative values, `toFixed`, `toLocaleString`, `Intl` and `number_format`. PHP money is exact centavos and JavaScript numbers are exact reals with NaN; the display formatting is not modelled.
- MySQL collation is left out: string comparisons are exact. Case-insensitive matching in the browser lowercases ASCII letters only.
- `is_numeric` and JavaScript `Number()` are modelled on plain decimal text. Exponents, hexadecimal literals and infinities are not modelled.
- Whether a storage call fails is a parameter: `fault` in `SaveTransaction`, `failAt` in the delete endpoints, `queryOk` in `LowStockReport` and `TransactionDetails`, and `prepareOk`, `insertOk`, `codeUpdateOk`, `selectOk` and `execOk` elsewhere. The driver errors themselves are outside the program.
- TransactionDetails.TransactionDetails: one `queryOk` stands for every query of a request. Which query failed is not modelled, since each failure gets the same 500 and nothing is written.
- SaveTransaction.Save: a failed header insert is modelled as leaving the AUTO_INCREMENT counter alone. When InnoDB has already reserved an id for the failed row, the real counter advances.
- DeleteCategory.Before: rows with the same `category_id` are ordered by table position. MySQL leaves the order of such ties unspecified, so the renumbering of tied rows may differ.
- UpdateEmployee.UpdateEmployee: the eight-character minimum for a reset password counts characters. PHP `strlen` counts bytes, so a password with non-ASCII characters can pass with fewer than eight characters. The predicate `ResetPasswordRejected` has the same gap.
- UpdateEmployee.ResetRuleIsStrongPassword: the length it relates is the character count, not the byte count that `strlen` measures.
- EmployeesClient.ValidateIsStrongPassword: the length is the character count. JavaScript `.length` counts UTF-16 code units, so a character outside the Basic Multilingual Plane counts twice there.
- SaveTransaction.SubtotalOf: a quantity is read with `floatval` for the computed subtotal (save_transaction.php:73) but with `intval` in the item loop (line 174). The model reads one integer quantity for both, so a fractional quantity such as "1.5", which those two reads treat differently, is not modelled.
- SaveTransaction.Run: integers are unbounded. `intval` saturates at the 64-bit limit (line 174), and `bind_param("iii")` binds 64-bit values (line 218); quantities beyond that range are not modelled.
- SaveTransaction.SaveTransaction: the success answer's `employee_name` (line 277) comes from the session lookup, which is left out, so `Saved` does not carry it.
- DeleteCategory.DeleteCategory: the renumbering's `SET @n` and `INSERT ... SELECT` run as one `multi_query` (delete_category.php:32). Its result reports only the first statement, and the loop at line 37 skips the later results unchecked. The model assumes every statement of the batch succeeds whenever the first does.
- Reports.Generate: a transaction's `total` is taken to be a number. `sum + t.total` (reports.js:46) concatenates text when a stored total is a string; that case is not modelled.
- Server-generated values are parameters: `generateTxnId`, `Date.now()`, SQL `NOW()`, `date('Y-m-d')` and `toLocaleDateString()`.
- ProductsAdmin.ProductsAdminPage.Submit: it stops at the request body. What follows the reply is left out: reloading and closing the modal on success, and keeping the modal and `editingProductId` after a refusal, which only alerts (products_AD.js:266-288).
- The DOM is left out: `escapeHtml`, table markup, modals, alerts, the cart rendering (`renderCart`), event wiring, the `MutationObserver` and the debounce in `products_EMP.js`. Where the table element decides behaviour, its presence is a parameter (`tbodyPresent`).
- `localStorage` and `sessionStorage` persistence is modelled as the saved value passed to each load. Writing it back is not modelled, since the state fields already hold what is written.
- Asynchronous interleavings of page loads are left out: every `fetch` completes before the next event.
- Object key order for integer-like names in `reports.js` is not modelled. `Object.entries` lists the employees in order of first appearance.
- Reports.SortDesc: stability (ties keep their order) holds by construction but is not stated as a property. Only the order by sales and the permutation are proved.
- EmployeesClient.EmployeesPage.AddEmployee: the reload of the list after a save assumes the table element is present, so the counter is always recomputed.
- The date column of the employee product table is left out. Its text depends on the browser locale.
- The thin single-statement endpoints are left out: `get_products.php`, `get_categories.php`, `get_employees.php`, `get_transactions.php`, `update_product.php`, `update_category.php`, `delete_product.php` and `delete_employee.php`. They carry no rule beyond one query. The dashboard's `loadEmployeeCount` only counts what that endpoint returns, so it is left out too.
- The other page scripts are left out (sidebar, settings, the `*_AD.js` and `*_EMP.js` copies of the admin pages, the employee dashboard). They are rendering and event wiring only.

## Findings

| source | as written | input that shows it | evidently intended | confidence | as-written member | corrected member |
|---|---|---|---|---|---|---|
| src/pages/admin/5_transactions/delete_transaction.php:26 | the item rows are deleted by `txn_id` only, but a checkout writes item rows with only the numeric `transaction_id` | header 1 with txn id "T1" and an item row with `transaction_id` 1 and no `txn_id`; deleting "T1" keeps the item row, which then names no header | deleting a sale also deletes the item rows that point at its header's numeric id | not executed | DeleteTransaction.AsWrittenLeavesOrphan | DeleteTransaction.CorrectedKeepsNoOrphans |
| src/pages/employee/2_products/products_EMP.js:114-133 | an error replaces the table but keeps `__lastDataHash`, so the next successful load with the same data is skipped | load data d, then a network failure, then load d again: the table still shows the error line | after an error the next successful load renders its data | not executed | ProductsEmployee.AsWrittenErrorMasksData | ProductsEmployee.CorrectedLoadShowsData |

The corrected definitions sit beside the as-written ones, each with its own endpoint or page method: `DeleteTransaction.CorrectedDeleteTransaction` and `ProductsEmployee.EmployeeProductsPage.CorrectedLoad`. The methods named after the source, and the lemmas about those methods, describe the code as written.
