# Inventory dashboard — a verified model

This project models the client-side logic of a small inventory dashboard for a
shop. It has five parts:

- **The stock store.** This is the canonical in-memory list of products and sales records.
  - It has four mutations: add, update, delete and record a sale. Each one goes through a remote inventory service.
  - It has derived reads: total stock, total units sold, total revenue and lookup by id.
- **The stock overview page.** It has:
  - a product table filtered by status, category and search text;
  - sorting by a column, with the direction toggling on repeated clicks;
  - a category picker and a sale dialog;
  - CSV export and CSV import.
- **The analytics charts.**
  - The sales trend groups sales into day buckets over a window of N days.
  - The category chart gives stock per category, with pie slices coloured from six colours in rotation.
- **The product management page.** It has:
  - role gating: managers and staff may add and edit, and only managers may delete;
  - a search filter;
  - the product form's validation schema;
  - the form shown when editing.
- **The dashboard's alert lists and top-five best sellers**, and **the sidebar's** fixed menu and role labels.

The store and the two pages that hold state are Dafny classes:

- `StockStore.Store` has fields `products`, `sales` and `requests`;
- `StockOverview.OverviewPage` and `ProductManagement.ProductPage` hold their page state.

The handlers are methods with `modifies` clauses. Each is specified against pure functions, and the properties are proved as lemmas about those functions:

- `StatusFor`, `MergeById`, `WithoutId` and `ApplySale` for the store;
- `FilteredProducts`, `SortedProducts`, `ExportCsv`, `ParseCsv` and `ActionFor` for the overview page;
- `DailyTotals` and `CategoryTotals` for the charts.

The two chart computations are methods over a map and a key order, as in the source, and each is proved equal to its pure definition.

The remote service is a parameter. Each mutation receives the reply the service would give, `Ok(body)` or `Failed`. The store appends every call it issues to `requests`, so "makes no remote call" is a statement about that log.

Modules:

- `Wrappers`: `Option`.
- `Seqs`: filter, find, distinct, sums and insertion sort, with their lemmas.
- `Text`: split, join, trim, ASCII lower-casing, substring search, lexicographic order and quote removal.
- `Types`: the domain types.
- `StockStore`, `StockOverview`, `Analytics`, `ProductManagement`, `Dashboard` and `Sidebar`: one per part of the program.

Where numbers are concerned:

- prices and amounts are `real`;
- stock levels, quantities and sales counts are `int`;
- timestamps are `int` milliseconds;
- a calendar day is `t / 86400000`.

## Model

| member | source | states |
|---|---|---|
| Types.CategoryFromLabel | src/contexts/types.ts:3-12 | a label is read as a category only when it is exactly that category's label |
| Types.CategoriesClosed | src/contexts/types.ts:3-12 | the enumeration has nine members, all listed, with nine distinct labels, and each label reads back as its own category |
| StockStore.StatusFor | src/contexts/StockProvider.tsx:71-75 | "Out of Stock" iff stock <= 0, "Low Stock" iff 0 < stock <= 10, "In Stock" iff stock > 10 |
| StockStore.ProductIndex | src/contexts/StockProvider.tsx:248-250 | the position of the first product with the id; none exactly when no product has it |
| StockStore.ProductById | src/contexts/types.ts:47 | the lookup yields a product with the id, the first such one, or nothing exactly when none has the id |
| StockStore.TotalStock | src/contexts/StockProvider.tsx:244-246 | 0 for no products, and never negative when no stock level is |
| StockStore.TotalSold | src/contexts/StockProvider.tsx:240-242 | 0 for no sales, and never negative when no quantity is |
| StockStore.TotalRevenue | src/contexts/StockProvider.tsx:236-238 | 0 for no sales, and never negative when no amount is |
| StockStore.TotalsAfterAppend | src/contexts/StockProvider.tsx:236-242 | appending a sale adds its quantity to units sold and its amount to revenue |
| StockStore.TotalsOrderIndependent | src/contexts/StockProvider.tsx:236-246 | total stock, units sold and revenue do not depend on the order of the records |
| StockStore.FromCreated | src/contexts/StockProvider.tsx:82-92 | the added record carries the reply's fields, salesCount 0 and lastUpdated now when the reply lacks them, and the reply's status as sent |
| StockStore.Merge | src/contexts/StockProvider.tsx:116-121 | every field the reply carries overrides the local one and every absent field keeps it; lastUpdated from the reply or now; status as the reply sends it |
| StockStore.MergeById | src/contexts/StockProvider.tsx:113-126 | the update keeps the length and order; records with the id are merged with the reply, all others are untouched |
| StockStore.WithoutId | src/contexts/StockProvider.tsx:148 | the delete keeps every record without the id, as often as it occurs, and no record with it, in their order |
| StockStore.Sold | src/contexts/StockProvider.tsx:203-216 | a sold product has stock - q, salesCount + q, a status agreeing with the new stock, and every other field unchanged |
| StockStore.NewSale | src/contexts/StockProvider.tsx:189-196 | the new sale carries the product id, the product's name at sale time, the quantity, price × quantity, the service's id, and the service's date or else the current time |
| StockStore.ApplySale | src/contexts/StockProvider.tsx:201-220 | the sale's map keeps the length; products with the id are sold, all others are untouched |
| StockStore.ApplySaleAbsent | src/contexts/StockProvider.tsx:201-220 | selling an id that no product has changes no product |
| StockStore.SaleKeepsStatusConsistent | src/contexts/StockProvider.tsx:204-216 | after a sale, every status still agrees with its stock, if that held before |
| StockStore.SaleKeepsStockNonNegative | src/contexts/StockProvider.tsx:177-220 | with unique ids, the pre-check quantity <= stock keeps every stock level >= 0 |
| StockStore.SaleMovesUnits | src/contexts/StockProvider.tsx:201-220 | with unique ids, a sale of q units lowers total stock by q and raises total sales count by q |
| StockStore.SaleConservesUnits | src/contexts/StockProvider.tsx:186-220 | stock on hand plus units sold is the same before and after a sale; revenue grows by the sale's amount |
| StockStore.SaleKeepsIds | src/contexts/StockProvider.tsx:201-220 | a sale changes no id, so unique ids stay unique |
| StockStore.Store.constructor | src/contexts/StockProvider.tsx:14-15 | the store starts with the fetched snapshot and no calls issued |
| StockStore.Store.AddProduct | src/contexts/StockProvider.tsx:77-107 | one create call; on success the returned record (salesCount defaulting to 0, the service's status) is appended at the end; on failure products are unchanged; sales untouched |
| StockStore.Store.UpdateProduct | src/contexts/StockProvider.tsx:109-140 | one update call; on success products become MergeById of the old ones; on failure nothing changes; sales untouched |
| StockStore.Store.DeleteProduct | src/contexts/StockProvider.tsx:142-162 | one delete call; records with the id are removed iff the call succeeds and the snapshot has the id; sales untouched |
| StockStore.Store.RecordSale | src/contexts/StockProvider.tsx:164-234 | product not found iff no product has the id; insufficient stock iff stock < quantity; in both cases no call and no change; otherwise one call and, if it succeeds, exactly one sale (NewSale) is appended and products become ApplySale; if it fails, nothing changes |
| StockOverview.FilteredProductsExactly | src/pages/StockOverview.tsx:70-79 | a product is listed iff its status and category pass their filters and the query is empty or occurs, lower-cased, in its name or description; each listed product as often as it occurs; the list is a subsequence of the products |
| StockOverview.DefaultFiltersKeepAll | src/pages/StockOverview.tsx:57-79 | with the filters at "All", "All" and "" the list is all products in order |
| StockOverview.FilteredProducts | src/pages/StockOverview.tsx:70-79 | every listed product passes the filters, and each product that passes is listed as often as it occurs, others never |
| StockOverview.KeyLessStrict | src/pages/StockOverview.tsx:84-92 | the column comparison is asymmetric and transitive for every column |
| StockOverview.PrecedesStrictOrder | src/pages/StockOverview.tsx:84-92 | both directions of every column give a strict order |
| StockOverview.SortedProducts | src/pages/StockOverview.tsx:81-93 | the sorted table is a permutation of the filtered one, and is the filtered one itself with no key |
| StockOverview.SortedProductsOrdered | src/pages/StockOverview.tsx:81-93 | with a key, no row has a smaller key (ascending) or larger key (descending) than a row above it |
| StockOverview.NextSort | src/pages/StockOverview.tsx:95-98 | the new key is the chosen one; descending iff that key was already chosen and ascending |
| StockOverview.NextSortAlternates | src/pages/StockOverview.tsx:95-98 | re-choosing a column flips the direction; choosing another column starts ascending |
| StockOverview.CategoryChoicesExactly | src/pages/StockOverview.tsx:65-68 | "All" first, then every product's category, each exactly once, only present ones, in first-occurrence order |
| StockOverview.CategoryChoices | src/pages/StockOverview.tsx:65-68 | "All" first, then every product's category, and nothing that is not some product's category |
| StockOverview.MaxQuantity | src/pages/StockOverview.tsx:127-131 | 1 when nothing is selected or the selection is not listed, else the stock of the first product with the selected id |
| StockOverview.ExportCells | src/pages/StockOverview.tsx:134-144 | a product row has one cell per header, seven in all |
| StockOverview.QuoteAll | src/pages/StockOverview.tsx:148 | every cell is wrapped in double quotes, one for one |
| StockOverview.ExportLines | src/pages/StockOverview.tsx:136-148 | one line per listed product, in order |
| StockOverview.HeaderLine | src/pages/StockOverview.tsx:134-147 | the header line holds no line break and starts with the first header |
| StockOverview.QuotedLineShape | src/pages/StockOverview.tsx:148 | a line of quoted cells starts with a quote and holds no line break when no cell does |
| StockOverview.ExportLine | src/pages/StockOverview.tsx:136-148 | a product's line is never blank (it starts with a quote) and is a single line when no cell holds a line break |
| StockOverview.ExportCsv | src/pages/StockOverview.tsx:134-149 | when no cell holds a line break, the export splits into the header line and one line per product, in order |
| StockOverview.FixedCellsSafe | src/pages/StockOverview.tsx:136-144 | category, stock and status cells never contain a comma, quote or line break, so the four cells import reads come back iff the name and price text are safe |
| StockOverview.ExportSplitsIntoLines | src/pages/StockOverview.tsx:146-149 | when no cell holds a line break, the joined text splits back into the header line and one line per product |
| StockOverview.CleanFields | src/pages/StockOverview.tsx:186 | each field is trimmed and has every double quote removed |
| StockOverview.RowFromValues | src/pages/StockOverview.tsx:188-196 | a row exists iff there are at least four fields; it takes fields 0-3 and an empty description |
| StockOverview.ParseRow | src/pages/StockOverview.tsx:185-197 | a line yields a row iff it splits into at least four comma-separated fields; the row's description is empty |
| StockOverview.ParseRows | src/pages/StockOverview.tsx:185-197 | rows that do not parse are dropped, so there are never more rows than lines |
| StockOverview.ParseRowsAll | src/pages/StockOverview.tsx:185-197 | when every line parses, the rows are the lines' rows one for one, in order |
| StockOverview.ParseRowsAppend | src/pages/StockOverview.tsx:185-197 | rows are read line by line: the rows of a file are the rows of its first lines followed by those of the rest |
| StockOverview.ParseRowsOne | src/pages/StockOverview.tsx:185-197 | a line with four or more fields yields its row and a shorter one is dropped; with ParseRowsAppend, a mixed file yields the rows of its good lines in order |
| StockOverview.ParseCsv | src/pages/StockOverview.tsx:171-178 | nothing is imported iff at most one non-blank line remains; otherwise the first non-blank line is dropped as the header and the rows are those parsed from the remaining non-blank lines |
| StockOverview.VisibleLinesKept | src/pages/StockOverview.tsx:171 | lines starting with a visible character all survive the blank-line filter |
| StockOverview.ActionFor | src/pages/StockOverview.tsx:202-209 | a row is an update iff some product has exactly its name, and then of the first such product; otherwise an add |
| StockOverview.ActionForListed | src/pages/StockOverview.tsx:202-203 | a row named like a listed product is always an update |
| StockOverview.ImportRows | src/pages/StockOverview.tsx:199-210 | one action per row, decided against the products at the start; addedCount counts the adds and addedCount + updatedCount is the number of rows |
| StockOverview.CountAddsAppend | src/pages/StockOverview.tsx:205-208 | one more action raises the add count by one exactly when it is an add |
| StockOverview.ImportCsv | src/pages/StockOverview.tsx:168-212 | a header-only file imports nothing; otherwise one action per parsed row, with the counts of ImportRows |
| StockOverview.CleanQuoted | src/pages/StockOverview.tsx:186 | a quoted safe cell contains no comma and cleans back to the cell |
| StockOverview.ParseQuotedLine | src/pages/StockOverview.tsx:185-196 | a line of four or more quoted cells parses to its first four cells when those hold no comma, quote or line break, whatever the later cells hold |
| StockOverview.ParseExportLine | src/pages/StockOverview.tsx:136-196 | an exported product line parses back to the product's name, category, price text and stock text when those four cells are safe; description and date may hold commas and quotes |
| StockOverview.ExportLinesKept | src/pages/StockOverview.tsx:146-171 | when no cell holds a line break, import's blank-line filter keeps every line of an export |
| StockOverview.ExportImportRoundTrip | src/pages/StockOverview.tsx:133-197 | importing the export of a non-empty list reads back, in order, each product's name, category, price text and stock text, for cells without line breaks and with name and price free of commas and quotes |
| StockOverview.ReimportAddsNothing | src/pages/StockOverview.tsx:133-210 | re-importing an export of any sub-multiset of the products (such as the page's filtered list), under the round trip's conditions, only updates: no row is added |
| StockOverview.OverviewPage.constructor | src/pages/StockOverview.tsx:54-63 | the page starts with no selection, quantity 1, all filters at "All", an empty query and no sort |
| StockOverview.OverviewPage.HandleSort | src/pages/StockOverview.tsx:95-98 | the sort becomes NextSort of the old one; all other page state is unchanged |
| StockOverview.OverviewPage.ResetFilters | src/pages/StockOverview.tsx:223-228 | filters, query and sort return to their defaults, so the table shows every product in store order |
| StockOverview.OverviewPage.OpenSaleDialog | src/pages/StockOverview.tsx:109-112 | the product is selected and the dialog opens |
| StockOverview.OverviewPage.HandleRecordSale | src/pages/StockOverview.tsx:100-107 | with no selection nothing happens and no call is made; otherwise the store's recordSale runs on the selected id and quantity (not found, insufficient stock, failed or recorded, each iff as in Store.RecordSale, with its request log and new state) and the dialog closes and resets |
| StockOverview.OverviewPage.ExportText | src/pages/StockOverview.tsx:133-149 | the page exports its filtered (unsorted) products: header plus one line each when no cell holds a line break |
| Analytics.DayShift | src/components/analytics/StockTrendsChart.tsx:26-31 | going back k whole days lands k calendar days earlier |
| Analytics.DayMonotone | src/components/analytics/StockTrendsChart.tsx:39-40 | a later timestamp is never on an earlier day |
| Analytics.DailyTotals | src/components/analytics/StockTrendsChart.tsx:30-34 | exactly days + 1 buckets for consecutive days in chronological order, the last one today |
| Analytics.GroupSalesByDate | src/components/analytics/StockTrendsChart.tsx:24-49 | the dictionary loop yields DailyTotals: zeroed buckets from days ago to today, each then holding the quantity and revenue of the in-window sales of its day |
| Analytics.OutsideWindowIgnored | src/components/analytics/StockTrendsChart.tsx:39 | a sale before the window start or after now changes no bucket |
| Analytics.InsideWindowCounted | src/components/analytics/StockTrendsChart.tsx:39-44 | an in-window sale falls on a charted day and adds its quantity and amount to that day's bucket only |
| Analytics.DailyTotalsOrderIndependent | src/components/analytics/StockTrendsChart.tsx:37-46 | the chart does not depend on the order of the sales |
| Analytics.EarliestBucketPartial | src/components/analytics/StockTrendsChart.tsx:26-39 | a sale on the first charted day but earlier in the day than now is not counted |
| Analytics.BucketsSumToWindow | src/components/analytics/StockTrendsChart.tsx:37-46 | the buckets' quantities add up to the quantities of the in-window sales |
| Analytics.CategoryTotals | src/components/analytics/CategoryStockChart.tsx:20-34 | one entry per distinct category, in first-occurrence order, holding the category's label and its stock sum |
| Analytics.StockByCategory | src/components/analytics/CategoryStockChart.tsx:20-34 | the dictionary loop yields CategoryTotals (the copy of this function in StockTrendsChart.tsx:52-66 is identical) |
| Analytics.AbsentCategoryStock | src/components/analytics/CategoryStockChart.tsx:24-27 | a category no product has holds zero stock |
| Analytics.TallyAppend | src/components/analytics/CategoryStockChart.tsx:23-28 | each product adds its category once, on first meeting it, and its stock to its category's total |
| Analytics.EntryForEveryProduct | src/components/analytics/CategoryStockChart.tsx:23-30 | every product's category has an entry |
| Analytics.ProductForEveryEntry | src/components/analytics/CategoryStockChart.tsx:23-30 | every entry is the category of some product |
| Analytics.EntriesDistinct | src/components/analytics/CategoryStockChart.tsx:23-30 | no category has two entries |
| Analytics.CategoryTotalsExactly | src/components/analytics/CategoryStockChart.tsx:20-34 | one entry per present category, none for absent ones, and none for no products |
| Analytics.CategoryTotalsSumToStock | src/components/analytics/CategoryStockChart.tsx:23-29 | the entry values add up to the total stock |
| Analytics.CategoryTotalsFirstOccurrence | src/components/analytics/CategoryStockChart.tsx:20-34 | entries follow the order in which their categories first occur |
| Analytics.CellColor | src/components/analytics/CategoryStockChart.tsx:72-74 | every slice gets one of the six colours |
| Analytics.CellColorsCycle | src/components/analytics/CategoryStockChart.tsx:37-74 | the first slice takes the first colour, the colours repeat every six slices, and six consecutive slices all differ |
| ProductManagement.UserRole | src/pages/ProductManagement.tsx:228 | "cashier" without a user or with an empty role, else the user's role |
| ProductManagement.RolePermissions | src/pages/ProductManagement.tsx:229-230 | delete implies modify; modify without delete iff staff; no user may modify; a user may modify iff manager or staff |
| ProductManagement.CanModify | src/pages/ProductManagement.tsx:229 | the cashier role and the empty role may not modify |
| ProductManagement.CanDelete | src/pages/ProductManagement.tsx:230 | whoever may delete may modify, and staff may not delete |
| ProductManagement.SearchProductsExactly | src/pages/ProductManagement.tsx:232-236 | a product is listed iff its lower-cased name or category contains the lower-cased query, as often as it occurs; the order is kept; the empty query lists all |
| ProductManagement.SearchProducts | src/pages/ProductManagement.tsx:232-236 | every listed product matches the query, and each matching product is listed as often as it occurs, others never |
| ProductManagement.Validate | src/pages/ProductManagement.tsx:70-92 | accepted iff name has >= 2 characters, category is one of the nine labels, price > 0 and stock is a whole number >= 0; then the values are carried over; otherwise the failing fields are exactly the errors |
| ProductManagement.FailedFields | src/pages/ProductManagement.tsx:70-89 | a field is listed exactly when its rule fails |
| ProductManagement.LabelKnown | src/pages/ProductManagement.tsx:75-85 | a label names a category iff it is one of the nine labels |
| ProductManagement.EmptyFormRejected | src/pages/ProductManagement.tsx:96-102 | submitting the empty form fails on exactly the name and the price |
| ProductManagement.ValidValuesAccepted | src/pages/ProductManagement.tsx:70-92 | values that meet the rules pass the schema unchanged |
| ProductManagement.CurrentProductForm | src/pages/ProductManagement.tsx:310-321 | the empty form when no product has the current id, else that product's fields with its description |
| ProductManagement.NewProductOf | src/pages/ProductManagement.tsx:249-255 | add receives the form's fields and a missing description as "" |
| ProductManagement.PatchOf | src/pages/ProductManagement.tsx:272-276 | the update request carries name, category, price and stock, the description only if given, and never an id or sales count |
| ProductManagement.ProductPage.constructor | src/pages/ProductManagement.tsx:221-225 | the page starts with no query, both dialogs closed, nothing being edited and no error |
| ProductManagement.ProductPage.HandleAddProduct | src/pages/ProductManagement.tsx:238-258 | without modify permission the error is set and the store is neither called nor changed; with it, exactly one create call for the form; the dialog closes either way |
| ProductManagement.ProductPage.HandleEditProduct | src/pages/ProductManagement.tsx:260-277 | without modify permission the error is set and the store is neither called nor changed; with it, an update call only when a product is being edited, and then the dialog closes and the edit ends |
| ProductManagement.ProductPage.HandleDeleteProduct | src/pages/ProductManagement.tsx:279-293 | without delete permission the error is set and no call is made; with it, a delete call exactly when confirmed |
| ProductManagement.ProductPage.OpenEditDialog | src/pages/ProductManagement.tsx:295-308 | without modify permission only the error is set; with it, the product becomes the one edited and the dialog opens |
| Dashboard.AlertListsExactly | src/pages/Dashboard.tsx:16-17 | the low-stock and out-of-stock lists hold exactly the products with that status, each as often as it occurs, in product order |
| Dashboard.LowStockProducts | src/pages/Dashboard.tsx:16 | each low-stock product as often as it occurs, no other product |
| Dashboard.OutOfStockProducts | src/pages/Dashboard.tsx:17 | each out-of-stock product as often as it occurs, no other product |
| Dashboard.NoAlertsIffAllInStock | src/pages/Dashboard.tsx:91-126 | "no inventory alerts" shows iff every product is in stock |
| Dashboard.MoreSalesStrict | src/pages/Dashboard.tsx:21 | the best-seller comparison is a strict order |
| Dashboard.BySales | src/pages/Dashboard.tsx:20-21 | the sorted copy is a permutation of the products |
| Dashboard.BySalesOrdered | src/pages/Dashboard.tsx:20-21 | sales counts never increase down the sorted copy |
| Dashboard.TopProducts | src/pages/Dashboard.tsx:20-22 | the first min(5, n) of the sorted copy |
| Dashboard.TopSelling | src/pages/Dashboard.tsx:20-26 | each row is the name and sales count of the corresponding top product |
| Dashboard.TopSellingOrdered | src/pages/Dashboard.tsx:20-26 | at most five rows, exactly five when there are five products, with sales never increasing |
| Dashboard.TopSellingIsTop | src/pages/Dashboard.tsx:20-26 | every row is a product, without repeating one; no product left out sold more than a listed one |
| Sidebar.RoleDisplayName | src/components/layout/sidebar.tsx:34-45 | "manager", "staff" and "cashier" map to "Manager", "Staff" and "Cashier"; any other role maps to "User" |
| Sidebar.RoleDisplayNameRange | src/components/layout/sidebar.tsx:34-45 | the label is one of four, and differs from "User" iff the role is one of the three known ones |
| Sidebar.SidebarItemsFixed | src/components/layout/sidebar.tsx:10-31 | four menu entries leading to "/", "/products", "/stock" and "/analytics", in that order, all different |

## Left out

- The remote service (src/services/api.ts) is outside this model. Each call is a `Reply` parameter and an entry in the store's `requests` log. Payload normalisation follows the reply records' shape: `_id` versus `id`, and `updatedAt` versus `updated_at`.
- The initial fetch on mount is outside this model (src/contexts/StockProvider.tsx:20-69). The store's constructor takes the fetched snapshot.
- The authentication context is outside this model. The signed-in user is a constructor parameter of the product page.
- Asynchrony is not modelled:
  - each mutation is one atomic step, and interleavings of un-awaited calls are not modelled;
  - `deleteProduct` looks the product up in a possibly stale snapshot; the model uses the current one;
  - CSV import fires its store calls without awaiting them. `ImportRows` returns the planned calls (`ImportAction`) instead of dispatching them, and decides each one against the product list as it was when the import began, as the source does.
- Toasts, console logging and the browser are not modelled:
  - `confirm()` is the `confirmed` parameter of `HandleDeleteProduct`;
  - the file picker, `FileReader`, `Blob` and the download link are not modelled;
  - the toast's success and failure messages are not modelled.
- Number and date text is not modelled:
  - `parseFloat` and `parseInt` in the import are not modelled: a row keeps its price and stock as text;
  - in the export, `String(price)` and `toLocaleDateString` are the parameters `showPrice` and `showDate`;
  - JavaScript numbers are exact reals and unbounded integers;
  - the schema's NaN cases of `z.coerce.number()` are not modelled.
- Calendar arithmetic is simplified. Days are `t / 86400000` in a single fixed time zone: daylight-saving shifts in `subDays`, and the year that the "MMM dd" bucket key drops, are not modelled. The model keys buckets by day number, so windows over a year long do not merge days one year apart.
- Strings are sequences of characters. JavaScript compares and measures strings in UTF-16 code units, and `toLowerCase` is ASCII-only here.
- Sort order is modelled only in part:
  - `StockOverview.SortedProductsOrdered`: states order and permutation only. Which of several equal-key rows comes first, which depends on the engine's stable sort, is not stated.
  - `Dashboard.BySalesOrdered`: does not state tie order among products with equal sales counts, for the same reason.
- `StockStore.Store.AddProduct` and `StockStore.Store.UpdateProduct`: the status is the one the service returns and is not recomputed locally. Only a sale recomputes it, so status consistency is proved for sales alone.
- `StockStore.FromCreated`: assumes the service's reply to a create always carries a status and a description. The program copies both without a check or default, so a reply without a status stores an undefined status (that product then passes only the "all" status filter and appears in neither dashboard alert list) and a reply without a description makes the overview search fail on it whenever the query is not found in its name; neither case is represented.
- `StockStore.Merge`: assumes the service's reply to an update always carries a status. The program copies it unchecked, so a reply without one would leave the product with an undefined status, which the model cannot represent.
- `StockStore.Store.RecordSale`: does not check that the quantity is positive, as the source does not. A zero or negative quantity is passed through.
- `StockStore.SaleKeepsStockNonNegative`: assumes unique product ids. The store itself does not enforce them; the service assigns them.
- `ProductManagement.ProductPage.HandleEditProduct`: the form's values are passed as the update request's patch. The service's reply decides the new record, as in `StockStore.Store.UpdateProduct`.
- `updateProductStatus` is not called by add or update in the source, and is modelled once, as `StockStore.StatusFor`, the rule a sale applies.
- Re-importing an export updates every product with an empty description, because an imported row's description is always "". The round-trip lemma therefore covers name, category, price text and stock text only.
- `StockOverview.ExportImportRoundTrip`: stated only for products whose cells hold no line break and whose name and price text hold no comma or quote. The export does not escape cells, so such a product's line splits or shifts on import; that is the program's own behaviour, not modelled as a failure case.
- The analytics page (src/pages/Analytics.tsx) is not part of this model. Its float averages and `toFixed`/`toLocaleString` formatting are display-only, and its status counts repeat the dashboard's lists.
- Routing, the authentication guard, the stat cards and the React context wrapper are rendering plumbing and are not part of this model.
