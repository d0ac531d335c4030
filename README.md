# Inventory management front end: a verified model

This project models the logic of a small inventory-management web application
written in TypeScript/React. The application keeps a product catalog and a
stock-movement ledger in memory (`src/lib/mockData.ts`). Its pages compute
reports, dashboard figures, form validations, searches and list edits over
that data. Each part has its own Dafny module:

| module | models |
|---|---|
| `Inventory` | the store: `products` and `stockMovements` as the two `seq` fields of class `Store`, the CRUD and movement operations that reassign them, the queries, the seed data, and the conservation of stock over any run of movements |
| `Reports` | the per-category and per-location quantity totals (the `forEach` loop over a dictionary), the low-stock table, the total of units and the CSV export text |
| `Dashboard` | the low-stock count, the `categoryData` reduce (a loop that updates its accumulator in place), the five most recent movements and the incoming count |
| `ProductDetail` | the edit-form validator (a method filling an error dictionary), the field edits that clear their error, the guards of the stock-movement form, the form reset and the stock-level label |
| `AddProduct` | the split of categories between raw materials ("Insumos") and finished products, the type-change effect, the edits, the validator and the data submitted |
| `Products` | the column sort with its direction toggle, search, filter and reset, the description preview and the stock badge |
| `Clients`, `Suppliers`, `Companies` | the client, supplier and client-company lists: search, reset, add, edit and delete |
| `Grouping` | the grouping by key that reports and dashboard share, and the fold `Accumulate` that is the dashboard's reduce |
| `Seqs`, `Text`, `Sorting`, `Forms`, `Wrappers` | filters and subsequences, distinct lists in first-appearance order, JavaScript `trim`/`toLowerCase`/`includes`/`join`/`split`, the stable sort by key, the error-clearing rule, `Option` |

Modelling choices:
- The application's operations are asynchronous; the model makes them
  synchronous.
- Anything read from the clock is a parameter of the operation. This covers
  the `new Date().toISOString()` time stamps, the `Date.now()` ids and the
  submission dates.
- Dates used for ordering are integers (epoch milliseconds).
- JavaScript's `Number(text)` is a function parameter. In AddProduct it
  returns `Option<real>`, with `None` standing for NaN.
- The rendering of a price as text is also a function parameter.

Facts of the code that the model keeps:
- A stock movement carries only an id, a product id, a type, a quantity, a
  date and notes.
- Product search looks at the name, the sku and the category.
- `filterProducts` filters by category, location and stock bounds.
- Stock may go negative through `addStockMovement`. Only the product detail
  page's form prevents it (`ProductDetail.AcceptedKeepsStockNonNegative`).

## Model

| member | source | states |
|---|---|---|
| Inventory.IndexOfId | src/lib/mockData.ts:182 | the position of the first product with the id; -1 exactly when no product has it |
| Inventory.FindProduct | src/lib/mockData.ts:181-184 | `find` by id: nothing exactly when no product has the id, otherwise the first product with it |
| Inventory.FindFirst | src/lib/mockData.ts:182 | a product with no earlier product of the same id is the one found |
| Inventory.UpdateAll | src/lib/mockData.ts:198-208 | the update keeps the length; every product with the id is merged with the update, every other product is untouched |
| Inventory.QuantityUpdateEffect | src/lib/mockData.ts:232 | an update giving only a quantity changes exactly the quantity and the time stamp |
| Inventory.ApplyMovement | src/lib/mockData.ts:228-233 | a movement keeps length and ids, leaves every product with another id alone, and leaves the list untouched when no product has its id |
| Inventory.ApplyMovementTarget | src/lib/mockData.ts:229-233 | when the product exists, every product with its id gets the first one's quantity plus +q for "in" or -q for "out" and the time stamp, and a lookup finds that product |
| Inventory.ApplyMovementOthers | src/lib/mockData.ts:229-233 | a lookup of any other id gives the same product before and after a movement |
| Inventory.Replay | src/lib/mockData.ts:221-236 | a run of n movements keeps the number of products and grows the ledger by n |
| Inventory.ReplayLedger | src/lib/mockData.ts:221-226 | over any run the old ledger entries are kept, and entry k is draft k's fields with id (ledger length + 1) as text |
| Inventory.StepQuantity | src/lib/mockData.ts:221-233 | one movement keeps a present product present and moves its quantity by the movement's signed quantity when the movement is for it, by nothing otherwise |
| Inventory.NetChangeAppend | src/lib/mockData.ts:226 | appending a movement adds its effect to the signed sum of a ledger segment |
| Inventory.Conservation | src/lib/mockData.ts:221-233 | over any run of movements, a product present at the start is still found, with its starting quantity plus the signed sum of the movements recorded for it |
| Inventory.OutgoingMayGoNegative | src/lib/mockData.ts:231-232 | an "out" movement larger than the stock makes the quantity negative: there is no clamping |
| Inventory.MovementsOf | src/lib/mockData.ts:238-243 | with an id, exactly the movements for that product, every copy of each, in ledger order; with an empty id, the whole ledger |
| Inventory.SearchProducts | src/lib/mockData.ts:245-256 | an empty query returns every product; otherwise exactly the products whose name, sku or category contains the query ignoring case, every copy of each, in list order |
| Inventory.FilterProducts | src/lib/mockData.ts:258-282 | exactly the products that meet the given category, the given location and the stock bounds, in list order |
| Inventory.FilterProductsCounts | src/lib/mockData.ts:263-281 | the filter keeps every copy of a product that passes and none of one that fails |
| Inventory.DefaultFilterExcludesNegative | src/lib/mockData.ts:258-282 | with no criterion the bounds default to 0 and MAX_SAFE_INTEGER, so a product with negative stock is excluded |
| Inventory.DeletedProductIsGone | src/lib/mockData.ts:212-219 | after deleting an id, lookups, searches and filters never yield a product with it |
| Inventory.CategoriesOf | src/lib/mockData.ts:170 | the categories of the products, each once |
| Inventory.LocationsOf | src/lib/mockData.ts:171 | the locations of the products, each once |
| Inventory.AddAfterDeleteMayReuseId | src/lib/mockData.ts:186-194 | the new id is derived from the length, so an add after a delete can reuse the id of a product still listed |
| Inventory.Store.constructor | src/lib/mockData.ts:174-175 | the store starts with the seed products and the seed ledger |
| Inventory.Store.GetProducts | src/lib/mockData.ts:177-179 | returns the current list |
| Inventory.Store.GetProductById | src/lib/mockData.ts:181-184 | returns the lookup over the current list: nothing exactly when no product has the id |
| Inventory.Store.GetStockMovements | src/lib/mockData.ts:238-243 | returns the ledger query over the current ledger, a subsequence of it |
| Inventory.Store.Search | src/lib/mockData.ts:245-256 | returns the search over the current list, a subsequence of it |
| Inventory.Store.FilterList | src/lib/mockData.ts:258-282 | returns the filter over the current list: exactly the products passing it |
| Inventory.Store.AddProduct | src/lib/mockData.ts:186-194 | appends exactly one product, last, with id (old length + 1) and the time stamp; the ledger is untouched |
| Inventory.Store.UpdateProduct | src/lib/mockData.ts:196-210 | the new list is the merge of every product with the id; the ledger is untouched; the result is nothing exactly when no product had the id, otherwise the last merged product |
| Inventory.Store.DeleteProduct | src/lib/mockData.ts:212-219 | returns true exactly when the id existed; every product with it is removed and the rest kept in order; otherwise nothing changes |
| Inventory.Store.AddStockMovement | src/lib/mockData.ts:221-236 | appends exactly one movement, with id (old length + 1) and the draft's fields; the products change as `ApplyMovement` says |
| Reports.QuantityTotals | src/pages/Reports.tsx:55-85 | the dictionary loop yields one entry per distinct key, in first-appearance order, holding that key's summed quantity |
| Reports.TallyCounts | src/pages/Reports.tsx:57-63 | the loop's dictionary adds each quantity to its key's entry; reading a stored 0 as falsy changes no total |
| Reports.TallyKeys | src/pages/Reports.tsx:57-65 | the keys of the dictionary, in insertion order, are the distinct keys in first-appearance order |
| Reports.TotalsKeys | src/pages/Reports.tsx:57-63 | the dictionary has an entry exactly for the keys of the products |
| Reports.TotalsValues | src/pages/Reports.tsx:57-63 | each entry holds the summed quantity of the products with that key |
| Reports.TallyListed | src/pages/Reports.tsx:65-68 | listing the dictionary in key order gives the grouping by summed quantity |
| Reports.GetCategoryData | src/pages/Reports.tsx:55-69 | one entry per distinct category, holding the summed quantity of its products |
| Reports.GetLocationData | src/pages/Reports.tsx:71-85 | one entry per distinct location, holding the summed quantity of its products |
| Reports.TotalUnits | src/pages/Reports.tsx:330 | the `reduce` over quantities (also `totalItems` at src/pages/Dashboard.tsx:48): with no negative stock it is non-negative and at least any single product's quantity; `TotalsAddUp` ties it to both groupings |
| Grouping.TotalWeightBounds | src/pages/Dashboard.tsx:48 | a sum of non-negative weights is non-negative and bounds every single weight |
| Reports.TotalsAddUp | src/pages/Reports.tsx:330 | the per-category values and the per-location values both sum to the total of units |
| Reports.LowStockProducts | src/pages/Reports.tsx:104-108 | exactly the products with fewer than 10 units, as a permutation of that subset, sorted by non-decreasing quantity |
| Reports.HeaderFieldsPlain | src/pages/Reports.tsx:114 | no column name holds a comma or a newline |
| Reports.HeaderCells | src/pages/Reports.tsx:114-116 | the header line splits back into the seven column names and holds no newline |
| Reports.EscapeQuotes | src/pages/Reports.tsx:119 | escaping adds no character other than quotes |
| Reports.UnescapeEscape | src/pages/Reports.tsx:119 | reading `""` as `"` undoes the doubling of quotes |
| Reports.NameRoundTrip | src/pages/Reports.tsx:119 | removing the outer quotes of the name cell and unescaping gives the name back |
| Reports.Wrap | src/pages/Reports.tsx:120 | a category or location cell is the text unchanged between two quotes |
| Reports.CategoryQuoteNotEscaped | src/pages/Reports.tsx:120 | category and location are not escaped: a category with a quote gives a cell that does not read back |
| Reports.RowFields | src/pages/Reports.tsx:117-125 | a row has seven cells |
| Reports.Rows | src/pages/Reports.tsx:117-125 | one row per product, in list order |
| Reports.CsvFirstLine | src/pages/Reports.tsx:115-116 | whatever the products, the first line of the CSV is the header |
| Reports.EmptyCsv | src/pages/Reports.tsx:115-126 | an empty catalog exports the header alone, with no trailing newline |
| Reports.RowFieldsAvoid | src/pages/Reports.tsx:118-124 | a character that no text field holds, and that is not a quote, a digit or `-`, is in no cell |
| Reports.RowAvoids | src/pages/Reports.tsx:117-125 | such a character, if it is not a comma either, is not in the row |
| Reports.LinesAvoidNewline | src/pages/Reports.tsx:115-126 | with newline-free product text, neither the header nor any row holds a newline |
| Reports.CsvLines | src/pages/Reports.tsx:115-126 | with newline-free product text, the CSV splits into exactly the header and one row per product, in order |
| Reports.RowHasSevenCells | src/pages/Reports.tsx:117-125 | with comma-free cell text, a row splits into exactly its seven cells |
| Grouping.GroupedNames | src/pages/Dashboard.tsx:50-58 | the entries' names are the distinct keys, each once, exactly the keys some product has, in first-appearance order |
| Grouping.GroupedSum | src/pages/Reports.tsx:55-85 | the entries' values sum to the total weight: every product is counted in exactly one entry |
| Grouping.AddTo | src/pages/Dashboard.tsx:51-56 | one reduce step keeps the length or appends the new entry |
| Grouping.AddToAt | src/pages/Dashboard.tsx:51-53 | when entry j is the first with the name, the step raises that entry only |
| Grouping.AddToAbsent | src/pages/Dashboard.tsx:54-55 | with no entry of the name, the step pushes `{ name, value }` |
| Grouping.AccumulateAppend | src/pages/Dashboard.tsx:50-58 | the reduce over one more product is one more step |
| Grouping.GroupedAppendOld | src/pages/Dashboard.tsx:51-53 | for a product whose key already occurs, the grouping after it is one reduce step on the grouping before it |
| Grouping.GroupedAppendNew | src/pages/Dashboard.tsx:54-55 | for a product with a new key, likewise: the step appends its entry |
| Grouping.AccumulateIsGrouped | src/pages/Dashboard.tsx:50-58 | the reduce computes the grouping: one entry per distinct key in first-appearance order, holding that key's total |
| Grouping.TotalOneIsLength | src/pages/Dashboard.tsx:47 | weighing every product by 1 counts the products |
| Dashboard.LowStockCount | src/pages/Dashboard.tsx:49 | the number of products with fewer than 10 units, which is the length of the reports page's low-stock table |
| Dashboard.CategoryCounts | src/pages/Dashboard.tsx:50-58 | the in-place reduce yields one entry per distinct category, in first-appearance order, counting its products |
| Dashboard.CategoryCountsSum | src/pages/Dashboard.tsx:47-58 | the per-category counts sum to the number of products |
| Dashboard.RecentMovements | src/pages/Dashboard.tsx:61-63 | at most five movements, each taken from the ledger (as a sub-multiset), latest first |
| Dashboard.RecentAreLatest | src/pages/Dashboard.tsx:61-63 | no movement left out of the recent list is later than one kept in it |
| Dashboard.IncomingCount | src/pages/Dashboard.tsx:130 | the incoming figure is at most the number of movements |
| Dashboard.IncomingAndOutgoing | src/pages/Dashboard.tsx:130 | the incoming figure and the number of outgoing movements add up to the ledger's length |
| Dashboard.SeedIncomingCount | src/pages/Dashboard.tsx:130 | with the seed ledger the incoming figure is 3 |
| ProductDetail.NoErrorsIffValid | src/pages/ProductDetail.tsx:202-203 | with each check reported, no error is left exactly when every check passes |
| ProductDetail.ValidateForm | src/pages/ProductDetail.tsx:175-204 | every check is made and each failure stores its own message under its own field; the result is true exactly when the name and sku are not blank, the category and location are given, the quantity is at least 0 and the price above 0 |
| ProductDetail.TextChangeIsLocal | src/pages/ProductDetail.tsx:146-163 | a text edit sets exactly that field and blanks only that field's message |
| ProductDetail.NumberChangeIsLocal | src/pages/ProductDetail.tsx:165-173 | a number edit stores 0 for an emptied input, otherwise the parsed number, in that field only, and blanks only that field's message |
| ProductDetail.CheckMovement | src/pages/ProductDetail.tsx:238-260 | nothing happens without an id; an accepted movement has a positive quantity and, when outgoing, at most the loaded stock, and carries the form's fields; a positive quantity that is incoming, or outgoing within the loaded stock, or for no loaded product, is accepted; a rejection stores only the quantity message |
| ProductDetail.NonPositiveRejected | src/pages/ProductDetail.tsx:242-245 | a quantity of 0 or less is rejected with its message |
| ProductDetail.OutBeyondStockRejected | src/pages/ProductDetail.tsx:247-252 | an outgoing quantity above the loaded stock is rejected with its message |
| ProductDetail.IncomingUnbounded | src/pages/ProductDetail.tsx:242-252 | any positive incoming quantity is accepted: there is no upper bound |
| ProductDetail.AcceptedKeepsStockNonNegative | src/pages/ProductDetail.tsx:242-256 | an accepted movement on a product with non-negative stock, as loaded, leaves its stock non-negative |
| ProductDetail.SubmitMovement | src/pages/ProductDetail.tsx:238-271 | an accepted movement is recorded in the store and the form reset to ("in", 1, ""); otherwise the store and the form are unchanged |
| ProductDetail.LevelRanges | src/pages/ProductDetail.tsx:664 | "Bajo" exactly below 10, "Medio" exactly from 10 to 29, "Alto" exactly from 30 |
| ProductDetail.LevelMonotone | src/pages/ProductDetail.tsx:664 | more stock never gives a lower label |
| AddProduct.OfferedCategories | src/pages/AddProduct.tsx:60-78 | under "Insumos" the five fixed categories; under "Producto Terminado" a subsequence of the catalog's categories |
| AddProduct.OfferedPartition | src/pages/AddProduct.tsx:62-63 | raw materials get exactly the insumo categories, finished products exactly the other catalog categories, and none is offered to both |
| AddProduct.CatalogWithoutInsumosOffered | src/pages/AddProduct.tsx:63 | a catalog with no insumo category is offered whole to finished products |
| AddProduct.SeedCatalogOffered | src/pages/AddProduct.tsx:63 | the seed catalog has no insumo category, so it is offered whole |
| AddProduct.TypeEffect | src/pages/AddProduct.tsx:60-78 | the offer follows the type; only the category may change; afterwards it is empty or an insumo under "Insumos" and never an insumo under "Producto Terminado"; a category that fits the type is kept |
| AddProduct.InputChangeIsLocal | src/pages/AddProduct.tsx:80-97 | an edit sets exactly that input, keeps the type and blanks only that input's message |
| AddProduct.NoErrorsIffValid | src/pages/AddProduct.tsx:133-134 | with each check reported and nothing else, no error is left exactly when the form is valid |
| AddProduct.ValidateForm | src/pages/AddProduct.tsx:108-135 | every check is made and each failure stores its own message; the result is true exactly when the name and SKU are not blank, a category is chosen, the quantity is a number at least 0 and the price a number above 0 |
| AddProduct.Submitted | src/pages/AddProduct.tsx:137-151 | data is submitted exactly when the form is valid; it carries every text field as typed and the converted quantity (at least 0) and price (above 0) |
| AddProduct.InitialFormInvalid | src/pages/AddProduct.tsx:24-33 | the initial form, of type "Producto Terminado", is not submitted |
| Products.NextDirection | src/pages/Products.tsx:95 | descending exactly when the same column is clicked while ascending; a new column sorts ascending |
| Products.SortClick | src/pages/Products.tsx:94-107 | the click stores the column and the new direction, and the list becomes a permutation of itself sorted by that column in that direction |
| Products.ClicksAlternate | src/pages/Products.tsx:95-97 | repeated clicks on one column alternate the direction; a first click on another column sorts ascending |
| Products.SortClickOrdered | src/pages/Products.tsx:100-104 | every earlier product precedes every later one in the chosen order |
| Products.OnSearch | src/pages/Products.tsx:64-74 | the list becomes the search result over the catalog: the whole catalog for an empty query, otherwise exactly the catalog products whose name, sku or category contains the query ignoring case, every copy of each, in catalog order; the sort settings are kept |
| Products.OnFilter | src/pages/Products.tsx:76-86 | the list becomes exactly the catalog products of the category (any, when none is chosen) with stock between 0 and MAX_SAFE_INTEGER |
| Products.OnReset | src/pages/Products.tsx:88-92 | query and category are cleared and the catalog reloaded |
| Products.ResetThenSearch | src/pages/Products.tsx:88-92 | searching right after a reset changes nothing |
| Products.DescriptionPreview | src/pages/Products.tsx:270 | nothing when absent, the description when at most 40 characters, otherwise its first 40 characters and "..." |
| Products.PreviewBounds | src/pages/Products.tsx:270 | the preview has at most 43 characters and starts with the description's first 40 |
| Products.BadgeOf | src/pages/Products.tsx:256-260 | red exactly below 10, yellow exactly from 10 to 29, green exactly from 30 |
| Products.BadgeMatchesLevel | src/pages/Products.tsx:256-260 | the badge and the detail page's label use the same thresholds |
| Clients.Search | src/pages/Clients.tsx:109-124 | a blank query shows the seed list; any other query shows exactly the seed clients whose name, contact or email contains it ignoring case, or whose non-empty phone contains it exactly, every copy of each; always a subsequence of the seed list |
| Clients.SearchIgnoresCurrentList | src/pages/Clients.tsx:116 | the search does not depend on the list on screen, so a client added on the page is never found |
| Clients.SearchIgnoresCaseOfName | src/pages/Clients.tsx:117 | "EMPRESA A" finds "Empresa A" |
| Clients.ResetFilters | src/pages/Clients.tsx:134-137 | the query is cleared and the seed list shown |
| Clients.SearchAfterReset | src/pages/Clients.tsx:134-137 | searching right after a reset changes nothing |
| Clients.OnClientInput | src/pages/Clients.tsx:140-147 | with the edit dialog open on a selection the edit goes to the selection, keeping its id; otherwise to the add form; never to both |
| Clients.NewClient | src/pages/Clients.tsx:158-168 | the new client carries the form's fields, no products, and the given id and date |
| Clients.AddClient | src/pages/Clients.tsx:150-176 | a name blank after trimming changes nothing; otherwise exactly one client is appended after the unchanged list and the form is emptied |
| Clients.AddEnabledStricter | src/pages/Clients.tsx:437 | whatever the enabled button lets through, the handler accepts; the handler alone also accepts a form with only a name |
| Clients.ReplaceById | src/pages/Clients.tsx:187-189 | same length; every client with the selected id replaced, every other kept |
| Clients.EditClient | src/pages/Clients.tsx:179-197 | rejected exactly without a selection or with a blank name; otherwise the replacement by id |
| Clients.EditIdempotent | src/pages/Clients.tsx:187-189 | saving the same edit twice is saving it once |
| Clients.WithoutClient | src/pages/Clients.tsx:205 | exactly the clients with another id, in order |
| Clients.DeleteClient | src/pages/Clients.tsx:200-212 | nothing without a selection; otherwise the clients with the selected id are removed |
| Clients.EditAfterDelete | src/pages/Clients.tsx:179-212 | once a client is deleted, saving an edit of it changes nothing |
| Clients.DeleteIdempotent | src/pages/Clients.tsx:205 | deleting twice is deleting once |
| Suppliers.Search | src/pages/Suppliers.tsx:64-76 | a blank query reloads; any other query shows exactly the listed suppliers whose name, contact or email contains it ignoring case, every copy of each, in order |
| Suppliers.SearchesNarrow | src/pages/Suppliers.tsx:70-75 | a second search shows a subsequence of the list before the first, matching both queries |
| Suppliers.SearchIdempotent | src/pages/Suppliers.tsx:70-75 | repeating a search changes nothing |
| Suppliers.PhoneNotSearched | src/pages/Suppliers.tsx:70-74 | suppliers differing only in phone match the same queries |
| Suppliers.PhoneOnlyMatchIsDropped | src/pages/Suppliers.tsx:70-74 | a supplier matched only by its phone is not shown |
| Suppliers.AfterAdd | src/pages/Suppliers.tsx:78-92 | after a successful add the form is four empty strings, the dialog closed and the reloaded list shown; after a failure nothing changes |
| Companies.AddCompany | src/components/ClientCompaniesPanel.tsx:31-44 | a name blank after trimming changes nothing; otherwise exactly one company, with the form's fields as typed, is appended, the form emptied and the drawer closed |
| Companies.AddKeepsCompanies | src/components/ClientCompaniesPanel.tsx:41 | existing companies keep their places and the list grows by at most one |
| Companies.NameStoredUntrimmed | src/components/ClientCompaniesPanel.tsx:32-36 | the name is checked trimmed but stored as typed |
| Companies.BlankNameNeverAdds | src/components/ClientCompaniesPanel.tsx:32 | a blank name never adds, however often submitted |
| Forms.ClearError | src/pages/ProductDetail.tsx:151-153 | clearing a field's error adds and removes no key and blanks that field's message only |
| Text.BlankIffTrimEmpty | src/pages/ProductDetail.tsx:178 | `!s.trim()`: a string is blank exactly when trimming leaves nothing |
| Text.Includes | src/lib/mockData.ts:250 | `includes`: the query occurs at some position |
| Text.ParseNatToString | src/lib/mockData.ts:189 | the decimal text of an id reads back as the same number |
| Text.NatToStringInjective | src/lib/mockData.ts:189 | different lengths give different id texts |
| Seqs.Filter | src/lib/mockData.ts:249 | `filter`: an order-preserving subsequence holding exactly the elements that pass |
| Seqs.Distinct | src/lib/mockData.ts:170 | `Array.from(new Set(...))`: no duplicates, exactly the elements of the input |
| Seqs.DistinctOrder | src/lib/mockData.ts:170 | the distinct list keeps the order of first appearance |
| Sorting.Sort | src/pages/Products.tsx:100-104 | the sort by a key returns a permutation of its input, ordered in the chosen direction |
| Sorting.SortedAllPairs | src/pages/Products.tsx:100-104 | in a sorted list every earlier element is ordered before every later one |

## Left out

- Rendering is left out. This covers JSX, dialogs, drawers, toasts, navigation, the routing, the layout, the settings page, and the charts with their colours: none of it computes anything the pages keep.
- The promises, `setTimeout` delays and the loading flags are left out: every operation is synchronous in the model.
- Values read from the clock are parameters. These are the time stamps, the `Date.now()` ids of new clients and companies, and the date of a submitted movement.
- The CSV file name and the browser download are not modelled: the Blob, the object URL and the DOM link have no computation to verify.
- `Date` parsing is left out: movement and client dates are integer epoch milliseconds, and `Product.lastUpdated` stays a string, because it is only emitted.
- The money figures are not modelled, because they are floating-point arithmetic: the inventory value by category, the total value, and `toFixed(2)`.
- `Number()` parsing and the rendering of a price as text are function parameters, because their JavaScript definitions are not part of this model.
- Reports.RowFields: only the number of cells is stated. The cells themselves are stated through `NameRoundTrip`, `Wrap` and `CategoryQuoteNotEscaped`.
- `toLowerCase` is ASCII only: full Unicode case mapping is not part of this model.
- Strings compare by code point in the sorts, not by UTF-16 unit. The two orders differ only outside the Basic Multilingual Plane.
- Products.DescriptionPreview: the length test and the 40-character cut count code points, while the page's `.length` and `substring(0, 40)` count UTF-16 units; Products.PreviewBounds' limit of 43 is counted the same way. They agree for text inside the Basic Multilingual Plane. Outside it they differ: 21 emoji are 42 UTF-16 units and the page cuts them to 20 plus "...", while the model shows all 21. A cut through a surrogate pair cannot be represented at all.
- Sorting.Sort: the model is a stable insertion sort, but its stability is not stated as a property.
- Products.SortClick: the permutation is stated for one click; across a run of clicks it follows by chaining, but that is not stated as its own lemma.
- Inventory.Product: the record holds only the declared catalog fields. `addProduct` spreads its whole argument into the stored product, so a product added through the add page also carries the description, type and client it was sent. The model drops those fields from the catalog. Products.DescriptionPreview models the preview expression for any description, but no modelled catalog product carries one.
- Inventory.Product: quantities are integers. The source stores `Number(...)` of the input, which can be fractional: the movement form on the product detail page and the add page both do this. A movement of 1.5 passes the guard on the detail page and is recorded. Fractional stock is not modelled. Beyond that, the source's numbers are doubles: its arithmetic agrees with the model's exact integers only while every quantity and every running sum (a stock after movements, Inventory.Conservation's total, the total of units) stays within plus or minus MAX_SAFE_INTEGER, and the CSV text of a quantity (Reports.RowFields) matches the model's decimal digits only below 1e21, from where JavaScript prints exponential form.
- Inventory.Conservation: stated over exact integers; for the source's doubles it holds only while every stock and running sum stays within plus or minus MAX_SAFE_INTEGER (15 plus an "in" of 1e16 rounds to 10000000000000016, so a following "out" of 1e16 leaves 16, not 15).
- ProductDetail.MovementForm: the quantity is an integer, for the same reason; a fractional movement quantity is not modelled.
- AddProduct.Submitted: the add page has no location input, so the product `addProduct` stores has no `location`. The reports then group it under the key "undefined" and export the cell `"undefined"`. The model's `ProductDraft.location` is always a string, so that case is not represented.
- The "Otros" option on the add-product page is not modelled: it is a fixed extra item of the select.
- The client-company list on the add-product page is not modelled: `getCompanies` and `Company` are imported from a module that does not define them.
- `getSuppliers`, `addSupplier` and `Supplier` are likewise foreign: the suppliers page works on a parameter list, and whether `addSupplier` succeeded is a parameter.
- AddProduct.Submitted: `addProduct` takes the fields of a catalog product, while the form also sends description, type and client. The model stops at the data handed over.
- ProductDetail's `handleSave` and `handleDelete` are not modelled separately: they call `updateProduct` and `deleteProduct` (modelled in the store) once the validator passes.
- Reports.QuantityTotals: the result is stated in first-appearance order of the keys. The source lists the dictionary with `Object.keys`, which puts array-index keys such as "2" or "10" first, in ascending numeric order; names like that are not modelled. A key such as "toString" or "constructor" reads an inherited value from the plain object, so its total is not a number; such keys are not modelled either.
- Reports.TallyKeys: the dictionary's keys are stated in insertion order, which is `Object.keys` order only for keys that are not array indices; the same key gaps as for QuantityTotals apply.
- Reports.TallyListed: the listing follows insertion order, with the same key gaps as for QuantityTotals.
- Reports.GetCategoryData: stated in first-appearance order; a category that is an array index, or an inherited property name, is not modelled, as for QuantityTotals.
- Reports.GetLocationData: the same gap for locations.
- Dashboard.CategoryCounts: the source mutates the found accumulator entry through an alias. The model updates the entry at its index in a sequence.
- The mock trend data of the dashboard charts is left out: it is constants.
