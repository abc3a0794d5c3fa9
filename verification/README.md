# Activation keys and Robokassa payments, modelled in Dafny

Code-Top is a Medusa shop that sells digital goods. When an order's payment is captured, its
line items are fulfilled with licence keys taken from an `activation_key` table, and the keys are
e-mailed to the customer. Admins manage the table through a keys page, a bulk-import drawer and
a widget on the product page. Payments go through Robokassa. This project models that core and
proves what it promises:

- **The key table and its service.** `ActivationKey` defines the row, the table's constraints
  (primary key on `id`, `key` unique among live rows, the `numeric(12,2)` cost) and the row-level
  SQL statements. `KeyService.KeyStore` is a class over the table. Its methods are
  `retrieveUnusedKey`, the three listings, `addKey`, `addMultipleKeys`, `deleteKey` and
  `deleteKeysForVariant`, each stating exactly which rows change.
- **The admin route** (`AdminKeysRoute`). GET normalises the sort, order, limit and offset,
  builds the WHERE list with consecutively numbered placeholders, and lists, counts and pages the
  joined rows with display defaults. POST validates the body and inserts one row per key. DELETE
  maps its outcomes to 400, 404 and 200.
- **The order subscriber** (`OrderSubscriber`). Its loop hands out one free key per line item
  with a variant, skips items with no free key, and decides when the e-mail is sent. The model
  also covers the e-mail text and the customer-name fallbacks.
- **The admin screens.** The keys page (`KeysPage`: pagination, the add-key guard and body,
  delete, truncation), the bulk-import drawer (`BulkKeyImport`), the product widget
  (`VariantKeysWidget`: path parsing, the count map, links) and the translation tables
  (`Translations`).
- **The variant search route** (`VariantsRoute`): the display-name rule, the search and limit
  parameters, the order, the row defaults and the demonstration fallback.
- **Robokassa.** `RobokassaService` covers `OutSum`, the signature and the redirect URL.
  `RobokassaCallback` is the result callback's case-insensitive signature check.
  `StorePaymentRoute` is the storefront payment route's validator and reply mapping.
- **The storefront search bar** (`SearchBar`).

Shared modules:

- `Text` holds JavaScript's `trim`, `split`/`join`, ASCII case mapping, `parseInt` and decimal
  rendering.
- `Ordering` is SQL `ORDER BY` as a proved total order with an insertion sort.
- `Seqs`, `Wrappers`, `Json`, `Catalog` and `Toasts` hold small shared definitions.

What the model takes as parameters:

- **Foreign functions**: MD5, `encodeURIComponent`, `URLSearchParams` encoding and `ILIKE`.
- **Randomness and clocks**: generated ids, the random invoice number and the timestamps.
- **Failures**: whether the database connection fails.

The database's choice of row for `LIMIT 1` without `ORDER BY` is left unspecified: any free key
of the variant may be picked.

`orderPaymentCapturedHandler` calls `retrieveUnusedKey` once per line item that has a variant,
whatever its `quantity` (code-top-backend/src/subscribers/order-subscriber.ts:33-40): an item of
quantity 3 receives one key, and so it does in the model.

## Model

| member | source | states |
|---|---|---|
| ActivationKey.Violation | code-top-backend/src/modules/activation-keys/migrations/Migration20250819154048.ts:7-8 | an insert is refused exactly when the cost does not fit `numeric(12,2)` or the new row repeats an id, or repeats a key while both rows are live (the unique index has `WHERE deleted_at IS NULL`) |
| ActivationKey.InsertWellFormed | code-top-backend/src/modules/activation-keys/models/activation-key.ts:4-5 | on a table meeting its constraints, the database accepts an insert exactly when the table after it still meets them |
| ActivationKey.NewRow | code-top-backend/src/modules/activation-keys/models/activation-key.ts:7-9 | a freshly inserted row has the given id, key and variant, is unused, has no order and no use time, is live, and was created and updated at the insert time |
| ActivationKey.StoredOrderId | code-top-backend/src/modules/activation-keys/service.ts:38 | the order id (`orderId or null`) is stored exactly when it is present and non-empty |
| ActivationKey.MarkUsed | code-top-backend/src/modules/activation-keys/service.ts:37 | the updated row is used, carries the use time and the stored order id; every other column is as it was |
| ActivationKey.Reported | code-top-backend/src/modules/activation-keys/service.ts:40 | the returned record is the selected row with the caller's order id and the use time; it still says unused, as the selected row did |
| ActivationKey.MarkUsedWhereId | code-top-backend/src/modules/activation-keys/service.ts:37 | the update keeps the table's length, marks every row with the id used and leaves all other rows as they were |
| ActivationKey.MarkUsedWhereIdIsOneRow | code-top-backend/src/modules/activation-keys/service.ts:36-39 | because ids are unique, the update by id changes exactly the selected row |
| ActivationKey.MarkUsedKeepsInvariants | code-top-backend/src/modules/activation-keys/service.ts:36-39 | marking a row used keeps the table's constraints and keeps every row's used flag, use time and order id consistent |
| ActivationKey.MarkUsedCount | code-top-backend/src/modules/activation-keys/service.ts:29-39 | allocating a free key of a variant lowers that variant's free count by one and leaves every other variant's count unchanged |
| ActivationKey.NoUnusedIffCountZero | code-top-backend/src/modules/activation-keys/service.ts:30-34 | the SELECT finds no row exactly when the variant's free count is zero |
| ActivationKey.KeysForOrder | code-top-backend/src/modules/activation-keys/service.ts:49-52 | the result is sorted by use time, ascending, and is a permutation of exactly the rows of that order |
| ActivationKey.KeysForVariant | code-top-backend/src/modules/activation-keys/service.ts:60-63 | the result is sorted by id, ascending, and is a permutation of exactly the rows of that variant |
| ActivationKey.AllKeys | code-top-backend/src/modules/activation-keys/service.ts:71-73 | the result is a permutation of the table, sorted by variant and then by id |
| ActivationKey.InsertEach | code-top-backend/src/modules/activation-keys/service.ts:96-102 | a batch inserts a prefix of the new rows; it stops at the first refused row with that row's error, and inserts all rows exactly when none is refused |
| ActivationKey.InsertEachKeepsInvariants | code-top-backend/src/modules/activation-keys/service.ts:96-102 | a batch insert of fresh rows keeps the table's constraints and the stamping invariant |
| ActivationKey.ServiceRows | code-top-backend/src/modules/activation-keys/service.ts:96-101 | one fresh row per key, in key order, all for the one variant |
| ActivationKey.FilterKeepsInvariants | code-top-backend/src/modules/activation-keys/service.ts:110-122 | deleting rows keeps the table's constraints and the stamping invariant |
| ActivationKey.DeleteByIdRemovesAtMostOne | code-top-backend/src/modules/activation-keys/service.ts:110-113 | with unique ids, deleting by id removes at most one row, and none exactly when no row has that id |
| KeyService.KeyStore.constructor | code-top-backend/src/modules/activation-keys/service.ts:7-10 | the store starts with the given table, which meets its constraints |
| KeyService.KeyStore.Insert | code-top-backend/src/modules/activation-keys/service.ts:84 | one `INSERT`: appends the row when no constraint refuses it, reports the broken constraint otherwise, and keeps the table valid |
| KeyService.KeyStore.RetrieveUnusedKey | code-top-backend/src/modules/activation-keys/service.ts:26-44 | no key iff the variant has no free row (table unchanged); otherwise exactly one free row of the variant is marked used, the selected row is returned with the order id and use time, its variant's free count drops by one and every other count is kept |
| KeyService.KeyStore.ListKeysForOrder | code-top-backend/src/modules/activation-keys/service.ts:46-55 | the rows of the order, by use time (properties in `KeysForOrder`) |
| KeyService.KeyStore.ListKeysForVariant | code-top-backend/src/modules/activation-keys/service.ts:57-66 | the rows of the variant, by id (properties in `KeysForVariant`) |
| KeyService.KeyStore.ListAllKeys | code-top-backend/src/modules/activation-keys/service.ts:68-76 | every row, by variant and id (properties in `AllKeys`) |
| KeyService.KeyStore.AddKey | code-top-backend/src/modules/activation-keys/service.ts:78-90 | inserts one fresh unused row and returns it, or returns the refusal and leaves the table unchanged |
| KeyService.KeyStore.InsertAll | code-top-backend/src/modules/activation-keys/service.ts:95-104 | the loop's table and results are those of `InsertEach`: the rows before the first refusal stay inserted |
| KeyService.KeyStore.AddMultipleKeys | code-top-backend/src/modules/activation-keys/service.ts:92-105 | one fresh row per key, inserted in key order as `InsertEach` says |
| KeyService.KeyStore.DeleteKey | code-top-backend/src/modules/activation-keys/service.ts:107-114 | removes exactly the rows with the id, which is at most one row, and none exactly when no row has it |
| KeyService.KeyStore.DeleteKeysForVariant | code-top-backend/src/modules/activation-keys/service.ts:116-123 | removes exactly the rows of the variant; none of that variant remains |
| AdminKeysRoute.ColumnNamed | code-top-backend/src/api/admin/activation-keys-simple/route.ts:36-51 | the sortable-column lookup finds the column with exactly that name, and finds none exactly when no column has the name |
| AdminKeysRoute.FirstNamed | code-top-backend/src/api/admin/activation-keys-simple/route.ts:56 | the `Set.has` search returns the first column with the name, or the end when none has it |
| AdminKeysRoute.NormalizeSort | code-top-backend/src/api/admin/activation-keys-simple/route.ts:53-56 | the sort column is the lower-cased parameter (`created_at` when absent or empty) when it names a sortable column, and `created_at` otherwise |
| AdminKeysRoute.ColumnNameLower | code-top-backend/src/api/admin/activation-keys-simple/route.ts:36-51 | every sortable column name is already lower case |
| AdminKeysRoute.ColumnNameInjective | code-top-backend/src/api/admin/activation-keys-simple/route.ts:130-144 | no two sortable columns share a name, so the name picks the `ORDER BY` column |
| AdminKeysRoute.NormalizeSortOfName | code-top-backend/src/api/admin/activation-keys-simple/route.ts:53-56 | naming a sortable column, in lower or upper case, sorts by that column |
| AdminKeysRoute.NormalizeOrder | code-top-backend/src/api/admin/activation-keys-simple/route.ts:55 | the direction is `ASC` exactly when the lower-cased parameter is `asc`; an absent parameter gives `DESC` |
| AdminKeysRoute.EffectiveLimit | code-top-backend/src/api/admin/activation-keys-simple/route.ts:155 | the limit is always between 0 and 1000: 100 when the text does not parse or parses to 0, the parsed value when it is between 1 and 1000, clamped otherwise |
| AdminKeysRoute.EffectiveOffset | code-top-backend/src/api/admin/activation-keys-simple/route.ts:156 | the offset is the parsed value when that is non-negative, and 0 when it is unparsable or not positive |
| AdminKeysRoute.EffectiveLimitOfNat | code-top-backend/src/api/admin/activation-keys-simple/route.ts:155 | a decimal limit from 1 to 1000 is used as given |
| AdminKeysRoute.EffectiveOffsetOfNat | code-top-backend/src/api/admin/activation-keys-simple/route.ts:156 | a decimal offset is used as given |
| AdminKeysRoute.PagingDefaults | code-top-backend/src/api/admin/activation-keys-simple/route.ts:31-32 | an absent limit is 100 and an absent offset is 0 |
| AdminKeysRoute.JoinRow | code-top-backend/src/api/admin/activation-keys-simple/route.ts:115-117 | the `LEFT JOIN`s: a key row keeps its columns; without a matching variant all joined columns are NULL; with one it takes the variant's title and SKU, and the product's title when the product exists |
| AdminKeysRoute.JoinAll | code-top-backend/src/api/admin/activation-keys-simple/route.ts:115-117 | every key row is joined, in table order |
| AdminKeysRoute.Page | code-top-backend/src/api/admin/activation-keys-simple/route.ts:158-159 | `LIMIT n OFFSET m` returns `max(0, min(n, length - m))` rows, the ones from position m on |
| AdminKeysRoute.Enrich | code-top-backend/src/api/admin/activation-keys-simple/route.ts:165-170 | a listed row keeps its key columns and gets "Unknown Product", "Default" and "N/A" for a missing or empty product title, variant title and SKU |
| AdminKeysRoute.ListedPage | code-top-backend/src/api/admin/activation-keys-simple/route.ts:146-163 | the page of the sorted matches has `max(0, min(limit, total - offset))` rows, each one a matched row |
| AdminKeysRoute.ListedPageSorted | code-top-backend/src/api/admin/activation-keys-simple/route.ts:146 | the page is in the order of the sort column and direction |
| AdminKeysRoute.PageSorted | code-top-backend/src/api/admin/activation-keys-simple/route.ts:158 | a page of a sorted result is still sorted |
| AdminKeysRoute.ListingCount | code-top-backend/src/api/admin/activation-keys-simple/route.ts:174-182 | every successful listing echoes its limit and offset, its `count` is its length, and it holds `min(limit, total - offset)` rows, never more than 1000 |
| AdminKeysRoute.PageOfSorted | code-top-backend/src/api/admin/activation-keys-simple/route.ts:146-163 | a page of the sorted rows has the paged length and holds only rows of the input |
| AdminKeysRoute.PagedListing | code-top-backend/src/api/admin/activation-keys-simple/route.ts:174-182 | a page of the paged length gives a response paged as its limit and offset say |
| AdminKeysRoute.MatchedIgnoresPaging | code-top-backend/src/api/admin/activation-keys-simple/route.ts:121-124 | the filters do not depend on limit and offset |
| AdminKeysRoute.ListingTotalIgnoresPaging | code-top-backend/src/api/admin/activation-keys-simple/route.ts:148-153 | the total is counted before limit and offset apply, so paging never changes it |
| AdminKeysRoute.PagedFrom | code-top-backend/src/api/admin/activation-keys-simple/route.ts:158-163 | each row of a page of the sorted rows is one of the input rows |
| AdminKeysRoute.MatchedRow | code-top-backend/src/api/admin/activation-keys-simple/route.ts:119-127 | each matched row joins a row of the table and passes every filter |
| AdminKeysRoute.ListingRowsMatch | code-top-backend/src/api/admin/activation-keys-simple/route.ts:163-181 | every listed key is a row of the table that passes the filters and the search |
| AdminKeysRoute.KeyOfPage | code-top-backend/src/api/admin/activation-keys-simple/route.ts:165-170 | the i-th key of the response is the i-th row of the page |
| AdminKeysRoute.NoFiltersMatchAll | code-top-backend/src/api/admin/activation-keys-simple/route.ts:65-98 | with no filter and no search, the statement cannot fail and every joined row matches |
| AdminKeysRoute.UnfilteredListing | code-top-backend/src/api/admin/activation-keys-simple/route.ts:14-182 | with no filters, no search and default paging, the listing succeeds, its total is the table size, its count is `min(100, size)`, and its keys are the first 100 joined rows in the requested order, enriched; a table of at most 100 keys is listed whole, every row once |
| AdminKeysRoute.ClauseHoldsExtended | code-top-backend/src/api/admin/activation-keys-simple/route.ts:158-159 | appending the `LIMIT` and `OFFSET` parameters does not change what a filter clause reads |
| AdminKeysRoute.HoldsExtended | code-top-backend/src/api/admin/activation-keys-simple/route.ts:149-159 | the WHERE clauses mean the same with or without the paging parameters after them, and fail in the same cases |
| AdminKeysRoute.AppendClause | code-top-backend/src/api/admin/activation-keys-simple/route.ts:66-71 | a clause pushed with the next placeholder number keeps the numbering and adds exactly its own condition and its own way to fail |
| AdminKeysRoute.AppendHolds | code-top-backend/src/api/admin/activation-keys-simple/route.ts:119 | `AND`-ing one more clause adds exactly that clause's condition |
| AdminKeysRoute.AppendCastFails | code-top-backend/src/api/admin/activation-keys-simple/route.ts:66-71 | the statement with one more clause fails exactly when it failed before or the new clause's literal cannot be read |
| AdminKeysRoute.WithFilterMeaning | code-top-backend/src/api/admin/activation-keys-simple/route.ts:66-71 | `addFilter` adds nothing for an absent value, and otherwise one clause requiring the column to equal the value |
| AdminKeysRoute.WithIsUsedMeaning | code-top-backend/src/api/admin/activation-keys-simple/route.ts:76-80 | the `is_used` filter keeps the rows whose flag equals `value === "true" or value === "1"` and never fails |
| AdminKeysRoute.WithSearchMeaning | code-top-backend/src/api/admin/activation-keys-simple/route.ts:89-98 | a non-blank search adds one clause requiring an `ILIKE` match of the trimmed text on key, product title, variant title or SKU; a blank search adds nothing |
| AdminKeysRoute.IdentityStageMeaning | code-top-backend/src/api/admin/activation-keys-simple/route.ts:73-75 | the id, key and variant filters give one clause per supplied value, never fail, and keep the rows agreeing with them |
| AdminKeysRoute.UsageStageMeaning | code-top-backend/src/api/admin/activation-keys-simple/route.ts:76-83 | after the usage filters, the statement fails exactly when the use time or the cost cannot be read |
| AdminKeysRoute.AuditStageMeaning | code-top-backend/src/api/admin/activation-keys-simple/route.ts:84-86 | after all filters, the statement fails exactly when one of the four non-text values cannot be read |
| AdminKeysRoute.FiltersMeaning | code-top-backend/src/api/admin/activation-keys-simple/route.ts:65-98 | the built statement is numbered `$1..$n`, one clause per supplied filter; a row passes it exactly when it matches the query, and it fails exactly when a filter value cannot be read |
| AdminKeysRoute.BuiltFilterIsMatched | code-top-backend/src/api/admin/activation-keys-simple/route.ts:119-127 | evaluating the built clauses, with or without the paging parameters after them, keeps exactly the matched rows |
| AdminKeysRoute.WhereBuilder.constructor | code-top-backend/src/api/admin/activation-keys-simple/route.ts:62-63 | both lists start empty |
| AdminKeysRoute.WhereBuilder.AddFilter | code-top-backend/src/api/admin/activation-keys-simple/route.ts:66-71 | the two lists become `WithFilter` of what they were, still numbered |
| AdminKeysRoute.WhereBuilder.AddIsUsed | code-top-backend/src/api/admin/activation-keys-simple/route.ts:76-80 | the two lists become `WithIsUsed` of what they were, still numbered |
| AdminKeysRoute.WhereBuilder.AddSearch | code-top-backend/src/api/admin/activation-keys-simple/route.ts:89-98 | the two lists become `WithSearch` of what they were, still numbered |
| AdminKeysRoute.FiltersCastFails | code-top-backend/src/api/admin/activation-keys-simple/route.ts:65-98 | the built statement fails exactly when a filter value cannot be read for its column |
| AdminKeysRoute.SelectIsListedPage | code-top-backend/src/api/admin/activation-keys-simple/route.ts:127-163 | the data statement, with limit and offset on the two placeholders after the filters, returns the listed page |
| AdminKeysRoute.CountIsMatched | code-top-backend/src/api/admin/activation-keys-simple/route.ts:122-153 | the count statement, run with the filter parameters alone, counts exactly the matched rows |
| AdminKeysRoute.BuildFilters | code-top-backend/src/api/admin/activation-keys-simple/route.ts:62-98 | the handler's sequence of `addFilter` calls builds exactly `Filters(q)` |
| AdminKeysRoute.Get | code-top-backend/src/api/admin/activation-keys-simple/route.ts:10-195 | the GET handler's response is the listing (properties in `ListingCount`, `ListingRowsMatch`, `ListedPageSorted`, `UnfilteredListing`): 500 with "Failed to fetch activation keys" when a filter value cannot be read |
| AdminKeysRoute.PgText | code-top-backend/src/api/admin/activation-keys-simple/route.ts:256 | the text the client sends: none for `null`, the string itself for a string |
| AdminKeysRoute.PostRejection | code-top-backend/src/api/admin/activation-keys-simple/route.ts:221-231 | a body is accepted exactly when the variant id is truthy and the keys are truthy and a string or an array; otherwise the 400 message names the first missing field |
| AdminKeysRoute.CreatedByOf | code-top-backend/src/api/admin/activation-keys-simple/route.ts:246 | the creator is `auth_user_id` when present and non-empty, else `user.id` when present and non-empty, else NULL |
| AdminKeysRoute.FirstNull | code-top-backend/src/api/admin/activation-keys-simple/route.ts:248-257 | the position of the first `null` key, whose insert breaks `NOT NULL`; every key before it is not `null` |
| AdminKeysRoute.PostRows | code-top-backend/src/api/admin/activation-keys-simple/route.ts:248-257 | one row per key before the first `null`, with the generated id, the key's text, the variant, the numeric cost or NULL, and the creator |
| AdminKeysRoute.PostResult | code-top-backend/src/api/admin/activation-keys-simple/route.ts:208-299 | a rejected body gets 400 with its message and an unchanged table; otherwise 201, with exactly the rows `PostRows` makes of the keys (each key's text, the variant, unused, the cost and the creator) appended and returned, or 500 "Failed to create activation keys", the inserts before the failure kept |
| AdminKeysRoute.Post | code-top-backend/src/api/admin/activation-keys-simple/route.ts:208-299 | the handler's table and reply are those of `PostResult` |
| AdminKeysRoute.PostRowsAreTheKeys | code-top-backend/src/api/admin/activation-keys-simple/route.ts:242-257 | string keys with no `null` are all inserted, each as an unused row of the variant with that key, the cost and the creator, and no order |
| AdminKeysRoute.KeyIdIndex | code-top-backend/src/api/admin/activation-keys-simple/route.ts:250 | the id splits at `_` into "ak", the timestamp, the index and the random part |
| AdminKeysRoute.KeyIdsDistinct | code-top-backend/src/api/admin/activation-keys-simple/route.ts:250 | ids made for different positions of one request differ, whatever the clock and the random parts |
| AdminKeysRoute.Delete | code-top-backend/src/api/admin/activation-keys-simple/route.ts:302-351 | no id gives 400 "Key ID is required" and an unchanged table; otherwise the rows with the id are removed, giving 404 "Activation key not found" when there were none, and otherwise 200 with exactly one row fewer |
| AdminKeysRoute.NormalizeSortKelvinKey | code-top-backend/src/api/admin/activation-keys-simple/route.ts:53-56 | a sort named with the Kelvin sign, which `toLowerCase` turns into "key", sorts by `key` |
| AdminKeysRoute.Filters | code-top-backend/src/api/admin/activation-keys-simple/route.ts:65-98 | the WHERE clauses and parameters the handler builds for a query; FiltersMeaning states what they select and when they fail |
| AdminKeysRoute.Matched | code-top-backend/src/api/admin/activation-keys-simple/route.ts:119-127 | the joined rows that pass the filters and the search, in table order; MatchedRow and BuiltFilterIsMatched state which rows they are |
| AdminKeysRoute.Listing | code-top-backend/src/api/admin/activation-keys-simple/route.ts:14-182 | the GET response computed from the query without SQL text; ListingCount, ListingRowsMatch, ListedPageSorted and UnfilteredListing state its properties, and Get states that the handler returns it |
| AdminKeysRoute.KeysArray | code-top-backend/src/api/admin/activation-keys-simple/route.ts:242 | an array's items, or a lone string as a list of one; PostResult states that 201 inserts one row per item |
| AdminKeysRoute.KeyId | code-top-backend/src/api/admin/activation-keys-simple/route.ts:250 | `ak_<time>_<index>_<random>`; KeyIdIndex states that it splits back into those parts |
| AdminKeysRoute.CostOf | code-top-backend/src/api/admin/activation-keys-simple/route.ts:256 | a numeric cost, or none for anything else; PostRowsAreTheKeys states that each row carries it |
| AdminKeysRoute.ColumnName | code-top-backend/src/api/admin/activation-keys-simple/route.ts:36-51 | the thirteen whitelisted sort names; ColumnNameLower and ColumnNameInjective state that they are lower case and distinct |
| AdminKeysRoute.WithFilter | code-top-backend/src/api/admin/activation-keys-simple/route.ts:66-71 | `addFilter`: nothing for an absent value, else one `column = $n` clause and its parameter; WithFilterMeaning states what it adds |
| AdminKeysRoute.WithIsUsed | code-top-backend/src/api/admin/activation-keys-simple/route.ts:76-80 | the `is_used` clause with the flag `value === "true" or "1"`; WithIsUsedMeaning states what it adds |
| AdminKeysRoute.SearchPattern | code-top-backend/src/api/admin/activation-keys-simple/route.ts:97 | the ILIKE pattern `%` + trimmed query + `%`; WithSearchMeaning states where it goes |
| AdminKeysRoute.WithSearch | code-top-backend/src/api/admin/activation-keys-simple/route.ts:89-98 | the four-column ILIKE group for a query that is not blank; WithSearchMeaning states what it adds |
| AdminKeysRoute.Matches | code-top-backend/src/api/admin/activation-keys-simple/route.ts:65-98 | the direct meaning of the WHERE clauses: every supplied filter and the search agree with the row; FiltersMeaning ties the built clauses to it |
| AdminKeysRoute.SortKeyFor | code-top-backend/src/api/admin/activation-keys-simple/route.ts:130-146 | `ORDER BY <column> <direction>` as a sort key; ListedPageSorted states that the page is in that order |
| AdminKeysRoute.Select | code-top-backend/src/api/admin/activation-keys-simple/route.ts:146-163 | the data statement with its `LIMIT`/`OFFSET` placeholders; SelectIsListedPage states that it returns the listed page |
| AdminKeysRoute.PostBatch | code-top-backend/src/api/admin/activation-keys-simple/route.ts:248-273 | the insert loop: the inserts before the first refusal, then a `NOT NULL` violation at a null key; PostResult states the replies it leads to |
| BulkKeyImport.LineKeyShaped | code-top-backend/src/admin/routes/activation-keys/components/bulk-key-import.tsx:42-45 | each key from lines without a line break is non-empty and has no white space at either end |
| BulkKeyImport.ParsedKeyShaped | code-top-backend/src/admin/routes/activation-keys/components/bulk-key-import.tsx:42-45 | every parsed key is non-empty, trimmed and free of line breaks |
| BulkKeyImport.KeysOfShaped | code-top-backend/src/admin/routes/activation-keys/components/bulk-key-import.tsx:44-45 | trimming and dropping empty lines leaves well-shaped keys as they are |
| BulkKeyImport.ParseJoinedKeys | code-top-backend/src/admin/routes/activation-keys/components/bulk-key-import.tsx:42-45 | writing well-shaped keys one per line and parsing the text gives the same keys back, in order |
| BulkKeyImport.NoKeysIffSpaceLines | code-top-backend/src/admin/routes/activation-keys/components/bulk-key-import.tsx:44-45 | the lines give no key exactly when every line is white space |
| BulkKeyImport.BlankIffNoKeys | code-top-backend/src/admin/routes/activation-keys/components/bulk-key-import.tsx:36-50 | the text parses to no key exactly when it is blank, so the "No valid activation keys found" branch cannot be reached |
| BulkKeyImport.SpaceLinesSpaceText | code-top-backend/src/admin/routes/activation-keys/components/bulk-key-import.tsx:42-43 | a text whose lines are all white space is itself white space |
| BulkKeyImport.SpaceTextSpaceLines | code-top-backend/src/admin/routes/activation-keys/components/bulk-key-import.tsx:42-43 | every line of a white-space text is white space |
| BulkKeyImport.PreviewOf | code-top-backend/src/admin/routes/activation-keys/components/bulk-key-import.tsx:121-142 | a preview exactly when there is a key: "n key(s) will be imported:", the first five keys, each cut to 30 characters plus "..." when longer, and "... and m more" exactly when there are more than five |
| BulkKeyImport.PreviewAccountsForAll | code-top-backend/src/admin/routes/activation-keys/components/bulk-key-import.tsx:129-138 | the keys shown plus the number in the "more" line count every key |
| BulkKeyImport.ButtonLabel | code-top-backend/src/admin/routes/activation-keys/components/bulk-key-import.tsx:150 | "Importing..." while submitting; otherwise "Import n Key", with "Keys" unless n is 1 |
| BulkKeyImport.SubmitBody | code-top-backend/src/admin/routes/activation-keys/components/bulk-key-import.tsx:61-64 | the body carries the variant id and an array with exactly the parsed keys, in order, and no cost |
| BulkKeyImport.SubmitBodyAccepted | code-top-backend/src/admin/routes/activation-keys/components/bulk-key-import.tsx:61-64 | the route accepts the form's body exactly when the variant id is non-empty |
| BulkKeyImport.ImportAddsTheKeys | code-top-backend/src/admin/routes/activation-keys/components/bulk-key-import.tsx:55-77 | a 201 reply means the table gained one unused row per key, in key order, each with that key, the variant and no order, and nothing else changed |
| BulkKeyImport.ImportForm.constructor | code-top-backend/src/admin/routes/activation-keys/components/bulk-key-import.tsx:26-28 | no variant, empty text, not submitting |
| BulkKeyImport.ImportForm.SelectVariant | code-top-backend/src/admin/routes/activation-keys/components/bulk-key-import.tsx:97-101 | the selection changes and nothing else does |
| BulkKeyImport.ImportForm.SetKeysText | code-top-backend/src/admin/routes/activation-keys/components/bulk-key-import.tsx:109-112 | the text changes and nothing else does |
| BulkKeyImport.ImportForm.Submit | code-top-backend/src/admin/routes/activation-keys/components/bulk-key-import.tsx:30-85 | no variant: "Please select a product variant"; blank text: "Please enter activation keys"; both leave the table and the form unchanged. Otherwise the parsed keys are posted, as `Sent` says |
| BulkKeyImport.ImportForm.Send | code-top-backend/src/admin/routes/activation-keys/components/bulk-key-import.tsx:52-84 | the table is the route's outcome and the form is not submitting; a 2xx reply shows "Successfully imported n activation key(s)" and clears the form, any other reply shows its message (or "Failed to import activation keys") and keeps the form |
| BulkKeyImport.ParseKeys | code-top-backend/src/admin/routes/activation-keys/components/bulk-key-import.tsx:42-45 | the lines of the text, trimmed, the empty ones dropped; ParsedKeyShaped, ParseJoinedKeys and BlankIffNoKeys state what it yields |
| BulkKeyImport.KeysPhrase | code-top-backend/src/admin/routes/activation-keys/components/bulk-key-import.tsx:126 | "n key", with "s" when n is more than one; KeysPhraseReadsBack states that it starts with the count |
| BulkKeyImport.KeysPhraseReadsBack | code-top-backend/src/admin/routes/activation-keys/components/bulk-key-import.tsx:72 | `parseInt` of the phrase reads back the count it was made from |
| BulkKeyImport.ButtonDisabled | code-top-backend/src/admin/routes/activation-keys/components/bulk-key-import.tsx:147 | the button is disabled while submitting, without a variant, or with no parsed key; ButtonEnabledIffAccepted states what that means |
| BulkKeyImport.ButtonEnabledIffAccepted | code-top-backend/src/admin/routes/activation-keys/components/bulk-key-import.tsx:30-50 | the button is enabled exactly when nothing is submitting, a variant is selected and the text is not blank, so an enabled click has keys to send and none of the three refusals applies |
| BulkKeyImport.KeysOf | code-top-backend/src/admin/routes/activation-keys/components/bulk-key-import.tsx:44-45 | the lines trimmed, the empty ones dropped; KeysOfShaped and NoKeysIffSpaceLines state what it keeps |
| KeysPage.Offset | code-top-backend/src/admin/routes/activation-keys/page.tsx:110 | the offset `(page - 1) * pageSize` plus one page size is `page * pageSize` |
| KeysPage.IfSet | code-top-backend/src/admin/routes/activation-keys/page.tsx:103-107 | a parameter is set exactly when its value is non-empty, and then holds that value |
| KeysPage.PageQueryRead | code-top-backend/src/admin/routes/activation-keys/page.tsx:101-110 | the route reads the page's request back as limit = page size and offset = `(page - 1) * pageSize`; `is_used` is sent only when the status filter is set, the search only when it is not blank, the variant only when it is non-empty |
| KeysPage.InitialSortNewestFirst | code-top-backend/src/admin/routes/activation-keys/page.tsx:66-67 | the page's initial sort `created_at` / `desc` is the route's newest-first order |
| KeysPage.ShowingCountsTheRows | code-top-backend/src/admin/routes/activation-keys/page.tsx:411 | for a request the route reads as the page's size and offset, a successful page holds at most `pageSize` rows, and "showing from-to" spans exactly the rows it holds |
| KeysPage.ShownRows | code-top-backend/src/admin/routes/activation-keys/page.tsx:411 | a response paged as the page's size and offset shows exactly its own rows in the footer range |
| KeysPage.ShowingCountsThePage | code-top-backend/src/admin/routes/activation-keys/page.tsx:98-129 | the same for the request the page itself builds |
| KeysPage.ShowingRange | code-top-backend/src/admin/routes/activation-keys/page.tsx:411 | a page of `min(pageSize, total - offset)` rows is numbered from offset + 1 to `min(page * pageSize, total)` |
| KeysPage.NextEnabledIffMoreRows | code-top-backend/src/admin/routes/activation-keys/page.tsx:437 | Next is enabled exactly when the next page would start before the last row |
| KeysPage.KeyCell | code-top-backend/src/admin/routes/activation-keys/page.tsx:355 | keys of at most 20 characters show as they are; longer keys show their first 20 and "..." |
| KeysPage.CellsShowRouteDefaults | code-top-backend/src/admin/routes/activation-keys/page.tsx:359-366 | the route has already filled in missing titles and SKUs, so the page's translated fallbacks never show |
| KeysPage.StatusBadge | code-top-backend/src/admin/routes/activation-keys/page.tsx:380-382 | the badge is red exactly for a used key; its caption is the translated "used" or "available" |
| KeysPage.CostField | code-top-backend/src/admin/routes/activation-keys/page.tsx:149 | a cost is sent exactly when the cost text is not blank, as `Number(newCost)` |
| KeysPage.AddKeyInsertsOne | code-top-backend/src/admin/routes/activation-keys/page.tsx:146-150 | the route takes a non-empty key with a non-empty variant as one key: it answers 201 or 500, and 201 means the table gained exactly one unused row holding that key for that variant |
| KeysPage.KeysPage.constructor | code-top-backend/src/admin/routes/activation-keys/page.tsx:51-70 | the initial state: the browser's language, no rows, loading, page 1 of 25, no filters, `created_at` / `desc`, both drawers closed |
| KeysPage.KeysPage.Reload | code-top-backend/src/admin/routes/activation-keys/page.tsx:203-205 | the effect on `[page, pageSize]` sends the current request exactly when one of them changed |
| KeysPage.KeysPage.PrevPage | code-top-backend/src/admin/routes/activation-keys/page.tsx:431 | Prev goes one page back, never below page 1 |
| KeysPage.KeysPage.NextPage | code-top-backend/src/admin/routes/activation-keys/page.tsx:438 | Next goes one page on and requests it |
| KeysPage.KeysPage.SetPageSize | code-top-backend/src/admin/routes/activation-keys/page.tsx:418 | a new page size starts again from page 1 |
| KeysPage.KeysPage.ToggleLanguage | code-top-backend/src/admin/routes/activation-keys/page.tsx:232 | the language button switches between English and Russian |
| KeysPage.KeysPage.Load | code-top-backend/src/admin/routes/activation-keys/page.tsx:98-129 | a successful reply replaces the rows and the total and shows no toast; a failed one keeps them and shows "failed to load"; loading ends either way |
| KeysPage.KeysPage.Apply | code-top-backend/src/admin/routes/activation-keys/page.tsx:116-125 | a GET reply replaces the rows and total on success, and otherwise keeps them and shows "failed to load" |
| KeysPage.KeysPage.InitFromUrl | code-top-backend/src/admin/routes/activation-keys/page.tsx:73-95 | a non-empty `product_variant_id` becomes the variant filter and page 1, and the listing is requested for that id from the state before the updates; otherwise nothing changes |
| KeysPage.KeysPage.AddKey | code-top-backend/src/admin/routes/activation-keys/page.tsx:132-170 | without a variant or with a blank key: "please select a variant and enter a key", with the table and the drawer unchanged; otherwise the trimmed key is posted, as `KeySent` says |
| KeysPage.KeysPage.SendKey | code-top-backend/src/admin/routes/activation-keys/page.tsx:138-169 | the table is the route's outcome for the add-key body, the page ends not submitting and it has answered the reply as `AddAnswered` says |
| KeysPage.KeysPage.Answer | code-top-backend/src/admin/routes/activation-keys/page.tsx:153-166 | a 2xx reply (and only that) shows "key added" and closes and clears the drawer; any other reply shows its message, or "Failed to add activation key", and keeps the drawer |
| KeysPage.KeysPage.DeleteKey | code-top-backend/src/admin/routes/activation-keys/page.tsx:173-195 | nothing without confirmation; otherwise the row with the id is removed, the "deleted" toast shows exactly when a row had the id, and only then is the listing requested again |
| KeysPage.KeysPage.BulkImportSucceeded | code-top-backend/src/admin/routes/activation-keys/page.tsx:198-201 | the bulk drawer closes and the listing is requested again |
| KeysPage.PageQuery | code-top-backend/src/admin/routes/activation-keys/page.tsx:98-110 | the listing request the page builds from its filters, sort and page; PageQueryRead states how the route reads it back |
| KeysPage.ShowingFrom | code-top-backend/src/admin/routes/activation-keys/page.tsx:411 | the footer's first row number, one past the offset, or 0 for an empty page; ShowingRange and ShownRows state the range it opens |
| KeysPage.ShowingTo | code-top-backend/src/admin/routes/activation-keys/page.tsx:411 | the footer's last row number, `min(page * pageSize, total)`; ShowingRange and ShownRows state the range it closes |
| KeysPage.PrevDisabled | code-top-backend/src/admin/routes/activation-keys/page.tsx:430 | Prev is disabled on the first page; KeysPage.PrevPage states that Prev never goes below page 1 |
| KeysPage.NextDisabled | code-top-backend/src/admin/routes/activation-keys/page.tsx:437 | Next is disabled once `page * pageSize` reaches the total; NextEnabledIffMoreRows states what that means |
| KeysPage.AddKeyBody | code-top-backend/src/admin/routes/activation-keys/page.tsx:146-150 | the add-key body: the variant id, the key as one string and the optional cost; AddKeyInsertsOne states what the route does with it |
| KeysPage.ProductCell | code-top-backend/src/admin/routes/activation-keys/page.tsx:359 | the product title or the translated "unknown product"; CellsShowRouteDefaults states which text shows |
| KeysPage.VariantCell | code-top-backend/src/admin/routes/activation-keys/page.tsx:362 | the variant title or the translated "default variant"; CellsShowRouteDefaults states which text shows |
| KeysPage.SkuCell | code-top-backend/src/admin/routes/activation-keys/page.tsx:366 | the SKU or "-"; CellsShowRouteDefaults states which text shows |
| SearchBar.BasePath | code-top-frontend/src/modules/layout/components/search-bar/index.tsx:10-23 | the base path starts with "/" and is the country code (or nothing) between "/" and "/search" |
| SearchBar.TargetForLayout | code-top-frontend/src/modules/layout/components/search-bar/index.tsx:24 | an empty trimmed query leads to the base; any other adds `?q=` and the encoded query after the base; with no "?" in the base, the target holds one exactly when the query is non-empty |
| SearchBar.TargetQueryString | code-top-frontend/src/modules/layout/components/search-bar/index.tsx:20-26 | a blank query leads to the bare search page, any other to the search page with `?q=` and the encoded trimmed query; with a country code free of "?", the target has a query string exactly when the query is not blank |
| SearchBar.TrimSplits | code-top-frontend/src/modules/layout/components/search-bar/index.tsx:22 | a query is its leading white space, its trimmed text and its trailing white space |
| SearchBar.TrimIgnoresPadding | code-top-frontend/src/modules/layout/components/search-bar/index.tsx:22 | white space added around a query does not change its trimmed text |
| SearchBar.PaddingIgnored | code-top-frontend/src/modules/layout/components/search-bar/index.tsx:20-26 | white space typed around a query does not change where it leads |
| SearchBar.SearchBar.constructor | code-top-frontend/src/modules/layout/components/search-bar/index.tsx:10-13 | the bar starts with the route's country code and an empty query |
| SearchBar.SearchBar.SyncFromUrl | code-top-frontend/src/modules/layout/components/search-bar/index.tsx:15-18 | the query becomes the URL's `q` parameter, or empty without one |
| SearchBar.SearchBar.Typed | code-top-frontend/src/modules/layout/components/search-bar/index.tsx:56 | the query becomes the input's value |
| SearchBar.SearchBar.KeyDown | code-top-frontend/src/modules/layout/components/search-bar/index.tsx:38-46 | Escape clears the query; any other key leaves it unchanged |
| SearchBar.SearchBar.Submit | code-top-frontend/src/modules/layout/components/search-bar/index.tsx:30-36 | the pushed path is the target of the current query, and it is the bare search page exactly when the query is blank |
| SearchBar.TargetFor | code-top-frontend/src/modules/layout/components/search-bar/index.tsx:24 | the base, with `?q=` and the encoded query when the trimmed query is not empty; TargetForLayout states the layout |
| SearchBar.Target | code-top-frontend/src/modules/layout/components/search-bar/index.tsx:20-26 | where `navigate` sends a query: the target of its trim under the country's base; TargetQueryString and PaddingIgnored state where it leads |
| OrderSubscriber.KeysListLines | code-top-backend/src/subscribers/order-subscriber.ts:96-98 | the keys list splits back at its newlines into one `product - variant: key` line per collected key, in order |
| OrderSubscriber.Message | code-top-backend/src/subscribers/order-subscriber.ts:100-113 | the e-mail text is the trimmed template: the greeting, the order number, the keys list and the signature, with the template's surrounding white space gone |
| OrderSubscriber.NameOf | code-top-backend/src/subscribers/order-subscriber.ts:135-139 | an address gives a name exactly when it has a non-empty first name |
| OrderSubscriber.CustomerName | code-top-backend/src/subscribers/order-subscriber.ts:134-142 | the shipping name, else the billing name, else "Покупатель" |
| OrderSubscriber.NameOfFull | code-top-backend/src/subscribers/order-subscriber.ts:136 | first and last names without outer white space are joined by one space |
| OrderSubscriber.NameOfFirstOnly | code-top-backend/src/subscribers/order-subscriber.ts:136 | without a last name the name is the first name alone, the trailing space trimmed away |
| OrderSubscriber.CollectedSkip | code-top-backend/src/subscribers/order-subscriber.ts:33-53 | an item without a variant, or one whose variant has no free key, leaves the loop state as it was |
| OrderSubscriber.CollectedHand | code-top-backend/src/subscribers/order-subscriber.ts:36-48 | a free key handed to the item adds its entry with the item's titles (or the defaults) and its quantity, and its variant loses exactly one free key |
| OrderSubscriber.CollectedAfterRetrieve | code-top-backend/src/subscribers/order-subscriber.ts:36-51 | whatever the allocator answers for the item, the loop state moves on to the next item |
| OrderSubscriber.DistinctRowsDistinctIds | code-top-backend/src/subscribers/order-subscriber.ts:36-39 | two different rows of the key table never have the same id, so no key is handed out twice |
| OrderSubscriber.AllocateItem | code-top-backend/src/subscribers/order-subscriber.ts:33-52 | one turn of the loop keeps its state: the table only hands out free keys to the order, every entry traces back to an item and the row of its key |
| OrderSubscriber.AllocateAll | code-top-backend/src/subscribers/order-subscriber.ts:25-53 | after the loop: every entry came, in item order, from an item naming a variant and a different free key of that variant now held by the order; every item with a variant that got no key found none free; each variant lost exactly one free key per item it served; nothing else in the table changed |
| OrderSubscriber.Outgoing | code-top-backend/src/subscribers/order-subscriber.ts:55-70 | a notification is sent exactly when a key was collected and the order has an e-mail; it goes to that address with the customer name, the order id, the collected keys and the trimmed message |
| OrderSubscriber.HandlePaymentCaptured | code-top-backend/src/subscribers/order-subscriber.ts:6-75 | an order that cannot be read changes nothing and sends nothing; otherwise the table and entries are as `AllocateAll` says and the e-mail is what `Outgoing` decides |
| OrderSubscriber.Items | code-top-backend/src/subscribers/order-subscriber.ts:33 | `order.items` or no items; AllocateAll states that the loop visits them in order |
| OrderSubscriber.EntryOf | code-top-backend/src/subscribers/order-subscriber.ts:43-48 | the collected entry: the key, the product title or "Unknown Product", the variant title or "Unknown Variant", and the item's quantity; CollectedHand states that each handed key adds it |
| OrderSubscriber.KeyLine | code-top-backend/src/subscribers/order-subscriber.ts:97 | one e-mail line, `product - variant: key`; KeysListLines states that the list splits back into these lines |
| OrderSubscriber.KeysList | code-top-backend/src/subscribers/order-subscriber.ts:96-98 | the lines joined by newlines; KeysListLines states that it splits back into one line per entry, in order |
| OrderSubscriber.MessageTemplate | code-top-backend/src/subscribers/order-subscriber.ts:100-113 | the template literal before `.trim()`, with its leading newline and closing indentation; Message states that trimming leaves exactly the body |
| OrderSubscriber.HasVariant | code-top-backend/src/subscribers/order-subscriber.ts:34 | `if (item.variant_id)`: a present, non-empty variant id; AllocateAll states that only such items get keys |
| OrderSubscriber.MessageBody | code-top-backend/src/subscribers/order-subscriber.ts:101-112 | the e-mail text between the template's leading newline and closing indentation; Message states that it is the trimmed template |
| RobokassaService.TestUrlIffTrue | code-top-backend/src/modules/robokassa/service.ts:17-27 | the payment form is the test endpoint exactly when `ROBOKASSA_TEST_MODE` reads "true", the live one otherwise; a missing login becomes "" |
| RobokassaService.Rubles | code-top-backend/src/modules/robokassa/service.ts:36 | a non-negative amount in kopecks shows as the rubles in decimal, ".", and the kopecks as two digits |
| RobokassaService.OutSum | code-top-backend/src/modules/robokassa/service.ts:36 | `OutSum` has at least four characters and starts with "-" exactly for a negative amount |
| RobokassaService.RublesRoundTrip | code-top-backend/src/modules/robokassa/service.ts:36 | the kopeck amount reads back from its rubles text |
| RobokassaService.OutSumRoundTrip | code-top-backend/src/modules/robokassa/service.ts:36 | `OutSum` loses nothing: every amount in kopecks reads back from it |
| RobokassaService.OutSumWholeRubles | code-top-backend/src/modules/robokassa/service.ts:36 | a whole number of rubles shows with ".00" |
| RobokassaService.OutSumInjective | code-top-backend/src/modules/robokassa/service.ts:36 | two different amounts never share an `OutSum` |
| RobokassaService.Signature | code-top-backend/src/modules/robokassa/service.ts:98-101 | the signature is the digest of the parameters joined with ":"; one parameter is signed alone |
| RobokassaService.NoColonInOutSum | code-top-backend/src/modules/robokassa/service.ts:36-47 | an `OutSum` never holds ":", the signature's separator |
| RobokassaService.SignedTextOrder | code-top-backend/src/modules/robokassa/service.ts:42-47 | the signed text is `login:OutSum:InvId:password1`, and when the credentials hold no ":" it splits back into those four fields in that order |
| RobokassaService.QueryString | code-top-backend/src/modules/robokassa/service.ts:49-59 | no parameters give an empty query string |
| RobokassaService.QuerySplits | code-top-backend/src/modules/robokassa/service.ts:49-59 | with an encoding that never produces "&", the query string splits back into its `name=value` entries in order |
| RobokassaService.RedirectUrlLayout | code-top-backend/src/modules/robokassa/service.ts:29-62 | the redirect URL is the base URL, "?" and the seven form entries in order; InvId carries the returned id and SignatureValue the digest of `login:OutSum:InvId:password1` |
| RobokassaService.PaymentIdIsInvId | code-top-backend/src/modules/robokassa/service.ts:37-61 | the returned payment id is the invoice number's decimal text and reads back as that number |
| RobokassaService.Handle | code-top-backend/src/modules/robokassa/service.ts:64-96 | each status-only operation hands back the data it was given |
| RobokassaService.StatusNamesTheOperation | code-top-backend/src/modules/robokassa/service.ts:64-96 | two operations report the same status exactly when they are the same operation (refunds of any amount alike) |
| RobokassaService.ConfigFrom | code-top-backend/src/modules/robokassa/service.ts:17-27 | the constructor's settings: each credential is the variable or "", test mode only for exactly "true", with the base URL it selects; TestUrlIffTrue states the choice |
| RobokassaService.SignatureFields | code-top-backend/src/modules/robokassa/service.ts:42-47 | the four signed fields, login, OutSum, InvId and password1, in that order; SignedTextOrder states the signed text they join into |
| RobokassaService.FormParams | code-top-backend/src/modules/robokassa/service.ts:49-57 | the seven form parameters in insertion order with the fixed description, culture and encoding; RedirectUrlLayout states the URL they make |
| RobokassaService.InitiatePayment | code-top-backend/src/modules/robokassa/service.ts:29-62 | the payment id and redirect URL for an amount and a drawn invoice number; RedirectUrlLayout and PaymentIdIsInvId state their content |
| RobokassaService.StatusOf | code-top-backend/src/modules/robokassa/service.ts:64-96 | the status each provider operation reports; StatusNamesTheOperation states that the status names the operation |
| RobokassaCallback.Interpolated | code-top-backend/src/api/robokassa/route.ts:17 | a posted field prints as itself; a missing one prints as "undefined" |
| RobokassaCallback.Callback | code-top-backend/src/api/robokassa/route.ts:6-33 | a form without `SignatureValue` throws; otherwise the reply is "OK" and the invoice number exactly when the digest of `OutSum:InvId:password2` equals the posted signature ignoring case, and "Invalid Signature" with status 400 when it does not |
| RobokassaCallback.LowerIdempotent | code-top-backend/src/api/robokassa/route.ts:20 | lower-casing twice is lower-casing once |
| RobokassaCallback.ExpectedIsSignature | code-top-backend/src/api/robokassa/route.ts:16-18 | the expected digest is the service's signature over OutSum, InvId and password2, in that order |
| RobokassaCallback.CaseOfSignatureIgnored | code-top-backend/src/api/robokassa/route.ts:20 | sending the signature upper-cased or lower-cased gives the same reply |
| RobokassaCallback.GenuineNotificationAccepted | code-top-backend/src/api/robokassa/route.ts:16-32 | a notification signed with password2, in either case, is acknowledged with "OK" and its invoice number |
| RobokassaCallback.RefusedGetsNoOk | code-top-backend/src/api/robokassa/route.ts:20-23 | a signature that differs from the digest ignoring case gets status 400 and no reply starting with "OK" |
| RobokassaCallback.Expected | code-top-backend/src/api/robokassa/route.ts:16-18 | the MD5 digest of the interpolated `OutSum:InvId:password2`; ExpectedIsSignature ties it to the service's signature |
| RobokassaCallback.SameIgnoringCase | code-top-backend/src/api/robokassa/route.ts:20 | the two texts agree after `toLowerCase`; CaseOfSignatureIgnored states that the case of the posted signature does not matter |
| StorePaymentRoute.Validated | code-top-backend/src/api/store/robokassa/route.ts:10-25 | a body is accepted exactly when `amount` is a number and `currency_code`, `description` and `email` are non-empty strings, and then exactly those four values go to the service |
| StorePaymentRoute.Post | code-top-backend/src/api/store/robokassa/route.ts:5-47 | an invalid body gets 400 with the expected shape in its message; status 200 comes exactly when the service returns a non-empty redirect URL, and then the body holds that URL |
| StorePaymentRoute.FailuresAre500 | code-top-backend/src/api/store/robokassa/route.ts:38-45 | for a valid body, a thrown error gives 500 with its message (or "Internal Server Error") and a missing or empty URL gives 500 "Failed to obtain redirectUrl" |
| StorePaymentRoute.AmountMustBeANumber | code-top-backend/src/api/store/robokassa/route.ts:13 | an amount sent as a string is refused with 400 |
| StorePaymentRoute.ServiceAlwaysRedirects | code-top-backend/src/api/store/robokassa/route.ts:31-43 | with the Robokassa service, a valid body is always answered 200 with the URL the service built for its amount |
| Json.NonEmptyString | code-top-backend/src/api/store/robokassa/route.ts:14-19 | a field passes the "truthy and a string" test exactly when it is a non-empty string, and then that string is its value |
| Toasts.ErrorText | code-top-backend/src/admin/routes/activation-keys/page.tsx:155 | the reply's message when it is non-empty, otherwise the fallback |
| Catalog.FindVariant | code-top-backend/src/api/admin/activation-keys-simple/route.ts:116 | the join finds a variant with the key's variant id, and finds none exactly when no variant has that id |
| Catalog.ProductOf | code-top-backend/src/api/admin/activation-keys-simple/route.ts:117 | the variant's product is found exactly when its id is in the product table, and then it is that product |
| Catalog.FindVariantUnique | code-top-backend/src/api/admin/activation-keys-simple/route.ts:116 | with unique variant ids, the join finds exactly the variant listed under an id |
| Ordering.TextLeTotal | code-top-backend/src/api/admin/activation-keys-simple/route.ts:146 | any two texts are ordered one way or the other |
| Ordering.TextLeAntisymmetric | code-top-backend/src/api/admin/activation-keys-simple/route.ts:146 | two texts ordered both ways are equal |
| Ordering.TextLeTransitive | code-top-backend/src/api/admin/activation-keys-simple/route.ts:146 | the text order is transitive |
| Ordering.ValueLeTotal | code-top-backend/src/api/admin/activation-keys-simple/route.ts:146 | any two column values are ordered one way or the other, NULL after all others |
| Ordering.ValueLeAntisymmetric | code-top-backend/src/api/admin/activation-keys-simple/route.ts:146 | two column values ordered both ways are equal |
| Ordering.ValueLeTransitive | code-top-backend/src/api/admin/activation-keys-simple/route.ts:146 | the column-value order is transitive |
| Ordering.SortKeyLeTotal | code-top-backend/src/api/admin/activation-keys-simple/route.ts:146 | any two sort keys are ordered one way or the other |
| Ordering.SortKeyLeAntisymmetric | code-top-backend/src/api/admin/activation-keys-simple/route.ts:146 | two sort keys ordered both ways are equal |
| Ordering.SortKeyLeTransitive | code-top-backend/src/api/admin/activation-keys-simple/route.ts:146 | the sort-key order is transitive |
| Ordering.KeysLeTotal | code-top-backend/src/api/admin/activation-keys-simple/route.ts:146 | any two rows' key lists are ordered one way or the other |
| Ordering.KeysLeTransitive | code-top-backend/src/api/admin/activation-keys-simple/route.ts:146 | the order on key lists, where the first differing key decides, is transitive |
| Ordering.Insert | code-top-backend/src/api/admin/activation-keys-simple/route.ts:146 | inserting a row into rows in `ORDER BY` order keeps them in order, adds one row and adds nothing else |
| Ordering.SortBy | code-top-backend/src/api/admin/activation-keys-simple/route.ts:146 | the sorted rows are in `ORDER BY` order and as many as were given |
| Ordering.InsertPermutes | code-top-backend/src/api/admin/activation-keys-simple/route.ts:146 | inserting a row adds exactly that row to the rows |
| Ordering.SortByPermutes | code-top-backend/src/api/admin/activation-keys-simple/route.ts:146 | sorting only reorders: the sorted rows are the given rows, with their repetitions |
| Text.TrimStart | code-top-backend/src/api/admin/activation-keys-simple/route.ts:89 | the result is a suffix of the text, starting with no white space, after nothing but white space |
| Text.TrimStartSplits | code-top-backend/src/api/admin/activation-keys-simple/route.ts:89 | a text is its leading white space followed by its `TrimStart` |
| Text.TrimEnd | code-top-backend/src/api/admin/activation-keys-simple/route.ts:89 | the result is a prefix of the text, ending with no white space, before nothing but white space |
| Text.TrimEndSplits | code-top-backend/src/api/admin/activation-keys-simple/route.ts:89 | what `TrimEnd` removes is all white space |
| Text.BlankIffAllSpace | code-top-backend/src/api/admin/activation-keys-simple/route.ts:89 | `!s.trim()` holds exactly when every character is white space |
| Text.TrimIsTight | code-top-backend/src/api/admin/activation-keys-simple/route.ts:97 | a trimmed text has no white space at either end |
| Text.TightTrimFixed | code-top-backend/src/api/admin/activation-keys-simple/route.ts:97 | a text without white space at either end is its own trim |
| Text.TrimIdempotent | code-top-backend/src/api/admin/activation-keys-simple/route.ts:97 | trimming twice is trimming once |
| Text.TrimStartPadded | code-top-backend/src/api/admin/activation-keys-simple/route.ts:97 | white space put before a text that does not start with it is exactly what `TrimStart` removes |
| Text.TrimEndPadded | code-top-backend/src/api/admin/activation-keys-simple/route.ts:97 | white space put after a text that does not end with it is exactly what `TrimEnd` removes |
| Text.TrimPadded | code-top-backend/src/api/admin/activation-keys-simple/route.ts:97 | white space put around a tight text is exactly what `trim` removes |
| Text.Split | code-top-backend/src/admin/routes/activation-keys/components/bulk-key-import.tsx:43 | splitting gives at least one part, and no part holds the separator |
| Text.JoinCons | code-top-backend/src/admin/routes/activation-keys/components/bulk-key-import.tsx:43 | joining after prefixing the first part prefixes the joined text |
| Text.JoinSplit | code-top-backend/src/admin/routes/activation-keys/components/bulk-key-import.tsx:43 | joining the parts of a split with the separator gives the text back |
| Text.SplitNoSeparator | code-top-backend/src/admin/routes/activation-keys/components/bulk-key-import.tsx:43 | a text without the separator is one part |
| Text.SplitAtSeparator | code-top-backend/src/admin/routes/activation-keys/components/bulk-key-import.tsx:43 | a text cut at its first separator splits into the part before it and the parts after it |
| Text.SplitJoin | code-top-backend/src/admin/routes/activation-keys/components/bulk-key-import.tsx:43 | parts without the separator come back from splitting their join |
| Text.TrimWithin | code-top-backend/src/admin/routes/activation-keys/components/bulk-key-import.tsx:44 | trimming adds no character |
| Text.TrimWithout | code-top-backend/src/admin/routes/activation-keys/components/bulk-key-import.tsx:44 | a character absent from a text is absent from its trim |
| Text.SplitWithin | code-top-backend/src/admin/routes/activation-keys/components/bulk-key-import.tsx:43 | every character of a part is in the text |
| Text.AllSpaceConcat | code-top-backend/src/admin/routes/activation-keys/components/bulk-key-import.tsx:36 | white space followed by white space is white space |
| Text.JoinAllSpace | code-top-backend/src/admin/routes/activation-keys/components/bulk-key-import.tsx:36 | white-space parts joined with a white-space separator are white space |
| Text.Lower | code-top-backend/src/api/admin/activation-keys-simple/route.ts:54 | `toLowerCase` on ASCII letters: each character is mapped on its own, "A" to "Z" to "a" to "z", every other character kept |
| Text.Upper | code-top-backend/src/api/robokassa/route.ts:20 | `toUpperCase` on ASCII letters: each character is mapped on its own, "a" to "z" to "A" to "Z", every other character kept |
| Text.LowerOfUpper | code-top-backend/src/api/robokassa/route.ts:20 | lower-casing an upper-cased text is lower-casing it |
| Text.Truncate | code-top-backend/src/admin/routes/activation-keys/components/bulk-key-import.tsx:131 | a text no longer than the limit shows as it is; a longer one as its first characters up to the limit and "..." |
| Text.LeadingRun | code-top-backend/src/api/admin/activation-keys-simple/route.ts:155 | the leading run is the longest prefix of digits of the radix |
| Text.DigitChar | code-top-backend/src/api/admin/activation-keys-simple/route.ts:153 | a decimal digit's character has that digit's value |
| Text.NatToString | code-top-backend/src/modules/robokassa/service.ts:45 | a number's decimal text is non-empty and made of decimal digits |
| Text.NatToStringValue | code-top-backend/src/modules/robokassa/service.ts:45 | a number's decimal text reads back as that number |
| Text.LeadingRunOfDigits | code-top-backend/src/api/admin/activation-keys-simple/route.ts:155 | a text made of digits is its own leading run |
| Text.OrDefault | code-top-backend/src/api/admin/activation-keys-simple/route.ts:155-156 | a parsed number or a default: the parsed value unless it is NaN or 0, and then the default |
| Text.DecimalDigitFacts | code-top-backend/src/api/admin/activation-keys-simple/route.ts:155 | a decimal digit is neither white space, a sign nor a hex marker |
| Text.TrimStartOfUnpadded | code-top-backend/src/api/admin/activation-keys-simple/route.ts:155 | a text not starting with white space has nothing to skip |
| Text.ParseInt10OfNat | code-top-backend/src/api/admin/activation-keys-simple/route.ts:153-156 | `parseInt(s, 10)` reads a number's decimal text back as that number |
| Text.ParseIntAutoOfNat | code-top-backend/src/api/admin/activation-keys/variants/route.ts:56 | `parseInt(s)` with no radix reads a number's decimal text back as that number |
| Text.Pad2 | code-top-backend/src/modules/robokassa/service.ts:36 | a number below 100 shows as two decimal digits that read back as it |
| Text.OrText | code-top-frontend/src/modules/layout/components/search-bar/index.tsx:10 | a text or a default: the text when it is non-empty, otherwise the default |
| Text.Trim | code-top-backend/src/api/admin/activation-keys-simple/route.ts:97 | `trim()`: the leading and then the trailing white space removed; TrimIsTight, TrimIdempotent and TrimPadded state what it keeps |
| Text.Join | code-top-backend/src/subscribers/order-subscriber.ts:98 | `join(sep)`: the parts with the separator between them; SplitJoin and JoinSplit state the round trips with Split |
| Text.ParseInt10 | code-top-backend/src/api/admin/activation-keys-simple/route.ts:155-156 | `parseInt(s, 10)`: white space skipped, a sign, the longest run of decimal digits, or none; ParseInt10OfNat states the round trip |
| Text.ParseIntAuto | code-top-backend/src/api/admin/activation-keys/variants/route.ts:56 | `parseInt(s)` with no radix, "0x" read as hexadecimal; ParseIntAutoOfNat states the round trip for decimal text |
| Text.LeadingRunStops | code-top-backend/src/api/admin/activation-keys-simple/route.ts:155 | the digit run of digits followed by a non-digit is exactly those digits |
| Text.ParseInt10OfNatThen | code-top-backend/src/api/admin/activation-keys-simple/route.ts:155 | `parseInt(s, 10)` reads a number's decimal text back even when a non-digit follows it |
| Translations.T | code-top-backend/src/admin/utils/translations.ts:124-130 | `t` gives the selected language's entry, or the English one when that entry is empty |
| Translations.TEnglish | code-top-backend/src/admin/utils/translations.ts:124-127 | with English selected, `t` is the English table |
| Translations.EnglishFilled | code-top-backend/src/admin/utils/translations.ts:2-59 | every English entry is non-empty |
| Translations.RussianFilled | code-top-backend/src/admin/utils/translations.ts:60-117 | every Russian entry is non-empty |
| Translations.TablesComplete | code-top-backend/src/admin/utils/translations.ts:1-127 | both tables are complete, so `t` never falls back and never gives "" |
| Translations.BrowserLanguage | code-top-backend/src/admin/utils/translations.ts:133-141 | Russian exactly when there is a browser and its language, lower-cased, starts with "ru"; English otherwise |
| Translations.BrowserLanguageIgnoresCase | code-top-backend/src/admin/utils/translations.ts:135 | the choice ignores letter case |
| Translations.BrowserLanguageByPrefix | code-top-backend/src/admin/utils/translations.ts:136 | the choice looks only at the first two characters |
| Translations.English | code-top-backend/src/admin/utils/translations.ts:2-59 | the English table, one text per key; EnglishFilled states that no entry is empty |
| Translations.Russian | code-top-backend/src/admin/utils/translations.ts:60-117 | the Russian table, one text per key; RussianFilled states that no entry is empty |
| VariantKeysWidget.WordRun | code-top-backend/src/admin/widgets/product-variant-keys.tsx:31 | `\w+`: the longest prefix of word characters |
| VariantKeysWidget.SegmentRun | code-top-backend/src/admin/widgets/product-variant-keys.tsx:31 | `[^/]+`: the longest prefix without "/", followed by "/" when it stops early |
| VariantKeysWidget.ParseAdminPath | code-top-backend/src/admin/widgets/product-variant-keys.tsx:27-39 | without a match the prefix is "a" and there is no product id; with one, the two groups are the prefix and the product id |
| VariantKeysWidget.WordRunOf | code-top-backend/src/admin/widgets/product-variant-keys.tsx:31 | word characters followed by anything else are exactly the run |
| VariantKeysWidget.SegmentRunOf | code-top-backend/src/admin/widgets/product-variant-keys.tsx:31 | a segment followed by "/" or nothing is exactly the run |
| VariantKeysWidget.ParseProductPage | code-top-backend/src/admin/widgets/product-variant-keys.tsx:27-39 | `/<prefix>/products/<id>`, with anything after a further "/", names that prefix and that product id |
| VariantKeysWidget.MatchedAfterPrefix | code-top-backend/src/admin/widgets/product-variant-keys.tsx:31 | a path made of "/", a word prefix, "/products/" and a segment matches with those two groups |
| VariantKeysWidget.ParseOtherPath | code-top-backend/src/admin/widgets/product-variant-keys.tsx:30-37 | a path that does not start with "/" names no product and gets the prefix "a" |
| VariantKeysWidget.ReplyTotal | code-top-backend/src/admin/widgets/product-variant-keys.tsx:85-89 | a failed count request counts 0; an ok one counts its numeric `total`, or 0 when `total` is not a number |
| VariantKeysWidget.BuildCounts | code-top-backend/src/admin/widgets/product-variant-keys.tsx:93-96 | the loop builds the map `CountsOf` describes |
| VariantKeysWidget.CountsOfLookup | code-top-backend/src/admin/widgets/product-variant-keys.tsx:93-96 | the map holds exactly the ids of the results, each with the total of the last result for that id |
| VariantKeysWidget.CountOf | code-top-backend/src/admin/widgets/product-variant-keys.tsx:128 | a variant's count is its entry in the map, or 0 without one |
| VariantKeysWidget.LineOf | code-top-backend/src/admin/widgets/product-variant-keys.tsx:127-156 | a line shows the variant's count, green exactly when positive, its title or "Вариация", its SKU when non-empty, and the link to its keys |
| VariantKeysWidget.LinesOf | code-top-backend/src/admin/widgets/product-variant-keys.tsx:127-160 | one line per variant, in order |
| VariantKeysWidget.Widget.constructor | code-top-backend/src/admin/widgets/product-variant-keys.tsx:21-39 | the widget reads its location from the path once and starts with no product, not loading, no error and no counts |
| VariantKeysWidget.Widget.ProductRequest | code-top-backend/src/admin/widgets/product-variant-keys.tsx:42-49 | the product is requested, from `/admin/products/<id>`, exactly when the path names a product |
| VariantKeysWidget.Widget.ProductFetched | code-top-backend/src/admin/widgets/product-variant-keys.tsx:42-66 | an ok reply becomes the product, its variants empty unless they came as an array; a failure sets "Не удалось загрузить товар" or its own message (or "Ошибка загрузки товара") and keeps the product; loading ends either way |
| VariantKeysWidget.Widget.CountRequests | code-top-backend/src/admin/widgets/product-variant-keys.tsx:72-91 | one count request per variant, for that variant with `limit=1` and `offset=0`; none without a product |
| VariantKeysWidget.Widget.CountsFetched | code-top-backend/src/admin/widgets/product-variant-keys.tsx:72-104 | a request that threw keeps the old counts; otherwise the counts become the map from each variant id to its reply's total |
| VariantKeysWidget.Widget.View | code-top-backend/src/admin/widgets/product-variant-keys.tsx:106-124 | nothing shows without a product id; an error, when there is one, shows instead of everything else |
| VariantKeysWidget.CountRequestsFor | code-top-backend/src/admin/widgets/product-variant-keys.tsx:76-81 | one count request per variant, in order |
| VariantKeysWidget.Results | code-top-backend/src/admin/widgets/product-variant-keys.tsx:75-91 | each variant is paired with its own reply's total |
| VariantKeysWidget.LineShowsItsTotal | code-top-backend/src/admin/widgets/product-variant-keys.tsx:93-135 | with distinct variant ids, each variant's line shows its own reply's total, green exactly when positive |
| VariantKeysWidget.MissingCountIsRed | code-top-backend/src/admin/widgets/product-variant-keys.tsx:128-135 | a variant missing from the map counts 0 and shows a red badge |
| VariantKeysWidget.CountIgnoresPaging | code-top-backend/src/admin/widgets/product-variant-keys.tsx:79-82 | the count request's total is the total of the same listing without `limit=1` and `offset=0` |
| VariantKeysWidget.MatchProductPath | code-top-backend/src/admin/widgets/product-variant-keys.tsx:31 | the two groups of `^\/(\w+)\/products\/([^\/]+)`, or none; MatchedAfterPrefix and ParseOtherPath state which paths match |
| VariantKeysWidget.CountQuery | code-top-backend/src/admin/widgets/product-variant-keys.tsx:77-80 | the count request for one variant: only `product_variant_id`, `limit=1` and `offset=0`; CountIgnoresPaging states that its total is the variant's whole count |
| VariantKeysWidget.CountsOf | code-top-backend/src/admin/widgets/product-variant-keys.tsx:93-96 | the mapping the loop builds; CountsOfLookup states its keys and that the last result for an id wins |
| VariantKeysWidget.EditLink | code-top-backend/src/admin/widgets/product-variant-keys.tsx:151 | the edit link `/<prefix>/activation-keys?product_variant_id=<encoded id>`; EditLinkQuery and EditLinkInjective state what it names |
| VariantKeysWidget.EditLinkQuery | code-top-backend/src/admin/widgets/product-variant-keys.tsx:151 | for a prefix without "?", the link's path is the keys page under the prefix and its query is the one parameter `product_variant_id` set to the encoded id |
| VariantKeysWidget.EditLinkInjective | code-top-backend/src/admin/widgets/product-variant-keys.tsx:151 | with an injective encoding, two variants get the same link only when they are the same variant |
| VariantsRoute.DisplayName | code-top-backend/src/api/admin/activation-keys/variants/route.ts:31-35 | the product title (empty when NULL), followed by " - " and the variant title unless that is NULL or "Default" |
| VariantsRoute.SelectRow | code-top-backend/src/api/admin/activation-keys/variants/route.ts:25-37 | a selected row carries the variant's columns and the title of its product, or NULL when the join finds none |
| VariantsRoute.Take | code-top-backend/src/api/admin/activation-keys/variants/route.ts:57 | `LIMIT n` keeps the first `min(n, rows)` rows |
| VariantsRoute.LimitOf | code-top-backend/src/api/admin/activation-keys/variants/route.ts:15-56 | the limit is `parseInt(limit)` of the given text or "50", and 50 when that is NaN or 0 |
| VariantsRoute.BuildStatement | code-top-backend/src/api/admin/activation-keys/variants/route.ts:41-58 | the search parameter `%q.trim()%` is pushed exactly when `q` is not blank, then the limit, whose placeholder is the last parameter; the statement runs as the selection for that pattern and limit |
| VariantsRoute.RunReadsPlaceholders | code-top-backend/src/api/admin/activation-keys/variants/route.ts:44-63 | a statement whose `$1` holds the pattern and whose last placeholder holds the limit runs as the selection for them |
| VariantsRoute.Shape | code-top-backend/src/api/admin/activation-keys/variants/route.ts:66-73 | the response entry fills in "Default", "Unknown Product" and the product title for missing values, and drops an empty SKU |
| VariantsRoute.Get | code-top-backend/src/api/admin/activation-keys/variants/route.ts:8-116 | a database failure or a failing statement answers the two demonstration variants; otherwise the selection for `q` and the limit, each row shaped |
| VariantsRoute.ShapeFillsDefaults | code-top-backend/src/api/admin/activation-keys/variants/route.ts:66-73 | every listed entry has a title, a product title and a display name, and never an empty SKU |
| VariantsRoute.ShownDisplayName | code-top-backend/src/api/admin/activation-keys/variants/route.ts:31-72 | the shown display name is the product title plus " - " and the variant title, or, for a missing or "Default" variant title, the product title or "Unknown Product" |
| VariantsRoute.LimitOfNat | code-top-backend/src/api/admin/activation-keys/variants/route.ts:15-56 | without a limit it is 50; a decimal limit is taken as given, except 0, which gives 50 |
| VariantsRoute.NegativeLimitFails | code-top-backend/src/api/admin/activation-keys/variants/route.ts:56-63 | a negative limit makes the statement fail |
| VariantsRoute.CandidateFrom | code-top-backend/src/api/admin/activation-keys/variants/route.ts:36-38 | a selected row comes from a variant whose product is missing or not deleted |
| VariantsRoute.SortedPrefix | code-top-backend/src/api/admin/activation-keys/variants/route.ts:53-57 | `ORDER BY ... LIMIT n` gives at most n of the rows, in order, and all of them when there are no more than n |
| VariantsRoute.SelectionRows | code-top-backend/src/api/admin/activation-keys/variants/route.ts:24-58 | every listed row is a visible variant satisfying the search, in product-title then variant-title order, at most `limit` of them, and all the matches when no more than `limit` match |
| VariantsRoute.MatchFrom | code-top-backend/src/api/admin/activation-keys/variants/route.ts:44-51 | a matching row comes from a visible variant and satisfies the search |
| VariantsRoute.NoSearchMatchesAll | code-top-backend/src/api/admin/activation-keys/variants/route.ts:44 | with no search text, every visible variant matches |
| VariantsRoute.Selection | code-top-backend/src/api/admin/activation-keys/variants/route.ts:24-58 | the visible variants that pass the search, in product-title and then variant-title order, cut to the limit, or a failure for a negative limit; SelectionRows and NegativeLimitFails state it |
| VariantsRoute.Pattern | code-top-backend/src/api/admin/activation-keys/variants/route.ts:50 | the ILIKE pattern `%` + trimmed query + `%`; BuildStatement states when it is pushed as `$1` |
| VariantsRoute.Run | code-top-backend/src/api/admin/activation-keys/variants/route.ts:63 | what the database does with the statement: reads the pattern from `$1` and the limit from its placeholder, or fails; RunReadsPlaceholders states it |

## Left out

- Concurrency: the gap between the SELECT and the UPDATE in `retrieveUnusedKey`, and concurrent subscriber runs. The model is sequential and makes no at-most-once claim when handlers interleave.
- The `pg` client, its connection helpers and `getManager`. Statements are modelled as operations on the abstract table; a connection failure is a boolean parameter where the route falls back on it.
- `ILIKE` matching and the database collation. `ILIKE` is a function parameter; text order is code-point order, standing in for the collation.
- MD5, `encodeURIComponent`, `URLSearchParams` encoding and `fetch` are function parameters or replies handed to the methods. The page's and the widget's requests are given their replies rather than performed.
- Randomness and clocks: the random `InvId`, generated key ids, `gen_random_uuid()`, `NOW()` and `CURRENT_TIMESTAMP` are parameters. The locale-dependent `formatDate` is not modelled.
- Floating point: JSON numbers are integers. `OutSum` is modelled for whole kopeck amounts only. `cost.toFixed(2)` on the keys page and `Number(newCost)` are not modelled: the cost text is passed through as an abstract number.
- Text.Lower, Text.Upper, Text.LowerOfUpper, AdminKeysRoute.NormalizeSort: `toLowerCase` is modelled on the ASCII letters and on the Kelvin sign U+212A, which it turns into "k", and `toUpperCase` on the ASCII letters only. Every other character is kept as it is, while JavaScript maps all of Unicode, sometimes to more than one code unit (U+0130 lower-cases to two, "ß" upper-cases to "SS"). Among the characters outside ASCII, only the Kelvin sign lower-cases to ASCII. So the column `NormalizeSort` picks (`AdminKeysRoute.NormalizeSortKelvinKey`) and the callback's signature verdict agree with the source's, but the lower-cased text itself differs for other letters outside ASCII.
- Text.Truncate, KeysPage.KeyCell, BulkKeyImport.PreviewOf: JavaScript's `length` and `substring` count UTF-16 code units, and a Dafny string counts Unicode scalar values. A key with characters outside the Basic Multilingual Plane is longer in the source than in the model. For example, 11 such characters are 22 code units, so the page cuts that key at 20 units, possibly inside a surrogate pair, while the model shows it whole.
- Ordering.SortBy, AdminKeysRoute.Get, VariantsRoute.Get: `ORDER BY` on a single column leaves the order of tied rows unspecified in PostgreSQL. Under `LIMIT`/`OFFSET`, a tied row may even repeat or be missed across pages. The model fixes one order, the table order among tied rows, so the handlers' equations pin an order the database does not promise.
- KeyService.KeyStore.RetrieveUnusedKey: one `now` stands for both the database's `NOW()` in the UPDATE (code-top-backend/src/modules/activation-keys/service.ts:37) and the `new Date()` of the returned record (service.ts:40). These are two different clocks in the source, so the returned `used_at` may differ from the stored one.
- The GET handler of the Robokassa callback answers a constant thank-you text and only logs; it holds no logic to state.
- Logging through `console` everywhere is left out.
- The POST handler's mock fallback after its `throw` in the admin route is unreachable and is not modelled.
- The debounce timer of the variant selector and its rendering are left out.
- The one-click order workflow, its route and its random variant pick are left out, and so are the seed and verify scripts, the migrations' DDL other than the constraints above, and the module registrations.
- Pure presentation components (footer, nav, hero, category section, layout, the checkout button and its UI test) are left out.
- React scheduling: effects, memoisation and re-renders are left to the caller. Methods that would trigger a listing return the request to send, and `KeysPage.KeysPage.Load` runs it. `KeysPage.KeysPage.InitFromUrl` requests the listing built from the state before its own updates, as the effect's closure does.
- Soft-deleted rows stay eligible for allocation and listing, because the service's statements have no `deleted_at` filter; the model does the same.
- The variants route's `parseInt(limit)` is called with no radix, so a `0x` prefix reads as hexadecimal; `Text.ParseIntAuto` models exactly that. A negative limit makes PostgreSQL refuse the statement, and the route then answers the demonstration list (`VariantsRoute.NegativeLimitFails`).
- The Robokassa callback checks signatures with `password2` while payments are signed with `password1`, as Robokassa's protocol intends. The model keeps both as configuration.
- With the real service, the storefront payment route's two 500 branches are never taken (`StorePaymentRoute.ServiceAlwaysRedirects`). The route is still modelled over any service outcome.
- The bulk import's "No valid activation keys found" guard can never fire after the blank-text guard (`BulkKeyImport.BlankIffNoKeys`). The branch is modelled as written.
- The keys page's translated fallbacks for a missing title or SKU never show, because the route fills those in first (`KeysPage.CellsShowRouteDefaults`).
- VariantKeysWidget.Widget.View: the contract states only the hidden case and that an error wins. The spinner, the "no variants" text and the lines follow from its body and from `VariantKeysWidget.LinesOf`.
