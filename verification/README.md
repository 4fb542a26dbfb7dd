# Medical store billing: a Dafny model of its core

This project models the core of a billing application for medical stores and
proves properties about it. The application has an Express/MySQL server and a
React client. The model covers six parts:

- **Bill creation** (`POST /api/bills`, module `BillingEngine`). Cart lines
  are processed in order against the inventory. Each line is checked
  ("item not found", "insufficient stock"), priced, and its stock is
  decremented. Each line also gets an `out`/`sale` stock movement. Then the
  discount and final amount are computed, and the bill is stored with one item
  snapshot per line. Any failure rolls the whole transaction back, so
  `CreateBill` returns the store unchanged on failure.
- **Server bookkeeping**:
  - the manual inventory upsert keyed by merchant and name (`Inventory`);
  - purchase totals at a flat 18 per cent tax, and supplier payments applied
    to a purchase (`Purchases`).
- **The client cart** (`Cart`):
  - the in-stock listing and its category and search filter;
  - `addToCart` and `updateQuantity`;
  - the `calculateBill` preview, which is shown to equal what the server
    bills.
- **The request middleware** (`Sanitize`, `Validation`):
  - `sanitizeInput` strips tags, escapes six characters as entities, and
    trims;
  - the express-validator chains for inventory items and payments.
- **The client forms** (`RegisterForm`, `InventoryForm`):
  - the registration form's typing filters, e-mail pattern and `validateForm`;
  - the inventory form's name filter, and the grouping of items by category.
- **The schema splitter** of the database setup script (`SchemaSplit`).

Two shared modules sit underneath:

- `Text` holds the JavaScript string primitives the core relies on:
  - the `\s`/`trim` whitespace set;
  - UTF-16 length, and the length `isLength` of validator.js counts;
  - ASCII `toLowerCase`;
  - `includes`, `startsWith`, `indexOf`.
- `Wrappers` holds `Option` and `Result`.

Representation choices:

- Money and rates are exact `real`s, quantities are `int`s, and strings are
  `seq<char>`.
- The database tables are immutable values: the inventory is a
  `map<item_id, Item>`, and movements, bills and payments are sequences.
- Ids and bill numbers come from the clock and `Math.random` in the source.
  Here they are parameters.

Some behaviours of the code are easy to miss, and the model keeps them:

- The stock check of a bill line reads the stock already lowered by earlier
  lines of the same cart, so an item named twice is checked cumulatively
  (`BillingEngine.ExampleRepeatedItem`).
- Every validator of an express-validator chain runs and reports its own
  error.
- `optional()` skips only a missing field. A present empty string is
  validated, and a missing field reads as the empty string.
- Register.js compares UTF-16 lengths. `isLength` counts code points, less
  the U+FE0E and U+FE0F presentation selectors (`Text.ValidatorLength`).
- MySQL evaluates the assignments of a single-table `UPDATE ... SET` left to
  right, so the payment update's `balance_due` and `status` see the
  already-raised `paid_amount` (see Findings).

## Model

| member | source | states |
|---|---|---|
| BillingEngine.CreateBill | server.js:391-512 | on a body whose lines all carry an id and a quantity: succeeds exactly when every line's item belongs to the merchant and the stock left by earlier lines covers it, and the bill number is free; on failure the store is unchanged |
| BillingEngine.CreateBillFromBody | server.js:391-512 | the handler on the body as posted: succeeds exactly when `items` is present, every line carries an id and a quantity, and the cart is feasible with the bill number free; a missing `items` fails at once; a well-typed body is billed as `CreateBill` bills it; every failure leaves the store unchanged |
| BillingEngine.ProcessBody | server.js:405-456 | the loop over the lines as posted; it has no contract of its own, its behaviour is stated by the two lemmas below |
| BillingEngine.ProcessBodyTyped | server.js:412-456 | on lines that all carry an id and a quantity, the loop as posted equals the loop over the cart |
| BillingEngine.ProcessBodyUntypedFails | server.js:412-456 | a line without an id (undefined bind in the SELECT) or without a quantity (undefined bind in the UPDATE) makes the loop fail |
| BillingEngine.MissingQuantityFails | server.js:420-456 | a line without a quantity whose item is found fails the bill, since the stock test lets it through and the UPDATE refuses it |
| BillingEngine.CreateBillStock | server.js:449-471 | on success each item's stock drops by the total quantity the cart asks of it, one `out`/`sale` movement per line is appended, and the bill is appended |
| BillingEngine.CreateBillContents | server.js:431-498 | on success the bill holds one snapshot per line and their sums, the discount rate asked for (0 when absent), discount = subtotal × rate / 100 and final = subtotal + GST − discount, with a missing customer name read as the walk-in customer |
| BillingEngine.ProcessLines | server.js:412-460 | the per-line loop of bill creation; it has no contract of its own, its behaviour is stated by the five `ProcessLines…` lemmas below |
| BillingEngine.ProcessLinesSucceeds | server.js:412-428 | the loop over the cart completes exactly when the cart is feasible line by line against the stock the earlier lines leave |
| BillingEngine.ProcessLinesStock | server.js:415-453 | after a successful loop every item's stock is its old stock less the sum of the quantities of all lines naming it; no item is added or removed and nothing else in a row changes |
| BillingEngine.ProcessLinesRecords | server.js:430-460 | a successful loop appends exactly the snapshots and sale movements of the lines, in cart order, and grows subtotal and GST by their sums |
| BillingEngine.ProcessLinesFirstError | server.js:420-428 | a failing loop reports the first line that fails, as not found when the item is not the merchant's and as insufficient stock otherwise |
| BillingEngine.ProcessLinesKeepsStock | server.js:425-453 | with no negative stock before, the loop leaves none, even when a cart names an item several times |
| BillingEngine.SnapshotsAt | server.js:431-444 | one bill item per cart line, carrying the inventory name, price and rate, the line's quantity, itemTotal = quantity × price and gstAmount = itemTotal × rate / 100 |
| BillingEngine.SaleMovementsAt | server.js:456-460 | one `out`/`sale` movement per cart line, with the line's item and quantity, referring to the bill number |
| BillingEngine.CreateBillError | server.js:420-505 | a failed bill reports the first failing line; a duplicate bill number is reported only when every line passes |
| BillingEngine.CreateBillKeepsStockNonNegative | server.js:425-453 | no bill makes a stock level negative |
| BillingEngine.CreateBillKeepsKeys | server.js:450-453 | a bill changes stock levels only, so the keying of the inventory by id and by (merchant, name) survives it |
| BillingEngine.ExampleSingleLine | server.js:431-464 | two units at 100 with 18 per cent tax and no discount bill 200 + 36 = 236 and leave 8 of 10 |
| BillingEngine.ExampleRepeatedItem | server.js:415-428 | two lines of 2 against a stock of 3 fail on the second line and change nothing |
| Inventory.ParseCategory | create-tables.js:63 | a category spelling is read as one of the six enum values exactly when it is one of their names |
| Inventory.FindByName | server.js:361-364 | the lookup by merchant and name finds the row with that merchant and name, or reports that none exists |
| Inventory.ManualAdd | server.js:351-389 | an existing (merchant, name) gains the quantity and takes the new price and rate, with every other row unchanged; otherwise a row is inserted under the fresh id with category defaulting to general and missing batch number and manufacturer stored as empty, failing when the id is taken; the rate stored is `Inventory.EffectiveGstRate`'s |
| Inventory.ManualAddKeepsKeying | server.js:351-389 | a successful manual add keeps at most one row per (merchant, name) and every row under its own id |
| Inventory.EffectiveGstRate | server.js:371-379 | a missing rate becomes 18 and a non-zero rate is kept; a rate of 0 is kept only as intended, and becomes 18 as written |
| Inventory.ZeroGstStoredAsDefault | server.js:371-379 | as written, a rate of 0 or a missing one is stored as 18 per cent |
| Inventory.ZeroGstKeptAsIntended | server.js:371-379 | with only a missing rate falling back, a rate of 0 is stored as 0 |
| Purchases.PurchaseGstIsFlat | server.js:854-860 | the tax accumulated line by line is 18 per cent of the subtotal |
| Purchases.RecordPurchase | server.js:845-888 | fails exactly when the request is not well formed (`items` not a list; supplier or purchase date missing or null; invoice number, due date or notes missing; a line without item name, or with batch number or expiry date missing), the supplier is unknown or the id is taken; otherwise adds one purchase with subtotal = Σ totalPrice, tax 18 per cent, total = 118 per cent of the subtotal, nothing paid, the whole total due and status pending, leaving the others unchanged |
| Purchases.LineWithoutBatchAborts | server.js:873-888 | one line whose batch number is missing aborts the whole purchase, however valid the rest |
| Purchases.NormalizePurchaseId | server.js:919-921 | a missing, empty or `"null"` purchase id becomes no purchase; any other is kept |
| Purchases.SettleAsWritten | server.js:943-955 | the update as MySQL runs it: paid grows by the amount, while balance and status read the raised paid amount and so count the amount twice |
| Purchases.SettleAsWrittenUnbalances | server.js:943-955 | as written, a balanced purchase stays balanced exactly when the amount is zero |
| Purchases.SettleAsWrittenExample | server.js:943-955 | 60 paid on 100 due as written leaves a balance of −20 and status paid |
| Purchases.SettleIntended | server.js:943-955 | paid grows by the amount, balanced stays balanced, status is paid exactly when nothing is due and partial exactly when something is due and something paid |
| Purchases.SettleIntendedExample | server.js:943-955 | 60 paid on 100 due as intended leaves 40 due and status partial |
| Purchases.ApplyPayment | server.js:910-964 | fails exactly on an unknown supplier, an unknown named purchase, a taken payment id, or a missing reference number or notes (refused as `undefined` binds); otherwise appends the payment, and changes only the named purchase, whose paid amount grows by exactly the amount; a payment naming no purchase changes none |
| Purchases.ApplyPaymentAsWrittenUnbalances | server.js:943-955 | as written, a non-zero payment against a balanced purchase leaves the purchases unbalanced |
| Purchases.ApplyPaymentIntendedKeepsBalanced | server.js:943-955 | settled as intended, payments keep every purchase's paid amount plus balance equal to its total |
| Purchases.RecordedPurchaseBalanced | server.js:864-868 | a new purchase is balanced; an intended settlement keeps it so, and the one as written does not unless the amount is zero |
| Cart.FetchAvailable | client/src/components/Billing.js:33 | the listing holds exactly the fetched items with stock above zero |
| Cart.FilteredInventory | client/src/components/Billing.js:42-46 | the category and search filter; it has no contract of its own, its behaviour is stated by `Cart.ListedIff` and `Cart.FilteredInventoryShows` |
| Cart.ListedIff | client/src/components/Billing.js:33-46 | an item is listed exactly when it has stock, sits under the active tab (or all), and its lower-cased name includes the lower-cased term |
| Cart.FilteredInventoryShows | client/src/components/Billing.js:42-46 | the same, with the search spelled out as an occurrence of the term at some offset of the name |
| Cart.AddToCart | client/src/components/Billing.js:48-71 | a new item is appended as one line of quantity 1 capped at its stock; an item in the cart is raised by 1 only while below its stock, else the cart is unchanged; other lines are unchanged |
| Cart.UpdateQuantity | client/src/components/Billing.js:73-88 | n ≤ 0 drops the item's line and keeps the others in order; 0 < n ≤ cap sets only that line's quantity; n above the cap leaves the cart unchanged |
| Cart.AddToCartNoDup | client/src/components/Billing.js:48-71 | adding never puts two lines for one item in the cart |
| Cart.UpdateQuantityNoDup | client/src/components/Billing.js:73-88 | updating never puts two lines for one item in the cart |
| Cart.RunKeepsBounds | client/src/components/Billing.js:48-88 | any run of adds and updates keeps the lines distinct, each quantity between 1 and its cap, and each cap the listed stock |
| Cart.SessionKeepsBounds | client/src/components/Billing.js:33-88 | starting from the empty cart on the in-stock listing, every line stays distinct with quantity in [1, cap] |
| Cart.SnapshotSums | client/src/components/Billing.js:94-99 | with current prices, the server's snapshot sums equal the cart's subtotal and GST |
| Cart.CalculateBill | client/src/components/Billing.js:90-105 | the client preview; it has no contract of its own, its agreement with the server's bill is stated by `Cart.PreviewMatchesBill` |
| Cart.PreviewMatchesBill | client/src/components/Billing.js:90-105 | when prices are current and the server accepts the cart, the bill's subtotal, GST, discount and final amount are exactly the preview's |
| Sanitize.SanitizeInput | middleware/validation.js:4-20 | non-strings are returned unchanged; strings are sanitised |
| Sanitize.SanitizeString | middleware/validation.js:4-20 | the result holds no `<`, `>`, `"`, `'` or `/`; every `&` opens one of the six entities; there is no surrounding whitespace; decoding the entities gives back the tag-stripped, trimmed input |
| Sanitize.StripTagsDeletesTag | middleware/validation.js:8 | text before a tag is kept, the tag up to the first `>` is deleted, and stripping resumes after it |
| Sanitize.StripTagsPrefix | middleware/validation.js:8 | text holding no `<` passes through as it is, and stripping carries on after it |
| Sanitize.StripTagsShorter | middleware/validation.js:8 | stripping only deletes: what is left is no longer than the input |
| Sanitize.StripTagsAddsNothing | middleware/validation.js:8 | what is left holds no character the input lacks |
| Sanitize.StripTagsLeavesNoTag | middleware/validation.js:8 | what is left holds no `<` with a `>` after it |
| Sanitize.StripTagsTagFree | middleware/validation.js:8 | a tag-free string, including one with an unmatched `<`, is left as it is |
| Sanitize.StripTagsIdempotent | middleware/validation.js:8 | stripping twice strips no more than once |
| Sanitize.EscapeStepsIsEscape | middleware/validation.js:11-17 | the six chained replacements, `&` first, are the one-pass entity escape |
| Sanitize.EscapeAmpersands | middleware/validation.js:12-17 | after escaping, every `&` begins one of the six entities |
| Sanitize.UnescapeEscape | middleware/validation.js:11-17 | decoding undoes escaping, so escaping loses nothing |
| Sanitize.TrimEscapeCommute | middleware/validation.js:11-19 | trimming after escaping equals escaping after trimming |
| Sanitize.EscapeUnchanged | middleware/validation.js:11-17 | a string is its own escape exactly when it holds none of the six characters |
| Sanitize.EscapeLength | middleware/validation.js:11-17 | escaping never shortens a string and lengthens any string holding an escaped character |
| Sanitize.SanitizePlainText | middleware/validation.js:4-20 | text with no `<` and no surrounding whitespace is only escaped |
| Sanitize.SanitizeNotIdempotent | middleware/validation.js:12 | sanitising `&` gives `&amp;`, and a second pass gives `&amp;amp;` |
| Validation.Matches | middleware/validation.js:107-135 | `^[class]+$` holds exactly on non-empty strings of class characters |
| Text.ValidatorLength | middleware/validation.js:106-106 | the length `isLength` compares with its bounds, never more than the number of code points; `Text.ValidatorLengthFormula` ties it to `isLength`'s own formula |
| Text.ValidatorLengthFormula | middleware/validation.js:106-106 | the count equals `isLength`'s own formula: the UTF-16 length less the surrogate pairs and the presentation selectors |
| Text.ValidatorLengthPlain | middleware/validation.js:106-106 | without presentation selectors the count is the number of code points |
| Text.ValidatorLengthSelectorExample | middleware/validation.js:106-106 | `a` followed by U+FE0F counts as one |
| Validation.ShortNameReported | middleware/validation.js:102-139 | whatever the other fields, a trimmed name whose `isLength` is below 2 is reported too short |
| Validation.SelectorNameTooShort | middleware/validation.js:102-139 | the inventory chain reports the name `a` followed by U+FE0F as too short, since `isLength` does not count the selector |
| Validation.InventoryErrorsListed | middleware/validation.js:102-139 | each inventory error is reported exactly when its own validator fails, every validator of a chain running |
| Validation.InventoryErrorsEmpty | middleware/validation.js:102-139 | no error is reported exactly when the trimmed name has an `isLength` of 2-255 and only characters of the name class, the category is one of the six, quantity is a whole number ≥ 0, price ≥ 0, a present gstRate lies in [0, 100], and a present batch number or manufacturer is non-empty and of its class once trimmed |
| Validation.ValidateInventoryItem | middleware/validation.js:102-139 | accepts exactly the acceptable bodies, passing the trimmed and sanitised values to the handler; otherwise answers the non-empty error list in chain order |
| Validation.SanitizeAccepted | middleware/validation.js:103-130 | an accepted name or batch number is left exactly as it is by the sanitiser |
| Validation.SanitizeAcceptedManufacturer | middleware/validation.js:132-136 | an accepted manufacturer is escaped, and changed exactly when it holds an `&` |
| Validation.EmptyBatchNumberRejected | middleware/validation.js:126-130 | a present empty batch number is rejected |
| Validation.ValidateInventoryItemIntended | middleware/validation.js:126-136 | with empty optional fields skipped like missing ones, the body is accepted exactly when it is acceptable without them, and they reach the table as empty |
| Validation.BlankOptionalsAcceptedAsIntended | middleware/validation.js:126-136 | the add form's default blank batch number and manufacturer are rejected as written and accepted as intended |
| Validation.ParsePaymentMethod | middleware/validation.js:194-196 | a method is read exactly when it is one of the five spellings |
| Validation.ValidatePayment | middleware/validation.js:183-209 | accepts exactly when the trimmed supplier id is non-empty, the amount is a number ≥ 0.01, the date is a date and the method one of the five; the request carries the trimmed supplier, the amount, the method, and the sanitised reference and notes |
| RegisterForm.Set | client/src/components/Register.js:47-50 | the named field takes the value and no other field changes |
| RegisterForm.KeepOnly | client/src/components/Register.js:30-32 | the result holds only allowed characters and is no longer than the input |
| RegisterForm.KeepOnlyCounts | client/src/components/Register.js:30-32 | each allowed character survives as often as it occurs in the input, and no other character survives |
| RegisterForm.KeepOnlyConcat | client/src/components/Register.js:30-32 | filtering keeps the characters' order: a concatenation filters part by part |
| RegisterForm.KeepOnlyIdempotent | client/src/components/Register.js:30-32 | the name filter is idempotent |
| RegisterForm.PhoneDigits | client/src/components/Register.js:35-37 | the phone becomes the first ten digits of the input: at most ten, all digits |
| RegisterForm.PhoneDigitsIdempotent | client/src/components/Register.js:35-37 | the phone filter is idempotent |
| RegisterForm.HandleChange | client/src/components/Register.js:25-51 | the named field takes the filtered value, only that field's error is removed, and only when it is non-empty |
| RegisterForm.ValidateEmailFormat | client/src/components/Register.js:53-55 | accepts exactly the strings with no whitespace, one `@` after a non-empty local part, and a `.` in the domain that is neither its first nor its last character |
| RegisterForm.ValidateForm | client/src/components/Register.js:57-83 | the error map holds a non-empty message exactly under each checked field whose check fails |
| RegisterForm.ValidateFormChecks | client/src/components/Register.js:60-79 | each field's error in the source's own terms: empty trimmed store name, trimmed owner name under 2, phone under 10, bad e-mail, password under 6, mismatched confirmation |
| RegisterForm.FormValidIff | client/src/components/Register.js:57-83 | the form passes exactly when all six conditions hold |
| RegisterForm.FilteredPhoneIsTenDigits | client/src/components/Register.js:36-66 | a filtered phone that passes the form check is exactly ten digits |
| InventoryForm.NameAccepted | client/src/components/Inventory.js:106-107 | a name is accepted exactly when it is empty or all letters, digits and whitespace |
| InventoryForm.HandleInputChange | client/src/components/Inventory.js:101-116 | a name holding any other character leaves the form unchanged; any other change stores the value verbatim and leaves the other fields unchanged |
| InventoryForm.HandleInputChangeKeepsName | client/src/components/Inventory.js:101-116 | the name input never comes to hold a character outside letters, digits and whitespace |
| InventoryForm.TypedNamePassesServerCharacters | client/src/components/Inventory.js:106 | a typed name, once trimmed and non-empty, passes the server's character check |
| InventoryForm.Grouped | client/src/components/Inventory.js:117-123 | the grouping by category; it has no contract of its own, its behaviour is stated by `InventoryForm.GroupedIsPartition` |
| InventoryForm.GroupedIsPartition | client/src/components/Inventory.js:117-123 | each bucket holds exactly its category's items in inventory order, no bucket is empty, no category has two, every item has a bucket, and the bucket sizes add up to the number of items |
| SchemaSplit.SplitPiecesFree | setup-database.js:28 | no piece holds a `;` |
| SchemaSplit.JoinSplit | setup-database.js:28 | joining the pieces with `;` gives back the text |
| SchemaSplit.SplitJoin | setup-database.js:28 | splitting a join of `;`-free pieces gives back the pieces |
| SchemaSplit.Statements | setup-database.js:27-30 | split, trim and filter of the schema; it has no contract of its own, its behaviour is stated by `SchemaSplit.StatementsShape` and the lemmas below |
| SchemaSplit.StatementsShape | setup-database.js:27-36 | every statement is non-empty, does not start with `--`, holds no `;` and is trimmed, so the loop's own emptiness test skips none; a string is a statement exactly when it is the kept trim of some piece |
| SchemaSplit.StatementsConcat | setup-database.js:27-30 | statements keep schema order: the text before a `;` yields its statements before those of the text after it |
| SchemaSplit.CommentedPieceDropped | setup-database.js:28-30 | a `;`-free piece whose trim starts with `--` yields no statement, even when a statement follows the comment on a later line: the text splits as if the piece were not there |

## Left out

- Authentication, registration and login handlers, JWT and bcrypt: foreign libraries and database lookups.
- Reports and financial aggregation: the logic lives in SQL `GROUP BY`/`SUM`.
- Spreadsheet import, file upload and all UI rendering: I/O and presentation.
- Floating point: money is exact; JavaScript doubles, `toFixed` and `DECIMAL(10,2)` rounding are not modelled.
- Concurrency and transaction isolation: each handler is one atomic function.
- Clock and random ids (`Date.now`, `Math.random`): bill numbers, item, purchase and payment ids are parameters.
- Text-to-number parsing: `parseInt`/`parseFloat` and the `isInt`/`isFloat` syntax are replaced by an already-parsed number, a malformed marker or absence.
- `isDate`: whether the payment date is a date is a boolean input.
- `isEmail` and `normalizeEmail`: they belong to the supplier validator, outside this core.
- MySQL collation: names compare exactly, although MySQL compares them case-insensitively by default.
- Non-ASCII letters: `toLowerCase` is modelled on ASCII only.
- Inventory.ManualAdd: requires at most one row per (merchant, name), because the lookup takes the first matching row and the schema does not forbid duplicates. The invariant is proved preserved by the manual add and by bills.
- Cart.UpdateQuantity: for an id with no line and a positive quantity the source throws on `item.maxQuantity`, and the state is left as it was. The model returns the cart unchanged.
- The execution of the schema statements against the database: I/O.
- validator.js itself is not part of this model. `Text.ValidatorLength` restates the length its `isLength` computes.
- Purchase items' own rows (`purchase_items`): the model keeps the lines on the purchase. Their insert runs inside the purchase's transaction, so a line that cannot be inserted aborts the whole purchase (`Purchases.RecordPurchase`).
- BillingEngine.CreateBillFromBody: a `null` item id or quantity, and an `items` that is not a list, are not modelled; a missing one is.
- Purchases.RecordPurchase: takes each line's quantity, unit price and total price as numbers. A missing or textual one is not modelled: `+=` on a string total concatenates text, and an undefined one is refused as a bind. Whether the dates are valid MySQL dates is not modelled either.

## Findings

| source | as written | input that shows it | evidently intended | confidence | as-written member | corrected member |
|---|---|---|---|---|---|---|
| server.js:943-955 | MySQL runs the `SET` assignments left to right, so `balance_due` and `status` read the already-raised `paid_amount` and count the payment twice | a purchase with total 100 and nothing paid, then a payment of 60: balance −20, status paid | balance = total − new paid amount, and status from the new paid amount | not executed | Purchases.SettleAsWrittenExample | Purchases.SettleIntended |
| server.js:371-379 | the fallback to 18 after `parseFloat(gstRate)` is a logical or, so a rate of 0, which is falsy, is treated as missing | the add form's "0% (Exempt)" choice (client/src/components/Inventory.js:239) posts `gstRate: '0'`, and the item is stored at 18 per cent | only a missing or unparsable rate falls back to 18; a rate of 0 is stored as 0 | not executed | Inventory.ZeroGstStoredAsDefault | Inventory.ZeroGstKeptAsIntended |
| middleware/validation.js:126-136 | `optional()` skips only a missing field, yet the add form posts `batchNumber: ''` and `manufacturer: ''` when they are left blank (client/src/components/Inventory.js:16-17, 81) | a valid item with blank batch number and manufacturer is rejected | blank optional fields are skipped, as the handler's fallback to an empty string (server.js:379) expects | not executed | Validation.EmptyBatchNumberRejected | Validation.ValidateInventoryItemIntended |
