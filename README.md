# cashier-app-api: sale posting, validators and catalog tables in Dafny

This project models the server side of a small point-of-sale API: posting a
sale against the product table, each endpoint's validation chains, the
category and product table operations, and the shaping of validation errors
and response bodies. On the category and product routes the error middleware
answers a failed validation with a 422 before the handler runs. The
transaction routes run their chains but not that middleware, so a sale
handler reached through them would see every request. (That router is not
mounted, and loading it fails; see "Left out".)

- `records.dfy` (`Records`): the table rows (user, category, product,
  transaction header, transaction detail), a requested sale line, a
  validation error, and `Value`. `Value` is a request field as sent:
  missing, `null`, a JSON integer (`5`), a string of digits (`"5"`), a
  non-integral number, a boolean, or other text. The validators read a
  digit string as the integer it spells; the models' JSON schemas do not.
  `AtMostZero` is JavaScript's `value <= 0` on such a field.
- `rules.dfy` (`Rules`): the express-validator chain shapes the three
  validator files share.
  - A chain without `bail()` runs every check and reports each failing one,
    in order.
  - `bail()` stops a chain at its first failure.
  - A throwing `custom` check reports the thrown message.
  - Name uniqueness is an exact match. Update leaves the row's own id out
    of it.
- `category_validator.dfy`, `product_validator.dfy`, `transaction_validator.dfy`:
  each endpoint's rules, as a function from the request and the current
  tables to the list of errors.
- `error_handler.dfy` (`ErrorHandler`): the middleware that turns that list
  into a 422 or lets the request through.
- `response_helper.dfy` (`ResponseHelper`): the success envelope
  `{status, message, data}` and the error envelope `{errors}`.
- `database.dfy` (`Database`): a class `Db` holding the tables and the
  auto-increment counters. Its invariant says every category, product and
  header row is stored under its own id, below the next id to be handed
  out, and detail rows hold ids below the next one in increasing order. It also defines what the
  foreign keys' `ON DELETE CASCADE` leaves behind.
- `posting.dfy` (`Posting`): what posting a sale does to the tables, as
  functions of the requested lines and the old tables. Lemmas cover totals,
  stock, detail rows and the interplay with validation.
- `transaction_controller.dfy`, `category_controller.dfy`,
  `product_controller.dfy`: the handlers as methods on `Db`.
  - Each method's `ensures` gives the new state of every table it may
    change and the response.
  - A storage failure is a parameter: `fails`; for `update`, an
    `UpdateFault` naming the patch or the fetch that follows it; for the
    sale post, a `Fault` naming where it strikes.

The sale post (`TransactionController.Store`) runs in two stages.

1. A loop (`PatchStock`) re-reads each line's product, adds
   `price * quantity` to the running total, records a draft detail and
   patches the stock.
2. `Record` inserts the header and one detail row per draft inside the
   database transaction.

The stock patches are not made through the database transaction. So when
the loop or the insert stage throws, the header and detail inserts are
rolled back but every patch already issued stays. The contract states this
for each way the post can end:

- a missing product or a storage fault at line `k`;
- a `user_id` the header schema or its foreign key refuses;
- a detail row whose `product_id` or `quantity` is a digit string, which
  the detail schema refuses;
- a failed commit;
- a commit.

Two consequences of the code deserve stating:

- The validator checks each line against the stored stock on its own, not
  against what earlier lines of the same sale take. Duplicate lines can
  therefore drive stock below zero; `Posting.ValidationAdmitsOversell`
  proves this.
- The stock patches survive the rollback. A sale that fails after its loop
  has started leaves every patch already issued in place.

## Model

| member | source | states |
|---|---|---|
| ResponseHelper.SendSuccess | library/responseHelper.js:1-7 | The HTTP status equals the body's `status`. The body is the three-field envelope carrying the given message and data. |
| ResponseHelper.SendError | library/responseHelper.js:9-13 | The body is an `errors` list only, and the list is never empty. A non-empty list passes unchanged. An empty or omitted list becomes the single `{item_name: 'error', message}`. |
| ErrorHandler.ToItems | middleware/error.handler.middleware.js:6-11 | One `{item_name: param, message: msg}` per validation error, in the same order and the same count. |
| ErrorHandler.HandleValidation | middleware/error.handler.middleware.js:3-19 | `next` is called exactly when the error list is empty. Otherwise the response is a 422 whose body is only the mapped list. |
| ErrorHandler.ToItemsInjective | middleware/error.handler.middleware.js:6-11 | The mapping loses nothing: equal item lists come from equal error lists. |
| Records.WellFormed | app/validator/category.validator.js:22-24 | The values a JSON request can carry: a string `isInt` accepts comes as a digit string, and a whole number as an integer. |
| Records.IntTextIsIntLiteral | app/validator/category.validator.js:22-24 | An integer's text is what `isInt` accepts, so it is never a well-formed `Text`. |
| Records.AtMostZero | app/validator/product.validator.js:40-43 | JavaScript's `value <= 0` on the raw field: `null` and `false` are 0, a missing field is NaN and never compares, a number by its value, a string by its numeric reading. |
| Records.TextSign | app/validator/product.validator.js:52-55 | `Number(s)` for a string, by sign only: surrounding whitespace ignored, a blank string 0, an optionally signed decimal literal its sign, anything else NaN. |
| Rules.Found | app/validator/product.validator.js:27-31 | `findById` with the raw value finds a row exactly when the database's reading of the value is a key of the table. |
| Rules.Excluded | app/validator/category.validator.js:52-56 | `whereNot({ id })` leaves out the row whose key the database reads from the path id, and none when it reads none. |
| Rules.LookupId | app/validator/category.validator.js:25-30 | The raw value goes to `findById`: an integer, sent as a number or as a digit string, names the row with that id. |
| Records.IntTextNamesItsRow | app/validator/category.validator.js:25-30 | The database reads an integer's text, bare or followed by a point and zeros (`"5.0"`), as that integer. |
| Rules.IdErrors | app/validator/transaction.validator.js:41-51 | The id passes exactly when it is an integer naming a row. A non-integer id reports the integer message, and also the not-found message unless the database still reads it as the id of a row. An integer naming no row reports only the not-found message. |
| Rules.PointZeroIdFailsOnlyIsInt | app/validator/category.validator.js:21-31 | An id sent as `"5.0"` while row 5 exists reports only "ID must be an integer!". |
| Rules.ReferenceErrors | app/validator/product.validator.js:21-32 | A foreign-key field passes exactly when it is an integer naming a row. An empty value reports all three checks, emptiness first. A non-empty non-integer that the database reads as a row id reports only the integer message. A JSON number of 10^21 or more, which `String` writes in exponent form, fails `isInt` and, naming no row, reports both messages. |
| Rules.PositiveErrors | app/validator/product.validator.js:34-56 | The field passes exactly when it is an integer (JSON or digit string) above zero. Every check runs, as JavaScript reads the value: zero reports only "greater than 0"; `null` and `""` report all three messages; a missing field the first two; `false` and a non-positive fraction the integer and "greater than 0" messages; `true`, a positive fraction or a JSON number of 10^21 or more (written `"1e+21"`) only the integer one. |
| Records.QuotedIntReadsAsText | app/validator/product.validator.js:40-42 | JavaScript reads the digit string of an integer with that integer's sign, so `value <= 0` on `"5"` agrees with `5`. |
| Rules.StoreNameErrors | app/validator/product.validator.js:6-19 | The name passes exactly when it is non-empty, at most 255 characters and used by no row. A too-long or taken name reports its own error. |
| Rules.UpdateNameErrors | app/validator/product.validator.js:82-98 | At most one error, because of the bails. An empty name reports only emptiness, and a too-long name only its length. Uniqueness ignores the row being updated. |
| Rules.StoreKeepsNamesUnique | app/validator/category.validator.js:4-18 | Inserting a name that passed the create chain under a fresh id keeps names unique. |
| Rules.UpdateKeepsNamesUnique | app/validator/category.validator.js:44-60 | Renaming a row to a name that passed the update chain keeps names unique. |
| Rules.OwnNamePassesUpdate | app/validator/product.validator.js:90-97 | Under unique names, resubmitting a row's own valid name passes the update check. |
| CategoryValidator.Store | app/validator/category.validator.js:4-18 | No errors exactly when the name is non-empty, at most 255 characters and differs from every category's name. Every error is on `name`. |
| CategoryValidator.Show | app/validator/category.validator.js:21-31 | No errors exactly when the id is an integer naming a category. |
| CategoryValidator.Update | app/validator/category.validator.js:33-60 | No errors exactly when the id names a category and the name is non-empty, at most 255 characters and used by no other category. An empty name adds only the emptiness error to the id errors. |
| CategoryValidator.Destroy | app/validator/category.validator.js:63-73 | No errors exactly when the id is an integer naming a category. |
| ProductValidator.FieldErrors | app/validator/product.validator.js:21-56 | No errors exactly when the category exists and price and stock are integers above zero; a JSON number counts as an integer only below 10^21. |
| ProductValidator.Store | app/validator/product.validator.js:5-57 | No errors exactly when the name is fresh, non-empty and at most 255 characters, the category exists, and price and stock are positive integers. Stock 0 reports "Stock must be greater than 0!". A `null` price reports all three price messages. |
| ProductValidator.Show | app/validator/product.validator.js:59-69 | No errors exactly when the id is an integer naming a product. |
| ProductValidator.Update | app/validator/product.validator.js:71-136 | No errors exactly when the id names a product, the name passes with the product itself excluded from the uniqueness check, and the fields are valid. An empty name reports only emptiness on `name`. |
| ProductValidator.Destroy | app/validator/product.validator.js:138-148 | No errors exactly when the id is an integer naming a product. |
| TransactionValidator.CheckLine | app/validator/transaction.validator.js:25-36 | A line passes exactly when its product exists and `0 < quantity <= stock`. An equal stock is accepted. The failures come in precedence order: unknown product, then non-positive quantity, then not enough stock (with the available amount). |
| TransactionValidator.FirstFailing | app/validator/transaction.validator.js:24-37 | The index of the first refused line: every earlier line passes, and it is none exactly when every line passes. |
| TransactionValidator.LineMessageNamesKind | app/validator/transaction.validator.js:26-35 | The three refusals have distinguishable messages. |
| TransactionValidator.ProductsErrors | app/validator/transaction.validator.js:20-38 | No errors exactly when the list is non-empty and every line passes on its own. An empty list reports "Products cannot be empty!". Otherwise the only error is the first failing line's message. |
| TransactionValidator.UserErrors | app/validator/transaction.validator.js:7-18 | No errors exactly when `user_id` is an integer naming a user. |
| TransactionValidator.Store | app/validator/transaction.validator.js:6-39 | No errors exactly when the user exists, the list is non-empty and each line, checked alone against stored stock, has a known product and `0 < quantity <= stock`. |
| TransactionValidator.Show | app/validator/transaction.validator.js:41-51 | No errors exactly when the id is an integer naming a transaction. |
| TransactionValidator.Destroy | app/validator/transaction.validator.js:53-63 | No errors exactly when the id is an integer naming a transaction. |
| Database.DetailsKept | database/migrations/20240808221823_create_transaction_details_table.js:4-15 | The cascade keeps exactly the detail rows pointing at neither a deleted header nor a deleted product, and preserves the id invariant. |
| Database.ProductsOutside | database/migrations/20240808215250_create_products_table.js:5-10 | The cascade keeps exactly the products of other categories, unchanged. |
| Posting.ApplyLine | app/controller/transaction.controller.js:44-46 | One stock patch: the named product's stock less the quantity, every other row as it was. |
| Posting.ApplyLines | app/controller/transaction.controller.js:31-47 | The patches of the lines, issued in order, each on the table the previous one left. |
| Posting.Drafts | app/controller/transaction.controller.js:32-41 | The `transactionDetails` the loop builds, one per line in order. |
| Posting.Total | app/controller/transaction.controller.js:27-35 | The `totalAmount` the loop accumulates: the sum of the drafts' subtotals. |
| Posting.DetailsOf | app/controller/transaction.controller.js:82-84 | The `details` relation of a header: the detail rows pointing at it, in table order. |
| Posting.ApplyLinesEffect | app/controller/transaction.controller.js:31-47 | Each product's stock drops by the sum of the quantities of every line naming it, duplicates included, because each line re-reads the product. Nothing else about it changes, and no product appears or disappears. |
| Posting.ApplyLinesKeepsKeyed | app/controller/transaction.controller.js:44-46 | The stock patches keep every product under its own id. |
| Posting.UnnamedProductUnchanged | app/controller/transaction.controller.js:44-46 | A product named by no line keeps its row. |
| Posting.DraftsAt | app/controller/transaction.controller.js:32-41 | Draft `j` carries line `j`'s product and quantity as sent (digit string or not), and a subtotal equal to the stored price times the quantity. |
| Posting.PostingStep | app/controller/transaction.controller.js:31-47 | One loop turn extends the patched table, the drafts and the running total by exactly that line. |
| Posting.RowsTotal | app/controller/transaction.controller.js:27-35 | The subtotals of the inserted rows add up to the running total. |
| Posting.DetailsOfAppend | app/controller/transaction.controller.js:82-84 | The details fetched for a header distribute over a concatenation of the table. |
| Posting.PostedRows | app/controller/transaction.controller.js:50-62 | For a fresh header id, the details fetched are exactly the rows inserted for it, one per line in input order. Their subtotals sum to the header's `total_amount`. |
| Posting.StopLine | app/controller/transaction.controller.js:31-47 | The line where the loop throws: a missing product or a fault at that line, with every earlier line read and patched. It is none exactly when no line throws. |
| Posting.StopLineAt | app/controller/transaction.controller.js:31-47 | The first throwing line is where the loop stops. |
| Posting.ValidationAdmitsOversell | app/validator/transaction.validator.js:24-37 | Two lines for the same product, each within stock but together over it, pass validation. Posting them leaves negative stock. |
| Posting.QuantityForDistinct | app/controller/transaction.controller.js:31-47 | With distinct products, each product's requested total is its one line's quantity. |
| Posting.ValidatedDistinctLinesKeepStock | app/validator/transaction.validator.js:24-37 | When every line names a different product, passing validation keeps every named product's stock non-negative after posting. |
| Posting.ValidatedPostingCommits | app/validator/transaction.validator.js:6-39 | A request that passed validation and sent `user_id` and every line field as JSON integers, with no storage fault, reaches the end of the loop and commits. |
| Posting.Accepted | app/model/transaction.detail.model.js:30-34 | How many detail rows go in before the schema refuses one: every draft before that point was sent as integers, and the draft at it was quoted. |
| Posting.ValidationAdmitsQuoted | app/model/transaction.model.js:29-35 | A `user_id` sent as a digit string, or a line with a digit-string field, passes validation exactly as its integer would, yet the sale does not commit. |
| TransactionController.Index | app/controller/transaction.controller.js:5-20 | 200 "Success get transaction" with every header. A storage failure gives a bare 500 message. |
| TransactionController.Store | app/controller/transaction.controller.js:22-78 | A throw at line `k` leaves only the stock patches of the lines before `k`, and answers 500. Otherwise every line is patched, whatever follows. A refused insert or a failed commit rolls back the header and detail rows only, answers 500, and leaves used the ids the refused inserts drew. A commit adds one header carrying the sum of `price * quantity` and one detail row per line, in order. The rows fetched for that header sum to its total, and the answer is 201 with the header. |
| TransactionController.PatchStock | app/controller/transaction.controller.js:27-47 | The loop stops exactly at `StopLine`. The table then equals the patches of the lines before it, or of all lines. On completion the drafts and total are those of `Drafts` and `Total`. |
| TransactionController.Record | app/controller/transaction.controller.js:49-77 | A `user_id` that is not a JSON integer draws no id. One naming no user draws a header id. A quoted detail row draws the detail ids before it, and so does a failed commit. In all these cases the tables are as they were and the answer is 500. Otherwise one header under the next id, with the rows inserted for it, and 201. |
| TransactionController.PatchLine | app/controller/transaction.controller.js:32-46 | One loop turn: the subtotal is the price just read times the quantity, and the table becomes `ApplyLine` of the old one: that product's stock drops by the quantity. |
| Posting.Committed | app/model/transaction.model.js:29-33 | The sale commits exactly when `user_id` is a JSON integer naming a user, the detail schema accepts every draft, and the commit itself does not fail. |
| TransactionController.InsertDetails | app/controller/transaction.controller.js:56-62 | Appends one row per draft in order, with consecutive ids and the header id, and stops at the first quoted draft: the count inserted is `Accepted`. |
| TransactionController.Show | app/controller/transaction.controller.js:80-97 | The header with its detail rows, or no `data` for a missing id, with "Ok!". |
| TransactionController.Destroy | app/controller/transaction.controller.js:99-114 | Removes the header and, by cascade, its details. Answers with the deleted count. |
| TransactionController.DestroyedHasNoDetails | app/controller/transaction.controller.js:101 | After a delete, no details are fetched for that id. Every other transaction keeps exactly its own details. |
| CategoryController.Index | app/controller/category.controller.js:8-23 | An empty table answers 404 with the single `{categories, "No categories found!"}` item. Otherwise 200 "OK!" with all categories. A storage failure answers 500 with the default error item. |
| CategoryController.Store | app/controller/category.controller.js:25-36 | Inserts `{id: next, name}` under a fresh id, leaves the other rows and the invariant alone, and answers 200 "Success create!" with the row. |
| CategoryController.Show | app/controller/category.controller.js:38-47 | 200 "OK!" with the row, or no `data` for a missing id. |
| CategoryController.Update | app/controller/category.controller.js:49-60 | Changes only the name of that row, and answers with the patched row. A missing id changes nothing and answers no `data`. A failed patch changes nothing. A failed fetch after the patch leaves the row patched. Both answer 500. |
| CategoryController.Destroy | app/controller/category.controller.js:62-73 | Removes the row, and by cascade its products and their detail rows. Answers `{id}`. |
| CategoryController.ValidatedStoreKeepsNamesUnique | app/validator/category.validator.js:4-18 | A validated create keeps category names unique. |
| CategoryController.ValidatedUpdateKeepsNamesUnique | app/validator/category.validator.js:33-60 | A validated update names an existing category and keeps category names unique. |
| ProductController.SchemaAccepts | app/model/product.model.js:30-37 | The product schema accepts the body only when `category_id`, `price` and `stock` are JSON numbers; a digit string is refused. |
| ProductController.Writable | database/migrations/20240808215250_create_products_table.js:5-10 | A write goes through when the schema accepts the body and `category_id` names a category (the foreign key). |
| ProductController.Index | app/controller/product.controller.js:3-18 | 200 "OK!" with every product, even none. A storage failure gives a bare 500 message. |
| ProductController.Store | app/controller/product.controller.js:20-40 | A body the schema accepts, with an existing category, is inserted exactly (name, category, price, stock) under a fresh id, answering 200 "Success create!". A digit-string number is refused and draws no id. A missing category is refused by the foreign key after drawing one. Both answer 500. |
| ProductController.Show | app/controller/product.controller.js:42-57 | 200 "OK!" with the row, or no `data` for a missing id. |
| ProductController.Update | app/controller/product.controller.js:59-79 | Overwrites the four fields of that row, keeping its id and leaving the other rows alone, and answers with the patched row. A missing id changes nothing and answers no `data`. A digit-string number, a missing category for an existing row, or a failed patch changes nothing and answers 500. A failed fetch leaves the row patched and answers 500. |
| ProductController.Destroy | app/controller/product.controller.js:81-96 | Removes the row and, by cascade, its detail rows. Answers with the deleted count. |
| ProductController.ValidatedStoreKeepsNamesUnique | app/validator/product.validator.js:6-19 | A validated create keeps product names unique. |
| ProductController.ValidatedUpdateKeepsNamesUnique | app/validator/product.validator.js:82-98 | A validated update keeps product names unique. |
| ProductController.ValidatedBodyIsSound | app/validator/product.validator.js:21-56 | A validated body holds integers, JSON or digit string: an existing category, a positive price and a positive stock. |
| ProductController.ValidationAdmitsQuotedNumbers | app/model/product.model.js:30-37 | A body whose numbers are digit strings passes validation like its integers, yet the schema refuses it. |

## Left out

- Routing, authentication (JWT and bcrypt), Swagger, seeds, and the duplicate `category.contoller.js`.
- `index` in the transaction controller fetches each header's `user`. That join is not modelled.
- Dates and timestamps (`transaction_date`, `created_at`, `updated_at`): they come from the clock.
- Concurrency between simultaneous requests, and isolation levels: each handler runs to completion on its own.
- Column widths: price, subtotal and total are `DECIMAL(10, 2)` columns and `stock` and `quantity` 32-bit `INT` columns (database/migrations/20240808215250_create_products_table.js:11-12, database/migrations/20240808221823_create_transaction_details_table.js:16-17). The model holds all of them as unbounded integers, so a value the database refuses as out of range is stored.
- ProductController.Store, ProductController.Update: a JSON price with a fractional part, which the product schema accepts, is answered as refused, because rows hold integer prices. The validator lets no such price through.
- Storage and driver failures are the `fails`, `UpdateFault` and `Fault` parameters. Inside the sale's database transaction the only fault position is the commit; a driver failure of the header or a detail insert itself is not a separate case. The knex error raised when a lookup is given an absent value is modelled as "not found".
- The transaction validators do not gate the sale controller: routes/transaction.js:158-163, 267-272 and 300-305 run the chains without `handleValidation`, so their errors are never answered. The `Posting` lemmas about validation state what a passing request guarantees; `TransactionController.Store` takes any request. Nor does routes/index.js:5-9 mount the transaction router. Loading that router would fail anyway: routes/transaction.js:79 names `TransactionValidator.index`, which app/validator/transaction.validator.js does not export, so Express is handed `undefined` as a handler and throws.
- A path id is an `int` in the controllers. On the category and product routes a validator that admits only integers runs first. Category `destroy` answers `{id}` with the id as sent, a string (`"007"`); the model answers the integer. A non-integer id reaching the transaction `show` or `destroy` is not modelled: what the database does with it depends on the dialect.
- Ids drawn by a refused or rolled-back insert are not given back, as in MySQL and PostgreSQL (SQLite would reuse them). The database configuration is not part of this model.
- `Records.TextSign` reads a string with an exponent, a hex prefix or `Infinity` as NaN, where JavaScript reads a number. Such strings never pass `isInt`, so at most the "greater than 0" message can differ.
- Rules.IdErrors, Rules.ReferenceErrors: a string the database compares with an integer key is read as MySQL and SQLite read a decimal literal, and names a row only when its digits after the point are zeros. Not modelled, and taken to name no row: MySQL's reading of a leading numeric prefix (`"5abc"` as 5) and of exponents; a boolean read as 0 or 1; PostgreSQL's cast error, whose message would replace "not found".
- Messages and lengths: the transaction line messages print the product id by its value (`IntText`), not as sent (`"007"`); `|name|` counts U+FE0E and U+FE0F, which `isLength` skips; `IsSpace` leaves out `\v`, `\f` and the no-break space that JavaScript's trimming also removes.
- Request bodies the model's types exclude: a missing or non-string `name`, a non-array `products`, arrays and objects as field values, and line fields other than an integer or a digit string.
- express-validator v7 reports the field under `path` rather than `param`. The model follows the `param` the middleware reads.
- JSON key order and the `status` field's position in the body.
- Uniqueness checks compare names exactly, as the query does. Database collation (case-insensitive matching) is not modelled.
- The cascades (`Database.DetailsKept`, `Database.ProductsOutside`) assume the database enforces foreign keys.
