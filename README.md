# Shop backend: tables, controllers and role gate, modelled in Dafny

This project models the core of a small shop backend (a Laravel JSON API):
the products, transactions and transaction_items tables with their keys and
cascades, the transaction controller (checkout, list and detail queries,
cancel, status update, delete), the product controller (add, look up,
update, delete, list) and the role middleware.

Layout:

- `wrappers.dfy` (`Wrappers`): `Option`.
- `tables.dfy` (`Tables`): the rows, the status values and column ranges, the
  `where` filter, the two ON DELETE CASCADE rules, id-ordered scans, and the
  table invariant `Consistent`.
- `database.dfy` (`Database`): class `Store`, holding the three tables as
  two maps and one id-ordered sequence, plus the auto-increment counters.
  Its methods are the row operations the ORM performs: insert, save and
  delete, with the cascades. Every method keeps `Valid()`.
- `responses.dfy` (`Responses`): the `{success, message, data}` envelope, plus
  the framework's own 422 (validation) and 500 (uncaught error) answers.
- `transaction_controller.dfy`, `product_controller.dfy` (`TransactionController`,
  `ProductController`): one member per controller action. An action that
  writes is a method on a `Store`. A query is a function of the table
  contents.
- `check_role.dfy` (`CheckRole`): the middleware as a function of the user's
  role (if any) and the listed roles.

Money is whole cents (`int`). A request field is an `Option`: `None` means
the field is missing or of a type its rule refuses. The database is taken
to be MySQL with InnoDB tables in strict mode (see "## Left out").

Behaviour of the code worth knowing:

- Validation failures in addProduct and updateProduct are answered 500, not
  the framework's 422. The `validate` calls
  (app/Http/Controllers/ProductController.php:93 and :201) sit inside a `try`
  whose `catch (\Exception)` (:110 and :232) also catches the validation
  exception.
- deleteTransaction on a missing id calls `delete()` on the null that `find`
  returns (app/Http/Controllers/TransactionController.php:106-108). That
  error is uncaught and answered 500, with nothing written.
- checkout does not check that totalAmount is non-negative. It checks only
  that totalAmount is present and numeric
  (app/Http/Controllers/TransactionController.php:297).
- The cascade on transaction_items.transaction_id already removes the items.
  So the item-deleting loop of deleteTransaction
  (app/Http/Controllers/TransactionController.php:110-114) finds nothing to
  delete.

## Model

| member | source | states |
|---|---|---|
| `Tables.Filter` | app/Http/Controllers/TransactionController.php:151-153 | a `where` query: a row is in the result iff it is stored and satisfies the condition; never longer than the table |
| `Tables.FilterAscending` | app/Http/Controllers/TransactionController.php:151-153 | a `where` query keeps the stored (id) order |
| `Tables.ItemsOf` | app/Http/Controllers/TransactionController.php:110 | the items of a transaction are exactly the stored items with that transaction_id |
| `Tables.CascadeTransactionDelete` | database/migrations/2024_02_10_180006_create_transaction_items_table.php:19 | deleting a transaction leaves exactly the items with another transaction_id |
| `Tables.CascadeProductDelete` | database/migrations/2024_02_10_180006_create_transaction_items_table.php:20 | deleting a product leaves exactly the items that refer to another product, in any transaction |
| `Tables.WithoutItem` | app/Http/Controllers/TransactionController.php:113 | deleting an item by primary key leaves exactly the rows with another id |
| `Tables.KeysBelow` | app/Http/Controllers/TransactionController.php:81 | the table scan visits exactly the stored keys below the counter, in strictly ascending order |
| `Tables.TransactionRows` | app/Http/Controllers/TransactionController.php:81 | `Transaction::all()` yields every stored transaction and nothing else, in ascending id order |
| `Tables.ProductRows` | app/Http/Controllers/ProductController.php:52 | `Product::all()` yields every stored product and nothing else, in ascending id order |
| `Tables.TransactionCascadeKeepsKeys` | database/migrations/2024_02_10_180006_create_transaction_items_table.php:19-20 | after a transaction delete with cascade, both foreign keys still hold and no item of that transaction remains |
| `Tables.ProductCascadeKeepsKeys` | database/migrations/2024_02_10_180006_create_transaction_items_table.php:19-20 | after a product delete with cascade, both foreign keys still hold and no item refers to that product |
| `Database.Store.InsertProduct` | app/Http/Controllers/ProductController.php:107 | `Product::create` adds one row under a fresh id; no other table changes |
| `Database.Store.SaveProduct` | app/Http/Controllers/ProductController.php:226 | saving replaces exactly that product row |
| `Database.Store.DeleteProductRow` | database/migrations/2024_02_10_180006_create_transaction_items_table.php:20 | deleting a product removes its row and cascades to its items; the table invariant holds after |
| `Database.Store.InsertTransaction` | app/Http/Controllers/TransactionController.php:305-308 | a new transaction gets a fresh id, the given user and total, and the default status and cancelled flag |
| `Database.Store.SaveTransaction` | app/Http/Controllers/TransactionController.php:203 | saving replaces exactly that transaction row |
| `Database.Store.DeleteTransactionRow` | database/migrations/2024_02_10_180006_create_transaction_items_table.php:19 | deleting a transaction removes its row and cascades to its items; the table invariant holds after |
| `Database.Store.InsertItem` | database/migrations/2024_02_10_180006_create_transaction_items_table.php:12-20 | an item row is accepted iff both foreign keys have targets, quantity fits a 32-bit integer and price fits decimal(10,2); if accepted it is appended under a fresh id, otherwise nothing changes |
| `Database.Store.DeleteItem` | app/Http/Controllers/TransactionController.php:113 | deleting an item removes the row with that id; the table invariant holds after |
| `Responses.JsonResponse` | app/Http/Controllers/TransactionController.php:25-32 | the envelope carries the given data, message and status; `success` holds exactly for 200 <= status < 300 |
| `TransactionController.ValidateCart` | app/Http/Controllers/TransactionController.php:299-301 | the cart passes iff every entry has an existing product_id, an integer quantity >= 1 and a price >= 0; on success it yields the entries' fields in cart order |
| `TransactionController.ValidateCheckout` | app/Http/Controllers/TransactionController.php:296-302 | checkout passes iff totalAmount is present and numeric, cartItems is a non-empty array and every entry passes; the order keeps the supplied total |
| `TransactionController.FirstMisfit` | database/migrations/2024_02_10_180006_create_transaction_items_table.php:15-16 | the index of the first cart line whose quantity or price does not fit its column, or the cart length if every line fits |
| `TransactionController.InsertItems` | app/Http/Controllers/TransactionController.php:312-319 | the insert loop appends one item per line, in cart order, each carrying the transaction id and the line's product, quantity and price; it stops at the first row the database refuses |
| `TransactionController.Checkout` | app/Http/Controllers/TransactionController.php:294-325 | an invalid request gets 422 and changes nothing. Otherwise exactly one new transaction holds the request's userId and its total exactly as supplied, with the default status. Exactly one item per cart line follows, in order. The answer returns the new id. A refused row gives 500 and the rows already written stay |
| `TransactionController.Cancelled` | app/Http/Controllers/TransactionController.php:201-202 | a cancelled transaction has status "cancelled" and the flag set; id, user and total are kept |
| `TransactionController.CancelIsIdempotent` | app/Http/Controllers/TransactionController.php:201-202 | cancelling twice is the same as cancelling once |
| `TransactionController.CancelTransaction` | app/Http/Controllers/TransactionController.php:193-206 | a missing id gets 404 and changes nothing; otherwise only that row changes, to its cancelled form |
| `TransactionController.UpdateStatus` | app/Http/Controllers/TransactionController.php:239-255 | a missing id gets 404 before validation. A status outside the three values gets 422. Both change nothing. On success only the status changes, and the cancelled flag keeps its old value |
| `TransactionController.DeleteItems` | app/Http/Controllers/TransactionController.php:110-114 | the loop deletes exactly the given items and keeps every other row |
| `TransactionController.DeleteTransaction` | app/Http/Controllers/TransactionController.php:104-117 | a missing id ends in an uncaught error (500) with nothing changed. Otherwise the row goes, and the items end exactly as the cascade leaves them. Products are untouched |
| `TransactionController.TransactionDetail` | app/Http/Controllers/TransactionController.php:149-168 | 404 iff the transaction has no items, whether or not its row exists. Otherwise one line (product name, quantity, price) per item of that transaction, in stored order |
| `TransactionController.GetTransactions` | app/Http/Controllers/TransactionController.php:56-62 | 200 with exactly the transactions of that user, possibly none, in id order |
| `TransactionController.GetAllTransactions` | app/Http/Controllers/TransactionController.php:79-83 | 200 with every stored transaction, in id order |
| `TransactionController.CheckoutItemsAreTheTransactionsItems` | app/Http/Controllers/TransactionController.php:312-319 | the rows a checkout appends under its fresh id are exactly that transaction's items |
| `TransactionController.DetailAfterCheckout` | app/Http/Controllers/TransactionController.php:151-165 | after a complete checkout, the detail lists the cart line by line with each product's name |
| `TransactionController.DetailAfterDelete` | database/migrations/2024_02_10_180006_create_transaction_items_table.php:19 | after a transaction is deleted, its detail is 404 |
| `TransactionController.DetailAfterProductDelete` | database/migrations/2024_02_10_180006_create_transaction_items_table.php:20 | if all of a transaction's items refer to one product, deleting that product (with its cascade) makes that transaction's detail 404 |
| `ProductController.AddProduct` | app/Http/Controllers/ProductController.php:90-113 | a failed rule gets 500 and changes nothing. The rules are: name missing, blank or over 255 characters; price missing or not numeric; description missing or blank; an unacceptable file. Otherwise exactly one new product with the given fields is added, and the answer is 201 |
| `ProductController.GetProduct` | app/Http/Controllers/ProductController.php:142-155 | 200 with the stored row iff the id exists, 404 otherwise |
| `ProductController.FirstComma` | app/Http/Controllers/ProductController.php:214 | `strpos`: the index of the first comma, or none exactly when the text has no comma |
| `ProductController.SpacesToPlus` | app/Http/Controllers/ProductController.php:215 | `str_replace`: same length, every space becomes '+', every other character is kept |
| `ProductController.NormalizeImagePayload` | app/Http/Controllers/ProductController.php:213-215 | the normalised payload holds no space and is shorter than any non-empty input |
| `ProductController.DataUrlPayload` | app/Http/Controllers/ProductController.php:214-215 | a data URL "prefix,body" normalises to its body with spaces turned into '+' |
| `ProductController.PayloadWithoutCommaLosesFirstChar` | app/Http/Controllers/ProductController.php:214 | with no comma, strpos is false, false + 1 is 1, and the first character (the first byte, in PHP) is dropped |
| `ProductController.UpdateProduct` | app/Http/Controllers/ProductController.php:195-235 | a missing id gets 404; a failed rule gets 500; both change nothing. Otherwise name, price and description are replaced and no other row changes. The image changes, to the new file, only when the request carries one, and that file receives the normalised payload |
| `ProductController.DeleteProduct` | app/Http/Controllers/ProductController.php:261-275 | a missing id gets 404 and changes nothing; otherwise exactly that product goes, with every item that refers to it |
| `ProductController.Index` | app/Http/Controllers/ProductController.php:49-60 | every product, in id order, each with its image replaced by the asset URL of "images/" + its image name; nothing is saved |
| `CheckRole.RoleListed` | app/Http/Middleware/CheckRole.php:18-22 | the loop finds a match iff some listed role is exactly equal to the user's role |
| `CheckRole.Handle` | app/Http/Middleware/CheckRole.php:10-25 | 401 iff there is no user. Passed through iff the user's role is listed. 403 iff a user's role is not listed. The answer the middleware builds carries status 401 or 403 accordingly |
| `CheckRole.EmptyRoleListForbids` | app/Http/Middleware/CheckRole.php:18-24 | with no listed role, every authenticated user gets 403 |
| `CheckRole.HandleIgnoresOrder` | app/Http/Middleware/CheckRole.php:18-19 | the outcome depends only on which roles are listed, not on their order or repetition |

## Left out

- File I/O: moving the uploaded file, decoding base64, writing the image file, and building `asset()` URLs. A stored file name built from `time()` and `Str::random` is passed in as `fileName`. The URL builder is a function parameter `asset`. updateProduct returns the file it would write (name and normalised base64 text) instead of writing it.
- Storage faults answered 500 by the catch blocks of both controllers. The one exception is a checkout item row that the database refuses for its column range, which is modelled.
- Concurrency between requests on the same rows, which the source leaves to the database.
- Floating-point money: amounts are whole cents. Rounding of sub-cent input by a decimal column is not modelled.
- The definitions of the transactions and products tables are not part of this model. The initial status "on progress" and cancelled = false are the named constants `InitialStatus` and `InitialCancelled`.
- TransactionController.Checkout: the request's userId is taken as a natural number. What a missing userId does depends on the transactions table definition, which is not part of this model.
- Database.Store.InsertItem: a refused row does not consume an auto-increment id here. Some engines do consume one, which only changes later ids.
- The framework's validation rules are reduced to typed fields. A numeric string counts as a number. `required` fails on a missing value or on text made only of the characters trim removes. The bodies of the 422 and 500 answers the framework builds are not modelled.
- ProductController.UpdateProduct: an `image` key present with a null value behaves as the empty string. This matches what `strpos` and `substr` do with null.
- CheckRole.Handle: the response of the next handler in the chain is not modelled (`PassThrough`).
- Ids from the URL are natural numbers. A non-numeric id is not modelled: MySQL compares `id = '5abc'` numerically and finds row 5, and other engines may raise an error that is answered 500.
- The database engine is assumed to be MySQL with InnoDB tables in strict mode. None of the queries has an `orderBy`, so the order of `all()` and `where(...)->get()` results is the engine's; the model returns rows in ascending id order, as an InnoDB primary-key scan does (other engines, such as PostgreSQL after an UPDATE, may return another order). The refusal of an item row whose quantity does not fit a 32-bit integer or whose price does not fit decimal(10,2) is strict-mode behaviour; SQLite, for one, stores such values.
- The `created_at` and `updated_at` columns that `timestamps()` adds to every table are not modelled; they are set from the clock on every insert and save.
- ProductController.AfterFirstComma: PHP's `strpos` and `substr` count bytes, and the model counts characters. They agree on ASCII text and whenever the payload has a comma. A comma-less payload starting with a multi-byte character loses one byte in PHP but the whole character here.
- The route table, authentication (registration, login, tokens) and the Transaction model's relation helper are outside the core.
