# grpc-be-ecommerce, modelled in Dafny

A model of the service layer of a small e-commerce backend written in Go. The
backend has a gRPC API for the catalog, cart, orders and auth, a REST endpoint
for image upload, and a payment-provider webhook. Each service operation is a
pure transition `(state, request, environment) -> (reply, state')` over
immutable datatypes:

- **Orders** (`orders.dfy`, `order_number.dfy`, `decimal.dfy`): creating an
  order is one all-or-nothing database transaction. It reserves the "order"
  counter value, prices each requested line from the catalog, asks the
  payment provider for an invoice, writes the order and one item per line,
  advances the counter and commits. Order numbers have the form
  `INV/<yyyymmdd>/RK/<8-digit random><counter>`. Whether an order has expired
  is decided when it is read, not stored.
- **Webhook** (`webhook.dfy`): the provider's "invoice paid" callback marks
  the order paid.
- **Cart** (`cart.dfy`): add, owner-checked delete and owner-checked
  set-quantity, where quantity 0 deletes the row.
- **Auth** (`auth.dfy`): the Register checks, Login outcomes, Bearer-header
  parsing in Logout, and the logout blocklist. The blocklist is an expiring
  in-memory cache.
- **Interceptors** (`interceptors.dfy`): the gRPC interceptor chain. The
  error interceptor is outermost and the auth interceptor is inside it.
- **Products and upload** (`products.dfy`, `upload.dfy`): admin-gated product
  create, edit and delete, and the public detail lookup. The image directory
  is modelled as a set of file names, together with the upload endpoint's
  whitelists and generated file name.

Everything the services get from outside is passed in:

- **Functions as parameters:**
  - the clock;
  - the random order-number part;
  - generated uuids, as fresh ids;
  - the invoice provider;
  - bcrypt hashing and comparison;
  - JWT signing and verification;
  - the JWT context helpers.
- **`faults` sets:** a failing repository, transaction or file-system step
  is a member of the operation's `faults` set. A fault takes the error path
  the source takes.

Money is an integer number of minor units. Times are integer seconds; the
upload time stamp is integer nanoseconds.

## Model

| member | source | states |
|---|---|---|
| `Orders.CreateOrder` | internal/service/order_service.go:35-187 | Without a caller the call fails. An unknown product gives a bad request naming the first missing id in request order, with nothing written and no invoice requested. Any failure leaves orders, items, counter and open transactions exactly as they were. A success requires the provider to issue the invoice. It then commits exactly `Committed`: the new order, its items, and the counter plus one. |
| `Orders.Assemble` | internal/service/order_service.go:36-79 | Without claims, or when opening the transaction, reading the counter or reading the products fails, the call errs with the store unchanged and no invoice requested. With every connection held, a creation with claims blocks in `db.Begin`, represented as the reply `PoolExhausted`. Otherwise the outcome is that of pricing. |
| `Orders.Price` | internal/service/order_service.go:86-94 | An unknown product gives a bad request naming the first missing id, before any invoice is requested; the store is unchanged when that branch rolls back and has one more open transaction when it does not. With every product listed, the invoice is requested for this order and the outcome is that of persisting. |
| `Orders.Persist` | internal/service/order_service.go:129-181 | The invoice request is always made. Success happens exactly when the invoice is issued and the order insert, item inserts, counter update and commit all work; it then commits exactly `Committed`. Any failure leaves the store unchanged. |
| `Orders.CreateOrderAsWritten` | internal/service/order_service.go:57-61 | The same transaction as written: a rejected request leaves one more transaction open. On every other path it agrees with `CreateOrder`. |
| `Orders.RejectionLeaksTransaction` | internal/service/order_service.go:87-92 | As written, every request naming an unknown product leaves one more transaction open. |
| `Orders.LeakedTransactionsBlockOrders` | pkg/database/connection.go:19 | As written, once 100 transactions (the pool size) are left open, every creation, even a valid one, blocks forever in `db.Begin`, represented as the reply `Err(PoolExhausted)`, and nothing is written. |
| `Orders.CreateOrderSucceedsIff` | internal/service/order_service.go:36-181 | A creation succeeds exactly when it started, every product is listed, the invoice is issued and no write fails. |
| `Orders.OrphanInvoice` | internal/service/order_service.go:129-151 | If the order insert fails after the invoice is issued, the invoice stays issued at the provider, but no order with its external id exists. |
| `Orders.FirstMissing` | internal/service/order_service.go:87-92 | None exactly when every line's product is in the catalog. Otherwise it names an unlisted product, and every line before it is listed. |
| `Orders.FirstMissingAt` | internal/service/order_service.go:87-92 | The first unlisted line, in request order, is the one the rejection names. |
| `Orders.PriceLines` | internal/service/order_service.go:86-94 | The pricing loop stops at the same product `FirstMissing` names. Otherwise it returns the sum of catalog price × quantity. |
| `Orders.TotalConcat` | internal/service/order_service.go:86-94 | The total of two request lists joined is the sum of their totals, so a product listed on two lines is charged on both. |
| `Orders.TotalExample` | internal/service/order_service.go:93 | Two units at 1000 plus one unit at 500 cost 2500. |
| `Orders.ItemsFor` | internal/service/order_service.go:153-165 | One item per request line, in order. Each carries its own id, the order id, the line's product and quantity, and the catalog's name, image and price. |
| `Orders.ItemsTotalIsTotal` | internal/service/order_service.go:153-165 | The frozen items add up to the order's total. |
| `Orders.WriteItems` | internal/service/order_service.go:153-170 | The items are stored under their generated ids with the snapshot fields. Earlier items are untouched. |
| `Orders.InsertItems` | internal/service/order_service.go:166 | Writing items one by one stores each under its id and leaves every other stored item unchanged. |
| `Orders.NewOrder` | internal/service/order_service.go:96-115 | The new order belongs to the caller, is Unpaid, and expires 24 hours after creation. Its total is the computed total and it records the invoice id and URL. Its number reads back as (date, random part, counter before the increment). |
| `Orders.InvoiceCall` | internal/service/order_service.go:117-138 | The invoice's external id is the order id and its amount is the total. The currency is IDR, and there is one invoice item per line with the catalog name and price and the line quantity. |
| `Orders.InvoiceItems` | internal/service/order_service.go:117-127 | Each invoice item has the name, price and quantity of the matching order item. |
| `Orders.InvoiceItemsTotalIsItemsTotal` | internal/service/order_service.go:117-127 | The billed items sum to the same amount as the stored items. |
| `Orders.InvoiceAmountIsItemSum` | internal/service/order_service.go:129-138 | The amount billed equals the sum over the billed items. |
| `Orders.SuccessiveNumbersDiffer` | internal/service/order_service.go:66-173 | Two successive commits of new orders (what two successful creations write) give the orders different numbers, whatever their dates and random parts; the first commit leaves the second one's fresh ids free. |
| `Orders.EffectiveStatus` | internal/service/order_service.go:216-219 | An order reads as Expired exactly when it is stored Expired, or is stored Unpaid and the deadline has passed; otherwise it reads as its stored status. |
| `Orders.ExpiryIsPermanent` | internal/service/order_service.go:216-219 | An order that reads as expired reads as expired at every later instant. |
| `Orders.NewOrderExpiresAfterADay` | internal/service/order_service.go:101 | The order a successful creation commits reads as Unpaid up to 24 hours after creation and as Expired afterwards. |
| `Orders.ListOrderAdmin` | internal/service/order_service.go:189-237 | Only admins can list, and a failing page query returns its error. Each row shows Expired exactly when the stored order is Expired, or is Unpaid and past its deadline; otherwise it shows the stored status. |
| `Orders.ListOrder` | internal/service/order_service.go:239-288 | Any caller with claims gets a page unless the page query fails. The same status rule holds for the caller's own orders. The invoice URL is empty when none is stored. |
| `Orders.ListingsAgree` | internal/service/order_service.go:189-288 | For an admin, both listings of a page fail together, and otherwise report the same status for the same order. |
| `OrderNumber.Format` | internal/service/order_service.go:97-104 | The number starts with `INV/`, then eight date digits, `/RK/` and eight random digits. |
| `OrderNumber.ParseFormat` | internal/service/order_service.go:104 | Every order number parses back to its date, random part and counter value. |
| `OrderNumber.FormatInjective` | internal/service/order_service.go:104 | Different parts never give the same number. |
| `OrderNumber.DistinctSequencesDistinctNumbers` | internal/service/order_service.go:104 | Different counter values never share a number. |
| `OrderNumber.DateStamp` | internal/service/order_service.go:104 | The `20060102` layout gives exactly eight digits. |
| `OrderNumber.DateStampRoundTrip` | internal/service/order_service.go:104 | The date stamp reads back to year, month and day. |
| `Decimal.IntToStringRoundTrip` | internal/service/order_service.go:104 | `%d` of any integer parses back to that integer. |
| `Decimal.IntToStringInjective` | internal/service/order_service.go:104 | `%d` is injective. |
| `Decimal.ParseDigitsOfDigits` | internal/service/order_service.go:104 | The unsigned decimal rendering parses back to the number. |
| `Decimal.ParseFixedDigits` | internal/service/order_service.go:104 | A zero-padded field of width w parses back to any number below 10^w. |
| `Decimal.DigitsLength` | internal/service/order_service.go:100 | A number in [10^k, 10^(k+1)) is printed in k+1 digits, so the random part takes eight. |
| `Webhook.ReceiveInvoice` | internal/service/webhook_service.go:21-50 | The call succeeds exactly when the order exists and both repository steps work. An unknown id gives "order tidak ditemukan". A failure writes nothing. A success replaces only that order, with `MarkPaid`, and leaves every other order, the items and the counter alone. |
| `Webhook.MarkPaid` | internal/service/webhook_service.go:33-40 | The order becomes Paid, with paid-at and updated-at set to now, updated-by "System Xendit", and the callback's channel and method. Every other field is as it was. |
| `Webhook.RedeliveryRestamps` | internal/service/webhook_service.go:33-40 | A repeated callback ends exactly as if only the later one had arrived, with paid-at moved to the later instant. |
| `Webhook.ExpiredOrderCanBePaid` | internal/service/webhook_service.go:35 | The transition is unconditional: an order that reads as expired is still marked paid. |
| `Webhook.PaidOrderNeverExpires` | internal/service/webhook_service.go:35 | After the callback, the order never reads as expired. |
| `Webhook.CreateThenPay` | internal/service/webhook_service.go:23-47 | Paying a created order through its invoice's external id makes it read Paid. Its number, total and items are kept. |
| `Cart.AddProductToCart` | internal/service/cart_service.go:29-86 | An unknown product gives not-found and no change. If the caller already has a row for the product, that row's quantity goes up by exactly one and its id is returned. Otherwise a row (caller, product, 1) is appended under the fresh id. Any failure changes nothing. |
| `Cart.DeleteCart` | internal/service/cart_service.go:119-156 | An unknown id gives not-found and another user's row gives bad request, both with no change. Success happens exactly for the owner with a working store, and removes that row. |
| `Cart.UpdateCartQuantity` | internal/service/cart_service.go:158-202 | The same not-found and owner checks as delete. Quantity 0 removes the row. Any other quantity sets the row's quantity to exactly that value. A failed delete is reported. |
| `Cart.UpdateCartQuantityAsWritten` | internal/service/cart_service.go:181-186 | As written, a failed delete behind quantity 0 still gets the success reply when the lookup and owner checks pass, and the row stays. Otherwise it agrees with `UpdateCartQuantity`. |
| `Cart.IgnoredDeleteFailure` | internal/service/cart_service.go:182 | Example: with a failing delete, the as-written update reports success and the row remains, while the corrected one reports the error. |
| `Cart.AddPreservesWf` | internal/service/cart_service.go:46-75 | Adding keeps unique row ids and at most one row per user and product. |
| `Cart.DeletePreservesWf` | internal/service/cart_service.go:147 | Deleting keeps the table well formed. |
| `Cart.UpdatePreservesWf` | internal/service/cart_service.go:181-196 | Setting a quantity keeps the table well formed. |
| `Cart.RemovePreservesWf` | internal/service/cart_service.go:147 | Removing rows by id keeps the table well formed. |
| `Cart.AddTwiceMerges` | internal/service/cart_service.go:46-85 | Adding the same product twice leaves one row with quantity 2 under the first id. |
| `Cart.DeleteKeepsOtherRows` | internal/service/cart_service.go:147 | After a successful delete, every other row is still present and no row has the deleted id. |
| `Cart.FindFor` | internal/service/cart_service.go:46 | The caller's first row for the product, or none when there is no such row. |
| `Cart.FindById` | internal/service/cart_service.go:127 | The first row with the id, or none exactly when no row has it. |
| `Cart.Remove` | internal/service/cart_service.go:147 | Keeps exactly the rows whose id differs. |
| `Auth.Register` | internal/service/auth_service.go:35-82 | A password/confirmation mismatch gives bad request before any lookup. A registered e-mail gives bad request with nothing inserted. Success happens exactly when both checks pass, hashing works and the insert works. It then stores one Customer whose password is the hash of the plaintext. |
| `Auth.Login` | internal/service/auth_service.go:84-128 | An unknown e-mail gives bad request. A hash mismatch, and only a mismatch, gives Unauthenticated "Password salah". Success happens exactly on a match with a working signer, and returns the signed token for the user's claims. |
| `Auth.TokenClaims` | internal/service/auth_service.go:106-116 | The token names the user, their e-mail, name and role, is issued at the login instant and expires 24 hours later. |
| `Auth.RegisterThenLogin` | internal/service/auth_service.go:58-121 | A newly registered account can log in with its password and receives a customer token. |
| `Auth.JoinSplit` | internal/service/auth_service.go:146 | Splitting the header on spaces loses nothing. |
| `Auth.SplitAfterPiece` | internal/service/auth_service.go:146 | A space-free piece followed by a space splits off as the first piece. |
| `Auth.SplitSpaceFree` | internal/service/auth_service.go:146 | A string without spaces splits into itself alone. |
| `Auth.ParseBearer` | internal/service/auth_service.go:146-155 | Every refusal is Unauthenticated. A header that does not split on spaces into exactly two pieces gets "Format token salah"; one whose first piece is not `Bearer` gets "Token harus diawali dengan Bearer". An accepted header splits into `Bearer` and the returned token. |
| `Auth.ParseBearerIff` | internal/service/auth_service.go:146-155 | The header is accepted exactly when it is "Bearer", one space and a space-free token. The token is then the part after the space. |
| `Auth.DoubleSpaceRejected` | internal/service/auth_service.go:146-149 | "Bearer  x" (two spaces) splits into three pieces and is refused. |
| `Auth.BearerToken` | internal/service/auth_service.go:132-153 | Missing metadata, a missing header, an empty header list or a malformed header each give Unauthenticated. |
| `Auth.Logout` | internal/service/auth_service.go:130-186 | Every failure is Unauthenticated and leaves the blocklist unchanged. Success happens exactly when the header parses and the token verifies. It then sets exactly that token in the cache with ttl = expiry − now. |
| `Auth.CacheSet` | main.go:33 | Only the key is added or replaced. A positive ttl expires ttl seconds from now, 0 means the cache default of 24 hours, and a negative ttl never expires. |
| `Auth.LogoutBlocksUntilExpiry` | internal/service/auth_service.go:180 | After logout, the token is live on the blocklist until its own expiry instant. |
| `Auth.LogoutAtExpiryInstant` | internal/service/auth_service.go:180 | A token whose expiry falls in the logout's own second is blocked for 24 hours. |
| `Interceptors.AuthMiddleware` | internal/grpcmiddleware/auth_middleware.go:16-41 | Login and Register go straight to the handler. A token read error is returned as is. A live blocklisted token gives Unauthenticated. A claims error is returned. Otherwise the handler's own outcome is returned, with the token's claims in its context. |
| `Interceptors.ErrMiddleware` | pkg/grpcmiddleware/error_middleware.go:13-27 | A response passes through unchanged. Any error, and any panic, becomes Internal "Internal server error". |
| `Interceptors.Serve` | main.go:42-45 | Through the chain, every failure reaches the client as Internal, and every response is one the handler produced. |
| `Interceptors.RefusedCallIgnoresHandler` | internal/grpcmiddleware/auth_middleware.go:21-34 | A call the auth interceptor refuses has the same outcome whatever the handler would do. |
| `Interceptors.RefusalSurfacesAsInternal` | pkg/grpcmiddleware/error_middleware.go:22-25 | A blocklisted token is refused as Unauthenticated inside the chain, but the client sees Internal. |
| `Interceptors.LoggedOutTokenIsRefused` | internal/grpcmiddleware/auth_middleware.go:26-29 | After a successful logout, every later non-bypassed call bearing that token before its expiry is refused. |
| `Interceptors.SecondLogoutRefused` | internal/grpcmiddleware/auth_middleware.go:26-29 | A second logout with the same token is refused before the logout handler runs. |
| `Products.CreateProduct` | internal/service/product_service.go:32-71 | Non-admins get Unauthenticated and nothing changes. A missing image file gives bad request with no product created. Success happens exactly for an admin with an existing image and a working insert. It stores exactly the request's fields under the fresh id and leaves the other products alone. |
| `Products.DetailProduct` | internal/service/product_service.go:73-94 | Not-found exactly when the id is unknown. Otherwise it returns the stored product. |
| `Products.EditProduct` | internal/service/product_service.go:96-157 | The admin gate and not-found come first, with no change. A new image name that does not exist gives bad request with no change. Success happens exactly for an admin, a found product and a working update, plus, when the image name changes, an existing new file and a removable old file. The old file is removed before the record is written, so a failing update still loses it. Keeping the image name touches no file. Success replaces the record with the request's fields. |
| `Products.DeleteProduct` | internal/service/product_service.go:159-195 | The admin gate and not-found come first, with no change. The record is deleted first and the image file second. Success happens exactly when both steps work. |
| `Products.ListProductAdmin` | internal/service/product_service.go:222-254 | Admins get the repository page unchanged unless the page query fails, whose error is returned. Other callers get Unauthenticated. |
| `Products.RemoveImage` | internal/service/product_service.go:185-189 | Removing works exactly when the file exists, and then only that name is gone. |
| `Products.EditThenDetail` | internal/service/product_service.go:73-157 | After a successful edit the detail lookup returns the edited record, other products read as before, and the file store has lost exactly the replaced image, if any. |
| `Products.EditKeepingImageLeavesFiles` | internal/service/product_service.go:117 | An edit that keeps the image name leaves the file store unchanged. |
| `Products.DeleteLeavesNothing` | internal/service/product_service.go:180-189 | After a successful delete, neither the record nor its image is left, and the detail lookup says not found. |
| `Products.DeleteWithMissingImage` | internal/service/product_service.go:180-189 | When the image file is missing, the delete errors after the record is already gone. |
| `Upload.UploadProductImage` | internal/handler/product_upload_image.go:13-70 | Success happens exactly when a file is present, its lower-cased extension and content type are whitelisted, and saving works. It then returns 200 with the generated name and adds that name to the directory. A missing file or a refused extension or type gives 400, a failed save gives 500, and none of these changes anything. |
| `Upload.Ext` | internal/handler/product_upload_image.go:23 | Like `filepath.Ext`: the suffix from the last dot of the last path element, or "" when that element has no dot. |
| `Upload.LastDot` | internal/handler/product_upload_image.go:23 | Finds the last dot that no separator follows. |
| `Upload.ToLower` | internal/handler/product_upload_image.go:23 | Each ASCII upper-case letter becomes its lower-case letter (code plus 32), so none remains; every other character is kept. |
| `Upload.ExtOfDotFreeName` | internal/handler/product_upload_image.go:54 | Appending an extension to a dot-free name makes it that name's extension. |
| `Upload.GeneratedNameKeepsExtension` | internal/handler/product_upload_image.go:53-54 | The stored name `product_<nanos><ext>` keeps the uploaded extension, with its case. |
| `Upload.StoredNameHasAllowedExtension` | internal/handler/product_upload_image.go:23-68 | Every stored name has a whitelisted extension, ignoring case, and is in the directory. |
| `Upload.UploadThenCreateProduct` | internal/handler/product_upload_image.go:65-69 | A name returned by the upload passes the catalog's image check, so an admin can create a product with it. |

## Left out

- Money is an integer number of minor units. The source adds `float64` prices, so its rounding is not modelled.
- Orders.CreateOrder: the order date is a parameter, not derived from `now`, and years outside 0..9999 are not covered. Go prints wider years with more digits.
- Panics inside order creation (the recover-and-rollback deferral) are not modelled. Interceptors.ErrMiddleware models a handler panic as an outcome.
- Transaction isolation, row locking and concurrent counter allocation are not modelled. One creation is one atomic step. `openTx` counts open transactions only so that the leak below can be stated.
- Orders.CreateOrderAsWritten: with all 100 connections held, `db.Begin` (called with a background context) waits forever. The model cannot express a call that never returns, so it represents the wait as the reply `Err(PoolExhausted)` with nothing written. The other services also block once the pool is exhausted (webhook, cart, auth and product queries), but their models take no pool state.
- Products.CreateProduct: image names are compared as plain strings. The source resolves them with `filepath.Join("storage", "product", name)`, which cleans the path, so `""`, `.`, `..`, `./x.png` or `a//b.png` may name the directory, a file outside it, or the same file as another spelling. The model assumes names are already clean file names.
- Products.EditProduct: the same assumption about image names applies to the new and the old image; the source treats `./x.png` and `x.png` as the same file, the model does not.
- Products.DeleteProduct: the same assumption about image names applies to the removed image.
- The SQL repositories are replaced by maps and a `faults` set. The repository methods the services call (`GetNumbering`, `GetOrderById`, `UpdateOrder`, the cart and user queries) are not part of this model. Soft deletes are modelled as removal.
- The Xendit HTTP call, bcrypt and JWT signing and verification are function parameters. `jwtentity.ParseTokenFromContext`, `GetClaimsFromToken`, `GetClaimsFromContext` and `utils.UnauthenticatedResponse` are not part of this model. They are parameters, or the fixed failures `NoClaims` and `Denied`.
- Orders.ListOrderAdmin: pagination metadata, the per-order product lists and the creation timestamp are not modelled. The same holds for `Orders.ListOrder`. ListCart, ListProduct and HighlightProducts are pure read-and-map calls and are left out.
- URLs built from environment variables, and the provider's redirect URLs, are not modelled. Audit fields on carts and products (created/updated at/by) are left out. Logging and stack printing are left out.
- `Upload.ToLower` lowers ASCII letters only. Go's `strings.ToLower` also lowers other Unicode letters, which cannot occur in a whitelisted extension.
- Auth.Logout: times are whole seconds. The cache compares nanoseconds, so an entry set with ttl d is live up to and including the second now + d. The cache's hourly janitor is not modelled; it only removes entries `Live` already treats as gone.
- `Auth.Login` models only the branch outcomes, with the signed string left to the signer.
- Quantities are unbounded integers. Neither the cart nor the order service checks their sign, and request validation runs in handler code that is not part of this model.
- The thin gRPC handlers, server wiring, the static file server and the DTO and report structs are left out.

## Findings

| source | as written | input that shows it | evidently intended | confidence | as-written member | corrected member |
|---|---|---|---|---|---|---|
| internal/service/order_service.go:87-92 | The unknown-product branch returns a response with a nil `err`. Neither the commit nor the deferred rollback (lines 57-61) runs, so the transaction and its pooled connection stay open. | A `CreateOrder` request naming one product id that is not in the catalog, repeated 100 times, the pool size set in pkg/database/connection.go:19. The next creation then blocks forever in `db.Begin`. | Roll back before returning the bad-request response. | not executed | Orders.CreateOrderAsWritten | Orders.CreateOrder |
| internal/service/cart_service.go:181-186 | With `NewQuantity == 0`, the error of `DeleteCart` is discarded, and the caller is told the row was deleted. | `UpdateCartQuantity` with quantity 0 by the row's owner while the delete fails. | Return the delete error as the other repository errors are returned. | not executed | Cart.UpdateCartQuantityAsWritten | Cart.UpdateCartQuantity |
