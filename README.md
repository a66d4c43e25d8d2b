# Commerce-Craft storefront backend, modelled in Dafny

Commerce-Craft is a storefront with two backends. The first is a Postgres-backed server with these tables:

- products, carts, cart_items, orders, order_items and users.

It has these services:

- a product catalog;
- a cart that belongs to a signed-in user or to a guest session;
- checkout, which turns the stored cart into an order with frozen order lines and then empties the cart;
- accounts with hashed passwords and signed tokens;
- a middleware that gives every request an identity.

The second is an Express/Mongo backend. It holds a cart document whose totals a save hook recomputes, and a newsletter subscription store.

This project models those domain rules as Dafny modules, one per source file:

| module | file | models |
|---|---|---|
| `Catalog` | catalog.dfy | product.service.ts: listing with the "All" sentinel, lookup by id, categories, search |
| `Carts` | carts.dfy | cart.service.ts: class `CartService` over the carts table (`seq<CartRow>`) and cart_items (`map<CartId, seq<CartLine>>`) |
| `Orders` | orders.dfy | order.service.ts: class `OrderService` over orders and order_items, holding the `CartService` it reads and clears |
| `MongoCart` | mongo_cart.dfy | backend Cart.ts: class `CartDocument` with the pre-save hook, class `CartCollection` with the unique indexes |
| `Newsletter` | newsletter.dfy | newsletterController.ts: class `NewsletterStore` over the subscription records |
| `Identity` | identity.dfy | auth.middleware.ts: class `Request` and the two middlewares |
| `Accounts` | accounts.dfy | auth.service.ts: class `AuthService` over the users table |
| `Wrappers`, `Seqs`, `Text` | wrappers.dfy, seqs.dfy, text.dfy | shared building blocks: Option/Result; the `reduce` sum, `filter`, `ORDER BY` sort and `new Set` de-duplication; JavaScript's `toString(radix)`, `substring`, `toUpperCase` and `ILIKE`-style matching |

Modelling choices:

- Prices and totals are integers (cents), with exact arithmetic.
- Ids the database generates (carts, orders, users) are the row's position in its table. Product ids, session ids and emails are strings.
- A JavaScript truthiness test on a user id is "present". On a session id it is "present and non-empty".
- The clock (`Date.now()`), the random draw (`Math.random().toString(36)`) and the database's creation timestamp are parameters.
- bcrypt and JWT are opaque functions:
  - `hash` and `matches` (bcrypt's hash and compare);
  - `sign`;
  - a token check `verify: string -> Option<UserId>`, whose `None` stands for a thrown verification error.
- The stateful services are classes whose methods update their tables in place. Each method states its whole new state in terms of the old one. The read-only queries are functions over the tables.

## Model

| member | source | states |
|---|---|---|
| Carts.CartService.GetOrCreateCart | server/src/services/cart.service.ts:5-34 | without a user id or a non-empty session id it fails with "Either userId or sessionId is required" and changes nothing; otherwise it returns the cart the lookup finds (by user id when given, else by session id) without creating one, or appends exactly one cart for the identity; the cart returned is owned by the identity |
| Carts.FindCart | server/src/services/cart.service.ts:11-23 | the `.single()` lookup returns a cart only when exactly one cart matches the identity, and that cart is the only match |
| Carts.UserHasAtMostOneCart | server/src/services/cart.service.ts:13-14 | while no two carts share a user, a user id selects at most one cart |
| Carts.WithCartProperties | server/src/services/cart.service.ts:25-33 | resolving an identity keeps every existing cart, keeps one cart per user, and the returned cart belongs to the identity |
| Carts.ResolveStable | server/src/services/cart.service.ts:19-33 | when the lookup is unambiguous, a second getOrCreateCart returns the same cart and creates nothing |
| Carts.CartService.GetCart | server/src/services/cart.service.ts:36-62 | the items are the cart's lines joined with their products; total = Σ price × quantity; an empty cart gives no items and total 0 |
| Carts.QuantityOf | server/src/services/cart.service.ts:79-84 | the quantity of the one line a product has in a cart, or none |
| Carts.AddQuantity | server/src/services/cart.service.ts:86-101 | an existing line's quantity grows by the amount added (q1 then q2 gives q1 + q2); an absent product gets one new line appended; all other products keep their quantities; one line per product is kept |
| Carts.AddQuantityTotal | server/src/services/cart.service.ts:86-101 | adding q units of a product raises the cart total by price × q |
| Carts.CartService.AddToCart | server/src/services/cart.service.ts:64-102 | an unknown product fails with "Product not found" and leaves the lines unchanged; otherwise the resolved cart's lines become AddQuantity of the old ones; the amount is at least 1 (server/src/controllers/cart.controller.ts:6-9) |
| Carts.SetQuantity | server/src/services/cart.service.ts:112-116 | the product's line takes the new quantity; an absent line stays absent and nothing changes; other lines are untouched |
| Carts.SetQuantityAt | server/src/services/cart.service.ts:112-116 | with one line per product, the update replaces exactly that product's line |
| Carts.SetQuantityTotal | server/src/services/cart.service.ts:112-116 | replacing a line's quantity changes the total by price × (new − old) |
| Carts.CartService.UpdateCartItem | server/src/services/cart.service.ts:104-119 | a quantity ≤ 0 removes the line through removeFromCart (which resolves the cart again); a positive quantity applies SetQuantity; the quantity is at least 0 (server/src/controllers/cart.controller.ts:11-14) |
| Carts.RemoveProduct | server/src/services/cart.service.ts:124-128 | the product has no line afterwards; every other product keeps its quantity; no line is added |
| Carts.CartService.RemoveFromCart | server/src/services/cart.service.ts:121-131 | only that product's line in the resolved cart is deleted; an absent line is no error and no change |
| Carts.CartService.ClearCart | server/src/services/cart.service.ts:133-142 | the resolved cart has no lines afterwards; every other cart's lines are unchanged |
| Carts.LineOperationsKeepValid | server/src/services/cart.service.ts:86-128 | add, positive update and remove keep one line per product, every quantity ≥ 1 and every product in the catalog |
| Orders.OrderService.CreateOrder | server/src/services/order.service.ts:12-88 | no identity fails as getCart does; a cart with no lines fails with "Cart is empty" and writes no order; a missing requested product fails with "Product <id> not found" before any write; otherwise it appends one order with total_amount = Σ price × quantity over the stored cart, status and payment_status "pending", the generated order number; it appends one frozen item per cart line with Σ subtotals = total_amount; the originating cart has no lines afterwards |
| Orders.FirstMissing | server/src/services/order.service.ts:21-31 | None exactly when every requested product exists; otherwise the id of the first requested item whose product is missing |
| Orders.CheckProducts | server/src/services/order.service.ts:21-31 | the validation loop reports exactly FirstMissing |
| Orders.FreezeItems | server/src/services/order.service.ts:64-72 | one order item per cart line, in cart order, copying product id, name, image, quantity and price, with subtotal = price × quantity |
| Orders.FrozenTotal | server/src/services/order.service.ts:64-72 | the frozen subtotals sum to the cart total recorded as total_amount |
| Orders.GenerateOrderNumber | server/src/services/order.service.ts:6-10 | the number starts with "ORD-" and has no lower-case letters |
| Orders.OrderNumberDeterminesClock | server/src/services/order.service.ts:7-9 | numbers generated at different clock readings differ, whatever the random parts |
| Orders.GetOrderById | server/src/services/order.service.ts:90-111 | with a user id: an order only if it exists and belongs to that user; without one: the order by id alone; the embedded items are exactly that order's item rows, each as often as it is stored |
| Orders.GetOrderByIdOwnerOnly | server/src/services/order.service.ts:99-101 | an order found with a user id belongs to that user, and is the one found without the filter |
| Orders.UserRecords | server/src/services/order.service.ts:115-121 | the `eq('user_id', userId)` selection: exactly the user's orders, each with its items, none listed twice |
| Orders.GetUserOrders | server/src/services/order.service.ts:113-125 | exactly the user's orders with their items, each order once (distinct ids), ordered by created_at descending |
| Orders.OrderService.UpdateOrderStatus | server/src/services/order.service.ts:127-134 | the order's status becomes the given string; an unknown id changes nothing |
| MongoCart.CartDocument.PreSave | backend/src/models/Cart.ts:68-72 | totalItems = Σ quantity and totalPrice = Σ price × quantity, using the price stored on each line; sessionId and items are unchanged |
| MongoCart.CartDocument.constructor | backend/src/models/Cart.ts:52-60 | a new document's totals default to 0 |
| MongoCart.TotalItemsCountsLines | backend/src/models/Cart.ts:69 | with every quantity ≥ 1, totalItems ≥ the number of lines, and totalItems = 0 exactly for an empty cart |
| MongoCart.TotalsAppend | backend/src/models/Cart.ts:69-70 | adding a line adds its quantity and its price × quantity to the totals |
| MongoCart.CartCollection.Save | backend/src/models/Cart.ts:20-72 | schema validation runs first (required strings non-empty, quantity ≥ 1, sessionId required); then the hook; then the unique `_id` and sessionId indexes refuse duplicates; the collection keeps at most one cart per session and only valid documents with consistent totals |
| Newsletter.NewsletterStore.Subscribe | backend/src/controllers/newsletterController.ts:6-48 | failed validation answers 400 "Validation failed" before any lookup or write; a subscribed email answers 400 "Email already subscribed" and changes nothing; an unsubscribed one is flipped in place (200) and no second record is created; a new one gets exactly one record with subscribed = true (201); emails stay unique |
| Newsletter.NewsletterStore.Unsubscribe | backend/src/controllers/newsletterController.ts:50-74 | an unknown email answers 404 "Email not found"; a known one ends with subscribed = false |
| Newsletter.SetFlag | backend/src/controllers/newsletterController.ts:64-65 | the email's record takes the flag; no other email's status changes; nothing changes for an unknown email |
| Newsletter.UnsubscribeIdempotent | backend/src/controllers/newsletterController.ts:58-70 | unsubscribing twice leaves the same records as unsubscribing once, and the second call finds the record (no 404) |
| Newsletter.AppendNewEmail | backend/src/controllers/newsletterController.ts:38-39 | creating a record for a new email keeps one record per email and makes only that email subscribed |
| Newsletter.Find | backend/src/controllers/newsletterController.ts:58 | `findOne({ email })` finds a record exactly when one has that email, and with unique emails it is the only one |
| Identity.AuthMiddleware | server/src/middleware/auth.middleware.ts:9-32 | it always continues; a Bearer token that verifies sets userId and leaves sessionId alone; a missing header, another scheme or a failing token sets sessionId instead (silent downgrade); on a fresh request exactly one of the two is set afterwards, and it is an identity the cart service accepts |
| Identity.BearerToken | server/src/middleware/auth.middleware.ts:17-23 | a token exists exactly when the header starts with "Bearer ", and it is the header without its first seven characters |
| Identity.BearerTokenRoundTrip | server/src/middleware/auth.middleware.ts:23 | "Bearer " + t yields t |
| Identity.GuestSession | server/src/middleware/auth.middleware.ts:19 | the x-session-id header when it is non-empty, else a generated id; never empty |
| Identity.RequireAuth | server/src/middleware/auth.middleware.ts:34-54 | no Bearer header answers 401 "Authentication required"; a failing token answers 401 "Invalid or expired token"; otherwise userId is set and the request continues |
| Identity.GenerateSessionId | server/src/middleware/auth.middleware.ts:56-58 | generated session ids start with "session_" |
| Identity.SessionIdDeterminesClock | server/src/middleware/auth.middleware.ts:57 | ids generated at different clock readings differ |
| Accounts.AuthService.Register | server/src/services/auth.service.ts:8-42 | an email already present fails with "User with this email already exists" and inserts nothing; otherwise one user is appended storing hash(password), and the reply is that user without the hash plus sign(new id); emails stay unique |
| Accounts.RegisterKeepsValid | server/src/services/auth.service.ts:10-33 | appending a user whose email is new keeps ids and emails unique |
| Accounts.Login | server/src/services/auth.service.ts:44-69 | every failure is "Invalid email or password", whether the email is unknown or the password does not match; success exactly when a user with that email has a matching hash; it then returns that user without the hash and sign(its id) |
| Accounts.LoginAfterRegister | server/src/services/auth.service.ts:58-68 | when the comparison accepts a password against its own hash, a just-registered user logs in with the same password and gets the same user and token |
| Accounts.GetUserById | server/src/services/auth.service.ts:71-84 | None for an unknown id; otherwise that user, without the hash |
| Accounts.Public | server/src/services/auth.service.ts:67 | dropping password_hash keeps id, email and names |
| Catalog.GetAllProducts | server/src/services/product.service.ts:5-16 | with no category, "" or "All": every product (same multiset); otherwise exactly the products of that category; ordered by created_at descending |
| Catalog.GetProductById | server/src/services/product.service.ts:18-31 | None exactly when no product has that id; otherwise a product with that id, the only one under unique ids |
| Catalog.GetCategories | server/src/services/product.service.ts:33-43 | "All" first, then exactly the catalog's categories, strictly ascending (so no duplicates) |
| Catalog.SearchProducts | server/src/services/product.service.ts:45-53 | exactly the products whose name or description contains the query ignoring case, each kept as often as it occurs |
| Catalog.SearchHitMeansMatch | server/src/services/product.service.ts:49 | the executable substring scan agrees with the definition "occurs at some position" |
| Text.ToRadix | server/src/services/order.service.ts:7 | `n.toString(base)` is non-empty, uses only lower-case letters and digits whose values are below the base, and starts with '0' only for n = 0 (no leading zeros) |
| Text.RadixRoundTrip | server/src/services/order.service.ts:7 | reading the digits of `n.toString(base)` back gives n |
| Text.JsSubstring | server/src/services/order.service.ts:8 | `substring(start, end)` takes the characters from start, and its length is min(end, length) − min(start, length), so both indices are clamped to the string |
| Text.Upper | server/src/services/order.service.ts:9 | `toUpperCase()` keeps the length, leaves no lower-case ASCII letter, and maps each character to one that folds to the same lower-case character: a lower-case letter becomes its capital, everything else is kept |

## Left out

- Storage errors (`if (error) throw error`, and the errors other than "no row" that the `.single()` lookups rethrow) are not modelled: every query succeeds.
- A `.single()` query that finds several rows returns an error. The cart lookup ignores that error and carries on as if no cart was found, and so does the model (`Carts.FindCart`). For users and cart lines the model's invariants rule out a second row, so it does not arise there.
- The steps of one service call run as one sequential step. Races between a read and the write that follows it are not modelled, including the gap between createOrder's insert and its clearCart.
- Prices are JavaScript numbers in the source. The model uses integer cents with exact sums, so floating-point rounding is not modelled.
- `Orders.OrderService.CreateOrder` validates the caller's `items` list but bills the stored cart's lines, as the code does. The two lists are never reconciled, and the model does not reconcile them either.
- `Orders.OrderService.UpdateOrderStatus` accepts any status string; the code has no state machine, and neither does the model.
- `Orders.OrderService.CreateOrder` does not model the `created_at`/`updated_at` columns of order items, or `updated_at` on orders. The order's `created_at` is a parameter.
- `Catalog.SearchProducts`: the query is placed into the `or=(…)` filter without quoting, and the model matches it as literal text. So the model does not capture these cases:
  - the `ILIKE` wildcards `%` and `_` inside the query;
  - `*`, which the filter syntax reads as `%`;
  - `,`, `(` and `)`, which break the filter, so the request fails and the search throws.
  Case is folded for ASCII letters only.
- `Catalog.GetCategories`: the database's collation is replaced by code-point order of the strings.
- `Text.Upper`: only ASCII letters are upper-cased. The strings it is applied to are base-36 digits and ASCII text.
- bcrypt and JWT are opaque functions:
  - the salt randomness of `bcrypt.hash` and the cost factor are not modelled;
  - token expiry is not modelled;
  - a verified token is assumed to carry a `userId`.
  `Accounts.LoginAfterRegister` takes the agreement of hash and compare as a hypothesis.
- `Accounts.AuthService.Register` does not prove that the stored hash differs from the plaintext. It stores `hash(password)` and never the password, but nothing is assumed about what `hash` returns.
- `Newsletter.NewsletterStore.Subscribe` takes the outcome of the email validator (`isEmail`, `normalizeEmail`) as a boolean. The validator itself and its normalisation of the address are not modelled. backend/src/models/Newsletter.ts is not part of this model; its schema's constraints, if any, are not modelled.
- The Express response objects are reduced to a status and a message.
- `Identity.Request` keeps only the two headers and two fields the middlewares touch. A header sent more than once (an array value) is not modelled.
- The cart, order and product controllers and the routes are not modelled. Their schema bounds on quantities appear only as preconditions: at least 1 for add and at least 0 for update.
