# Mall backend: access control, cart, checkout and promotions

A Dafny model of the request-handling core of a multi-store mall backend
(Express, Prisma, zod):

- **Access control.** Each router runs its gates in order: `requireAuth`
  parses the bearer header and resolves the caller. `requireRole` checks the
  router's role list. `requireStoreAccess` isolates stores: ADMIN passes, the
  owner passes, and otherwise the caller's first enabled staff link to the
  store decides, against the endpoint's staff-role list.
- **Customer side.** The caller's active cart is found or created. Adding a
  line freezes the price and currency. Viewing the cart groups its lines by
  store. Checkout splits the cart into one order per store inside one
  all-or-nothing transaction, decrements stock and clears the cart.
- **Store back office.** Sections, products, variants with their inventory,
  staff links and the store's order list.
- **Promotions.** A store submits a promotion for moderation. An admin lists
  the moderation queue and decides on a promotion.
- **Errors.** The error middleware turns what a handler throws into a
  response. A zod schema failure is not an `HttpError`. The model assumes
  the route wrapper `asyncHandler` passes it on unchanged, so the error
  middleware answers it `500 Internal Server Error` (the constant
  `Basics.ValidationFailed`).

The database is one immutable value, `Model.Db`. Every handler is a pure
function from the state and the request to an `Outcome`: the new state and
either the answer or the `HttpError`. Effects that Prisma would apply are
written out, and so is everything a thrown error rolls back.

Modules, in dependency order:

- `Basics`: `Option`, `HttpError`, `Result`, `Gate`.
- `Model`: the tables.
- `Auth`: the middleware.
- `Errors`: the error middleware.
- `Routes`: the policy table of every protected endpoint.
- `Cart`: find-or-create, add, view, grouping.
- `Checkout`: the transaction, as written and corrected.
- `Stock`: stock accounting of both versions.
- `Tenant`: the store back office.
- `Promotions` and `Admin`: promotions.

Inputs the model takes as parameters:

- Token verification (signature, expiry, subject parsing) is the oracle
  `verify: string -> Option<Id>`.
- The email syntax check of zod is the oracle `isEmail`.
- Request bodies arrive already decoded. An absent optional field is `None`.

## Model

| member | source | states |
|---|---|---|
| Basics.Utf16Length | tenant.routes.ts:21 | The JavaScript `.length` that zod's `.min` compares: between |s| and 2·|s|, and equal to |s| exactly when no character is astral |
| Basics.EmojiIsTwoUnits | tenant.routes.ts:21 | One emoji is one character but two code units |
| Auth.ParseAuthHeader | auth.ts:24-28 | A token is found exactly when the header is present and `/^Bearer\s+(.+)$/i` matches it; the token is the capture group, and since `\s+` backtracks, it starts as late as any match allows |
| Auth.ParseAuthHeaderPlain | auth.ts:26-27 | `Bearer ab` yields the token `ab` |
| Auth.ParseAuthHeaderBlanks | auth.ts:26-27 | `Bearer` followed only by blanks yields its last blank as the token, not nothing |
| Auth.FindUser | auth.ts:38-46 | Yields a user of the table with the id, or none when no user has it |
| Auth.OwnedStoreIds | auth.ts:42 | Exactly the ids of the stores the user owns |
| Auth.EnabledGrants | auth.ts:43 | Exactly the (store, role) pairs of the user's links with `status: true`; disabled links grant nothing |
| Auth.RequireAuth | auth.ts:30-59 | A missing token is 401 "Missing Bearer token", a token the verifier rejects is 401 "Invalid token", and every failure is 401. The caller is admitted exactly when a token is present, the verifier accepts it and its user exists. On success the token names the user, and the context holds that user's email and roles, exactly their owned store ids and exactly their enabled staff grants |
| Auth.SomeIncluded | auth.ts:63 | True iff some required role is among the caller's roles |
| Auth.RequireRole | auth.ts:61-66 | Passes iff the caller holds one of the listed roles, else 403 "Forbidden: role not allowed" |
| Auth.NoRolesAlwaysForbidden | auth.ts:62-64 | A request without roles (or without context) is refused by every role gate |
| Auth.SelectStoreId | auth.ts:70 | The store id comes from the path, else the body, else the query; an empty value counts as absent |
| Auth.FirstGrantIndex | auth.ts:82 | The index of the first grant for the store, or the length when there is none |
| Auth.RequireStoreAccess | auth.ts:69-87 | No store id is 400; ADMIN passes; the owner passes; with no grant for the store it is 403 "no store access"; otherwise the first grant decides, and it passes iff no staff-role list is given or the grant's role is in it, else 403 "insufficient staff role" |
| Auth.StaffRolesMonotone | auth.ts:85 | Widening the staff-role list, or dropping it, never turns an allow into a refusal |
| Auth.EmptyStaffRolesForbidStaff | auth.ts:85-86 | An empty staff-role list refuses, with 403, every caller who is neither ADMIN nor owner |
| Auth.OnlyFirstGrantCounts | auth.ts:82-86 | Grants after the first grant for the store do not change the decision |
| Auth.FirstGrantPrefix | auth.ts:82 | Appending grants does not move the first grant for a store already present |
| Errors.ErrorToResponse | error.ts:4-11 | An HttpError gives its status, message and details; anything else gives 500 "Internal Server Error" without details; the error is logged iff the status is at least 500 |
| Errors.InternalMessageNeverLeaks | error.ts:5-9 | Two unexpected errors give the same response, whatever their messages |
| Errors.ValidationFailureIsInternal | error.ts:5-9 | A schema rejection is answered exactly like any unexpected error |
| Routes.RouterRoles | tenant.routes.ts:11-12 | The role list of each router: CUSTOMER or ADMIN for cart and checkout, ADMIN, TENANT or STAFF for tenant and promotion endpoints, ADMIN for admin endpoints |
| Routes.StoreCheckOf | tenant.routes.ts:15-122 | Exactly the tenant and promotion endpoints run the store check |
| Routes.Chain | checkout.routes.ts:10-11 | Two middlewares in sequence pass iff both pass, and the first refusal is the answer |
| Routes.Authorize | tenant.routes.ts:11-23 | A role refusal is the answer; otherwise endpoints without a store check pass, and the others answer what the store check answers for the path's store id |
| Routes.Guard | tenant.routes.ts:11-15 | An authentication failure is the answer; the request reaches the handler iff authentication and authorization both pass, with the context built by authentication; an authorization refusal is the answer otherwise |
| Routes.NoTokenNoEntry | auth.ts:31-32 | No request without a bearer header reaches any handler: it is 401 "Missing Bearer token" |
| Routes.StoreRoutesNeedRole | tenant.routes.ts:12 | A tenant or promotion endpoint is reached only by ADMIN, TENANT or STAFF; anyone else is refused with 403 by the role gate |
| Routes.AdminRoutesAdminOnly | admin.routes.ts:10-11 | The admin endpoints are reached exactly by ADMIN callers |
| Routes.CheckoutRoutesCustomerOrAdmin | checkout.routes.ts:10-11 | The cart and checkout endpoints are reached exactly by CUSTOMER or ADMIN callers |
| Routes.AdminPassesEverywhere | auth.ts:75 | ADMIN passes every gate of every endpoint, for every store |
| Routes.OwnerPassesStoreRoutes | auth.ts:77-78 | A TENANT owning the store passes every store-scoped endpoint, whatever its staff-role list |
| Routes.StoreIsolation | auth.ts:68-83 | A caller who is not ADMIN, does not own the store and has no enabled link to it is refused by every store-scoped endpoint with 403, whatever it holds for other stores |
| Routes.CustomerOnlyShutOut | tenant.routes.ts:12 | A caller holding only CUSTOMER reaches no tenant, promotion or admin endpoint |
| Routes.StaffDecision | auth.ts:80-86 | For STAFF callers who are neither ADMIN nor owner, an endpoint passes iff it permits the role of the caller's first link to the store; otherwise it is 403 "insufficient staff role" |
| Routes.StaffGate | auth.ts:80-86 | The store check alone, for such a caller: it passes iff the list is absent or holds the first link's role |
| Routes.SalesCannotManageCatalogue | tenant.routes.ts:23-68 | SALES staff cannot create sections, products or variants |
| Routes.ProductsCannotSeeOrders | tenant.routes.ts:96-122 | PRODUCTS staff cannot list orders, manage staff or create promotions |
| Routes.AnyLinkCanList | tenant.routes.ts:15 | Any enabled link to the store, whatever its role, opens the section and promotion listings |
| Cart.FirstActiveCartIndex | checkout.routes.ts:14 | The first active cart of the customer, or the length when there is none |
| Cart.GetActiveCart | checkout.routes.ts:13-17 | Yields an active cart of the customer that is in the table; the state is unchanged when one exists, else exactly one cart is appended with the next id |
| Cart.GetActiveCartCount | checkout.routes.ts:13-17 | Afterwards the customer has at least one active cart; none before means exactly one after, some before means the count is unchanged |
| Cart.GetActiveCartIdempotent | checkout.routes.ts:13-17 | Asking again yields the same cart and the same state |
| Cart.AddToCart | checkout.routes.ts:26-62 | Only the find-or-create step and the new line change the state, and an error keeps only the step. A quantity below 1 is a validation failure. A product that is missing, disabled or in a non-ACTIVE store is 404. A variant not of the product is 404. Stock below the quantity is 400. It succeeds exactly when none of these holds, appending one line with the next id, the override or base price, and the product's currency |
| Cart.LinesOf | checkout.routes.ts:113-118 | Exactly the lines of the store, in order |
| Cart.AddToGroups | checkout.routes.ts:114-117 | One grouping step: the line joins its store's group, or opens a new group at the end; other groups are unchanged and stores stay distinct |
| Cart.GroupByStore | checkout.routes.ts:113-118 | One group per store present, in order of first appearance, each holding exactly that store's lines in order with subtotal Σ unitPrice × qty |
| Cart.GroupByStorePermutes | checkout.routes.ts:113-118 | Together the groups hold each line exactly as often as the cart does |
| Cart.ItemsOfCart | checkout.routes.ts:68-69 | Exactly the lines of the cart |
| Cart.Reverse | checkout.routes.ts:71 | The lines newest first: position i holds the line i places from the end |
| Cart.SortByStore | checkout.routes.ts:89 | The groups in ascending store id, as a permutation. This is the order `Object.values` uses for keys that are array indices |
| Cart.SortKeepsGroups | checkout.routes.ts:89 | Sorting keeps every group intact and every line's store present |
| Cart.ViewCartGroups | checkout.routes.ts:65-90 | The view shows the active cart. Its groups are in ascending store order, and every line appears in the group of its store. Each group holds exactly its store's lines, newest first, with subtotal Σ unitPrice × qty |
| Checkout.ToOrderItems | checkout.routes.ts:142-149 | One order item per line, keeping product, variant, quantity and price snapshot |
| Checkout.DropCart | checkout.routes.ts:171 | Exactly the lines of other carts remain |
| Checkout.CheckoutWith | checkout.routes.ts:98-175 | Only inventory, orders, the id counter and cart lines can change beyond the cart step; an error keeps exactly the cart step's state |
| Checkout.Checkout | checkout.routes.ts:98-175 | The handler as written: an error leaves the state as the cart step left it |
| Checkout.CheckoutCorrected | checkout.routes.ts:155-165 | The corrected handler: an error leaves the state as the cart step left it |
| Checkout.CheckoutRequest | checkout.routes.ts:100-101 | A rejected body is a validation failure after the cart step; a valid one runs the corrected checkout |
| Checkout.CheckoutOkShape | checkout.routes.ts:123-174 | Proof helper that unfolds `CheckoutWith`: a success comes from a non-empty cart whose transaction succeeded; its inventory, orders and counter are written back, the cart's lines dropped, and the created summaries answered |
| Checkout.ApplyLinesSnapshotErr | checkout.routes.ts:155-165 | The inventory loop fails, with 400, iff some line names a variant whose loaded inventory is missing or short |
| Checkout.ProcessGroupsSnapshotErr | checkout.routes.ts:123-168 | The transaction fails, with 400, iff some line of any group is so blocked |
| Checkout.GroupedLinesAreCartLines | checkout.routes.ts:113-118 | The grouped lines are exactly the cart's lines |
| Checkout.CheckoutEmptyCart | checkout.routes.ts:110 | An empty cart is 400 "Cart is empty" with only the cart step's change, and with no change at all when the cart existed |
| Checkout.CheckoutFailsIffBlocked | checkout.routes.ts:123-172 | Atomicity: checkout of a non-empty cart fails, with 400 and no change beyond the cart step, exactly when some line's loaded inventory is missing or short, whatever store it belongs to |
| Checkout.CheckoutErrShape | checkout.routes.ts:123-172 | Proof helper that unfolds `CheckoutWith`: a non-empty cart fails iff the transaction fails, with its error and the cart step's state |
| Checkout.Summaries | checkout.routes.ts:167 | One `{ id, storeId, total, currency }` entry per order, in order |
| Checkout.OrdersFromAt | checkout.routes.ts:124-152 | The i-th order created is the order of the i-th group, numbered from the first id |
| Checkout.ProcessGroupsOrders | checkout.routes.ts:124-168 | A successful transaction appends one order and one summary per group, in group order, and advances the counter by the number of groups |
| Checkout.OrdersOfGroups | checkout.routes.ts:124-152 | The orders of a grouping form the split of the cart by store |
| Checkout.CheckoutSplitsOrders | checkout.routes.ts:98-175 | With either stock read, a successful checkout keeps every earlier order. It appends one order per store present, numbered consecutively. Each order is PENDING and UNPAID, holds exactly that store's lines with their price snapshots, and has total = subtotal + the store's fee (0 when absent). The answer is their summaries |
| Checkout.ApplyLinesSnapshotOk | checkout.routes.ts:155-165 | After the loop as written, a variant no line names is untouched, and a named one holds the loaded stock minus one of its lines' quantities |
| Checkout.ProcessGroupsSnapshotInventory | checkout.routes.ts:124-168 | The same over all groups of the transaction |
| Checkout.TxSnapshotWrites | checkout.routes.ts:123-172 | The same for the whole cart |
| Checkout.CheckoutInventory | checkout.routes.ts:155-165 | After checkout as written, every variant keeps its record or holds the loaded stock minus one of its lines' quantities, never negative; when lines repeat a variant the last write wins |
| Checkout.CheckoutStockPerLine | checkout.routes.ts:155-165 | When no variant appears on two lines, each variant line leaves its variant at loaded stock minus its quantity, never negative |
| Checkout.CheckoutClearsCart | checkout.routes.ts:171 | With either stock read, a successful checkout keeps the cart row but leaves it without lines, and the other carts' lines are untouched |
| Stock.ApplyLinesCurrent | checkout.routes.ts:155-165 | The corrected loop fails, with 400, iff some line cannot be served once everything so far is ordered; on success every variant holds loaded stock minus the total quantity ordered of it |
| Stock.ProcessGroupsCurrent | checkout.routes.ts:124-168 | The same over all groups of the transaction |
| Stock.TxCurrent | checkout.routes.ts:123-172 | The corrected transaction fails iff some variant's total demand in the cart exceeds its stock or has no inventory; on success each variant is at loaded stock minus its total demand, never negative |
| Stock.CorrectedCheckoutStock | checkout.routes.ts:155-165 | The corrected checkout of a non-empty cart fails, with 400 and no change, exactly when some variant's total demand cannot be met; on success each variant is at loaded stock minus its total demand |
| Stock.SnapshotAccepts | checkout.routes.ts:155-163 | Checkout as written accepts a cart with two lines of one variant, each within the stock but together above it |
| Stock.UnblockedAccepted | checkout.routes.ts:155-172 | Proof helper: checkout as written accepts a non-empty cart none of whose lines is short of its loaded stock |
| Stock.SnapshotOversells | checkout.routes.ts:155-163 | ... and leaves the variant above loaded stock minus the two quantities: one decrement is lost |
| Stock.CorrectedRefusesDoubleLine | checkout.routes.ts:155-163 | The corrected checkout refuses that cart |
| Stock.ExampleAdds | checkout.routes.ts:26-62 | Starting from a variant with stock 5 and a customer with no cart, two add-to-cart calls of that variant with quantity 3 both succeed. They create one cart holding the two lines and leave the stock untouched |
| Stock.ExampleCartLines | checkout.routes.ts:13-17 | The checkout's cart step finds that cart, and its lines are the two added |
| Stock.ExampleDoubleLine | checkout.routes.ts:155-163 | The cart those two calls build is such a cart |
| Tenant.SectionsOf | tenant.routes.ts:17 | Exactly the store's sections |
| Tenant.SortBySortOrder | tenant.routes.ts:17 | Ascending sort order, as a permutation |
| Tenant.ListSections | tenant.routes.ts:15-19 | The store's sections in ascending sort order, as a permutation of them |
| Tenant.ListSectionsExactly | tenant.routes.ts:17 | No section of another store is listed, and none of the store's is left out |
| Tenant.CreateSection | tenant.routes.ts:21-28 | Succeeds iff the name is at least 2 UTF-16 code units long, a given sort order is not negative, and the store has no section of that name. An invalid body is a validation failure. A valid body with a taken name is refused by the database's unique (store, name) key with 500. Every failure leaves the state unchanged. The new section has the next id, the store, the name, sort order defaulting to 0, and is enabled |
| Tenant.CreateSectionKeepsNamesUnique | tenant.routes.ts:26 | Creating a section keeps section names unique per store. Repeating a successful request is refused with the database's 500 |
| Tenant.CreatedSectionListed | tenant.routes.ts:26 | The new section appears in its store's listing, and other stores' listings are unchanged |
| Tenant.CreateProduct | tenant.routes.ts:31-56 | Succeeds iff the name is at least 2 UTF-16 code units long and the base price is a non-negative amount; the product gets the next id, currency defaulting to YER, enabled |
| Tenant.EmojiNameAccepted | tenant.routes.ts:21-35 | A one-emoji product name passes `.min(2)`, and so does a one-emoji section name the store does not yet use; a one-letter section name fails it |
| Tenant.NewProductPurchasable | tenant.routes.ts:44-54 | A new product can be added to a cart iff its store is ACTIVE, and a line without a variant is priced at the base price |
| Tenant.CreateVariant | tenant.routes.ts:59-88 | A body that fails validation is refused first, with no change. A product that is missing or in another store is then 404. On success it adds the variant with its attributes and exactly one inventory record: stock defaults to 0 and the threshold to 5, neither negative |
| Tenant.NewVariantOneInventory | tenant.routes.ts:83 | The inventory table gains exactly the one new key, and ids stay below the counter |
| Tenant.NewVariantSellable | tenant.routes.ts:76-85 | The new variant belongs to the product as add-to-cart sees it, its stock is the one given, and a line for it is priced at the override or the base price |
| Tenant.UserIndexByEmail | tenant.routes.ts:100 | The first user with the email, or the length when there is none |
| Tenant.LinkIndex | tenant.routes.ts:113 | The first (store, user) link, or the length when there is none |
| Tenant.GrantRole | tenant.routes.ts:106-110 | The roles afterwards are the old ones plus the granted one |
| Tenant.UpsertLink | tenant.routes.ts:112-116 | An existing (store, user) link gets the role and is re-enabled, keeping its id; otherwise a new enabled link is appended with the next id |
| Tenant.UpsertStaff | tenant.routes.ts:96-119 | An unknown email is 404 "User not found", a missing STAFF role seed is 500, and both leave the state unchanged; otherwise it grants STAFF, upserts the link and answers the link's id |
| Tenant.UpsertStaffRequest | tenant.routes.ts:91-98 | An email of bad syntax is a validation failure with no change, checked before any lookup |
| Tenant.UpsertLinkEffect | tenant.routes.ts:112-116 | Under the (store, user) uniqueness constraint: afterwards there is exactly one link for the pair, enabled, with the role and the answered id; all other links remain and the constraint holds |
| Tenant.UpsertStaffLink | tenant.routes.ts:100-118 | A successful staff upsert leaves the user with the STAFF role and that one link |
| Tenant.UpsertLinkIdempotent | tenant.routes.ts:112-116 | Repeating the link upsert changes nothing |
| Tenant.UpsertStaffIdempotent | tenant.routes.ts:106-116 | Repeating the staff upsert changes nothing and answers the same id |
| Tenant.UpsertStaffOpensStore | tenant.routes.ts:112-116 | The new staff member's next request authenticates with the STAFF role and a grant for the store with the requested role |
| Tenant.FoldQtyIsSum | tenant.routes.ts:137 | The `reduce` from 0 is Σ qty |
| Tenant.OrdersOf | tenant.routes.ts:125 | Exactly the store's orders |
| Tenant.RowOf | tenant.routes.ts:131-139 | A row shows the order's id, statuses, currency, total and Σ qty of its items |
| Tenant.ListStoreOrders | tenant.routes.ts:122-140 | At most 50 rows, the store's newest orders newest first |
| Tenant.ListStoreOrdersScope | tenant.routes.ts:124-129 | Every row shows one of the store's orders, and a store with at most 50 orders sees all of them |
| Promotions.AmountLiteralExamples | promotions.routes.ts:25 | `0`, `12.5`, `12.50` are amounts; the empty string, `.5`, `1.` and `1.234` are not |
| Promotions.CreatePromotion | promotions.routes.ts:30-48 | Fails, with a validation failure and no change, iff the title is shorter than 2 UTF-16 code units, the value is not an amount or the priority is negative. Otherwise it appends one promotion with the next id: PENDING, created by the caller, never approved. The coupon code is kept only for COUPON. Value defaults to "0" and priority to 0 |
| Promotions.PromotionsOf | promotions.routes.ts:15 | Exactly the store's promotions |
| Promotions.ListPromotions | promotions.routes.ts:12-20 | The store's 100 newest promotions, newest first: the i-th entry is the store's i-th most recent promotion, and there are Min(100, n) of them. All of them are the store's, and a store with at most 100 sees all of them |
| Promotions.EmojiTitleAccepted | promotions.routes.ts:23 | A one-emoji title passes `.min(2)`, because it is two code units |
| Promotions.CreatedPromotionListedFirst | promotions.routes.ts:14-17 | A new promotion heads its store's listing, and other stores' listings are unchanged |
| Admin.InsertInQueue | admin.routes.ts:16 | Inserting into an ordered queue keeps it ordered and adds exactly the one promotion |
| Admin.SortQueue | admin.routes.ts:16 | Status ascending, then priority descending, then newest first, as a permutation |
| Admin.ListForAdmin | admin.routes.ts:14-32 | min(200, all) promotions in queue order, drawn from the table, all of them when there are at most 200 |
| Admin.ListForAdminTop | admin.routes.ts:15-18 | Every promotion left out may be ordered after every promotion shown |
| Admin.PromotionIndex | admin.routes.ts:43 | The promotion with the id, or the length when there is none |
| Admin.ReasonFor | admin.routes.ts:51 | A REJECTED decision records the given reason or "No reason provided"; other decisions record none |
| Admin.Decide | admin.routes.ts:39-56 | PENDING is a validation failure; an unknown id is 404 "Promotion not found", both with no change. It succeeds iff neither holds, overwriting status, approver and reason whatever the current status, and answering the id and new status |
| Admin.DecisionEffect | admin.routes.ts:46-53 | Afterwards the record has the decided status (never PENDING), the admin and the reason; every other promotion is as before |
| Admin.DecisionOverwrites | admin.routes.ts:46-53 | A second decision on the same promotion gives the same result as if the first had not happened |
| Admin.DecisionIdempotent | admin.routes.ts:46-53 | Repeating a decision changes nothing |
| Model.Newest | tenant.routes.ts:126-128 | `orderBy createdAt desc, take n`: min(n, all) rows, position i holding the row i places from the newest; only rows of the table, and every row when there are at most n |
| Model.FindStore | checkout.routes.ts:36-38 | The store with the id, or none when no store has it |

## Left out

- Token verification (signature, expiry and parsing of `sub` as a BigInt) is the oracle `verify`.
- Decimal id strings are taken as already parsed. `BigInt` of a non-numeric string throws, and the answer would be 500.
- Prices, fees and promotion amounts are integer minor units, so float sums and `toFixed` are not modelled. Checkout and the cart view add subtotals with `Number` arithmetic.
- Tenant.CreateProduct: the base-price pattern is modelled as "a non-negative amount". The decimal string itself is not kept.
- Tenant.CreateVariant: the price override is an unvalidated string in the source. A string the database cannot read as a decimal fails there with 500. The model takes an amount.
- Tenant.UpsertStaffRequest: zod's email syntax is the oracle `isEmail`.
- Ids come from one counter, `Db.nextId`, shared by every table. The database has one sequence per table, so an id here is not the id the database would assign. A failed checkout transaction gives its order ids back here, but a database sequence keeps them consumed. No contract compares ids across tables or relies on ids being gap-free.
- Foreign keys, for example a section or store id that does not exist, or a stored variant id 0. Such a violation fails in the database with 500. The model lets the create through.
- The (store, user) uniqueness of staff links and the uniqueness of user ids are database constraints. The lemmas that need them take them as preconditions (`UniqueLinks`, `UniqueUserIds`). The (store, name) key of sections, which the seed script upserts by, is modelled in Tenant.CreateSection. Other unique keys of the database schema are not known here, because the schema is not part of this model.
- Checkout.CheckoutRequest: the fee record is keyed by store id. The source keys it by the decimal string of the id, so a key such as `01` never matches.
- `createdAt` order is modelled as creation order, that is id order. Rows with equal timestamps are not modelled.
- Admin.SortQueue: the status order assumes the database enum is declared PENDING, ACTIVE, REJECTED, STOPPED. The schema is not part of this model.
- Response JSON shapes and string conversions are left out: names and slugs joined from other tables, `createdAt`, `toString`.
- Concurrency between requests and transaction isolation are left out. Each request is one atomic step.
- The catalog router, auth.routes.ts, seed.ts, server.ts, routes.ts and env.ts are not part of this model.
- Basics.ValidationFailed: asyncHandler is assumed to forward the ZodError unchanged, so every schema failure reaches the error middleware as a non-HttpError and is answered 500. utils/asyncHandler.js is not part of this model. If it mapped zod errors to 400 with details, every `ValidationFailed` in Cart.AddToCart, Tenant.CreateSection, Tenant.CreateProduct, Tenant.CreateVariant, Tenant.UpsertStaffRequest, Promotions.CreatePromotion, Admin.Decide and Checkout.CheckoutRequest would be that 400 instead.
- Cart.SortByStore: groups are ordered by ascending store id. `Object.values` gives that order only for keys that are array indices, that is ids up to 2^32 − 2. Larger ids come after all of those, in insertion order, and that second tier is not modelled.
- Cart.ViewCartGroups: its group order is that of Cart.SortByStore, so it holds only for store ids up to 2^32 − 2.
- Cart.AddToCart: as in the source, a variant's `status` is not consulted, so a disabled variant can be added.

## Findings

| source | as written | input that shows it | evidently intended | confidence | as-written member | corrected member |
|---|---|---|---|---|---|---|
| checkout.routes.ts:155-163 | Each line is checked against, and its decrement computed from, the stock loaded before the transaction, so two lines of one variant both pass and the last write wins | stock 5; the same variant added twice with quantity 3; checkout succeeds and leaves 2 although 6 are ordered | check and decrement against the transaction's current stock, so the cart is refused when the variant's total demand exceeds its stock | not executed | Stock.SnapshotOversells | Stock.CorrectedCheckoutStock |
