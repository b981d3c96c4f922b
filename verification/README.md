# Storefront cart and checkout, modelled in Dafny

This project models the cart and checkout core of a small Flask storefront.
The store's database is one object, `Models.Store`, with five tables:
- users, as a sequence, where a user's id is its position;
- catalog items, as a map from item id to `Item`;
- one cart per user, as a map from user id to a sequence of `(item, quantity)` lines;
- orders, as a sequence holding each order's captured lines;
- the settings rows.

Each request handler is a method that changes the store as the handler does. It returns the outcome that the handler reports through a flash message, a JSON body or an HTTP error.

The modules follow the source files:

- `Base`: `Option` and the three shapes a numeric form field can take (absent, a number, not a number), with the strict (`int(...)`) and lenient (`type=int`) ways the handlers read one.
- `Models` (app/models.py): the records, the column defaults, the store invariant (unique e-mails, unique barcodes, each cart owned by an existing user with at most one line per item and quantities of at least 1) and `StoreSettings.get_settings`.
- `CartLines`: the three ways handlers change a cart's lines. They increment or create the line of an item, overwrite one line's quantity, or delete one line. Lookups follow `.first()`. The module also defines the holding of an item summed over all lines, which `update_cart` computes.
- `Ordering`: the `checkout` loop. `Drain` is the walk over the cart lines as a function: it decrements stock and stops at the first line whose stock goes negative. `CheckoutOf` is the handler's outcome. `WalkLines` is the loop itself, proved equal to `Drain`, and `PlaceOrder` is the handler up to the commit, proved equal to `CheckoutOf`.
- `Views` (app/views.py): `add_to_cart`, `update_cart`, `remove_from_cart`, the cart page total, `checkout`, the lookup-and-add branch of `scan_barcode`, and `allowed_file`.
- `AdminRoutes` (app/admin/routes.py): `new_item`, `edit_item`, `delete_item`, `update_order_status` and the dashboard's recent orders.
- `Auth` (app/auth.py): the ordered sign-up checks with user insertion, and login by e-mail.

Prices are integers in the smallest currency unit.

The model follows the code where it behaves in ways that are easy to "correct" by accident:
- A per-customer cap of 0 counts as "no cap", because the check is a truthiness test.
- Checkout never re-checks the cap.
- `update_cart` accepts up to stock plus the line's current quantity.
- An AJAX clamp reports the adjusted quantity and writes nothing.
- A barcode scan adds one unit with no cap or stock check.
- `add_to_cart` creates the empty cart before its cap and stock checks, so a refused add still leaves a cart behind.
- `update_cart` reads its quantity leniently: a malformed value counts as 1.
- `update_cart` refuses quantities below 1. It never deletes the line at 0.
- `remove_from_cart` reports "not found" for an item that is not in the cart.
- `edit_item` stores any integer stock, negative ones included. So non-negative stock is not an invariant of the store.
- `new_item` stores the empty string as the barcode when none is given. Under the unique constraint, a second item without a barcode therefore fails to commit and is rolled back.
- `delete_item` leaves cart lines that name the deleted item in place. A later handler that reads such a line's item (the cart page, `update_cart`, `checkout`) raises. The model reports this as an outcome that changes nothing.
- `login` does not compare the password: the hash check is commented out.
- The admin handlers have no access guard. `admin_required` is defined in app/admin/__init__.py but applied to no route, and no admin route carries `login_required`, so any visitor can call them. The admin methods accordingly take no user.
- A form field missing from a sign-up request is `None`. The handler raises when it takes the length of a missing field.

## Model

| member | source | states |
|---|---|---|
| Base.ParseStrict | app/views.py:67-73 | `int(form.get(k, d))`: an absent field gives the default, a number gives itself, and the result is None exactly when the text is not numeric |
| Base.ParseLenient | app/views.py:156 | `form.get(k, d, type=int)`: a number gives itself; absent and malformed values both give the default |
| Models.EnsureSettings | app/models.py:76-82 | the settings table after `get_settings`: always at least one row; an existing table is unchanged; an empty one gets exactly the default row |
| Models.EnsureSettingsIdempotent | app/models.py:76-82 | a second `get_settings` inserts nothing more: at most one row is ever created |
| Models.Store.GetSettings | app/models.py:75-82 | returns the first row, inserting the default row only into an empty table; no other table changes |
| Models.CartsOwnedUpdate | app/models.py:12 | replacing one existing user's cart by a well-formed one keeps every cart owned and well formed (one cart per user) |
| Models.Store.SetCart | app/views.py:124-136 | committing one existing user's cart lines: the store invariant holds afterwards, that cart alone changes, no other table changes |
| Models.BarcodeOwner | app/models.py:23 | under the unique constraint, at most one item carries a given barcode |
| CartLines.FindLine | app/views.py:80-84 | the first line of the item, when there is one; None exactly when no line holds the item |
| CartLines.FindLineAt | app/views.py:80-84 | a line of the item with no earlier line of it is the one `.first()` returns |
| CartLines.Held | app/views.py:87 | `cart_item.quantity if cart_item else 0`: a non-zero holding means the item has a line; in a well-formed cart it is never negative |
| CartLines.QuantityOf | app/views.py:177-181 | `sum(ci.quantity ... if ci.item_id == item_id)`: non-negative when every line's quantity is |
| CartLines.FindLineKept | app/views.py:201-202 | rewriting a line's quantity keeps the line `.first()` finds |
| CartLines.QuantityOfConcat | app/views.py:177-181 | the per-item sum over a cart splits over concatenation |
| CartLines.QuantityOfAbsent | app/views.py:177-181 | an item with no line sums to 0 |
| CartLines.QuantityOfAround | app/views.py:177-181 | the per-item sum splits around any one line |
| CartLines.HeldIsWholeHolding | app/views.py:177-184 | in a well-formed cart the line found is the item's whole holding, so `update_cart`'s sum equals that line's quantity |
| CartLines.QuantityOfReplace | app/views.py:201-202 | replacing one line changes each item's sum by exactly that line's difference |
| CartLines.QuantityOfAppend | app/views.py:128-134 | appending a line adds its quantity to its own item's sum only |
| CartLines.QuantityOfRemove | app/views.py:216-221 | deleting one line subtracts its quantity from its own item's sum only |
| CartLines.Increment | app/views.py:124-134 | `+= n` on the item's line or a new line of `n`: the line grows by exactly `n`, the item's holding grows by `n`, other lines and holdings are unchanged, well-formedness is kept for `n >= 1` |
| CartLines.SetQuantity | app/views.py:201-202 | `cart_item.quantity = q`: that line alone changes, the item's holding moves by `q` minus the old quantity, the line found now holds `q`, well-formedness is kept for `q >= 1` |
| CartLines.RemoveAt | app/views.py:216-221 | deleting one line: the others keep their order, only that item's holding drops, and in a well-formed cart the item no longer has a line |
| Ordering.ResolvedPrefix | app/views.py:253 | a prefix of a cart whose items all exist also has all its items |
| Ordering.Total | app/views.py:237 | `sum(price * quantity)` over the lines at current prices: non-negative when prices and quantities are |
| Ordering.Capture | app/views.py:259-268 | one order line per cart line, with the line's quantity and the item's current price |
| Ordering.TotalMatchesOrderLines | app/views.py:253-268 | the total stored on the order equals the sum over the order lines written with it |
| Ordering.Drain | app/views.py:259-275 | the decrement walk either stops at one of the cart's lines or ends with the same item ids |
| Ordering.DrainStock | app/views.py:270-271 | after a full walk each item has lost exactly its holding summed over the cart |
| Ordering.DrainLeavesTouchedNonNegative | app/views.py:270-275 | after a full walk every item the cart touched has stock >= 0 |
| Ordering.DrainShortIffOversold | app/views.py:270-275 | the walk rolls back exactly when some item's holding summed over the cart exceeds its stock |
| Ordering.DrainShortPersists | app/views.py:272-275 | once the walk has rolled back, later lines do not matter |
| Ordering.FailsAtPrefix | app/views.py:261-275 | whether a line fails depends only on the lines up to it |
| Ordering.DrainLastLine | app/views.py:270-275 | once the earlier lines are debited, the last line rolls the walk back exactly when the item's running quantity exceeds its stock, and the refusal names that line |
| Ordering.DrainStopsAtFirstFailure | app/views.py:261-275 | the walk rolls back at the first line where the item's running quantity up to that line exceeds its stock, and completes exactly when no line does |
| Ordering.FirstFailureUnique | app/views.py:261-275 | only one line can be the first failing line |
| Ordering.DrainStopsAlike | app/views.py:261-275 | the walk reads stocks only: two item tables with the same stocks either both refuse at the same line or both complete leaving the same stocks |
| Ordering.CheckoutOf | app/views.py:245-282 | the handler's outcome: empty cart iff no lines; a deleted item iff some line names one; a stock refusal names the item of the first line whose running decrement drives its stock negative; a committed order is the user's, has status Processing, one line per cart line and a total equal to its lines' sum, and keeps the item ids |
| Ordering.CheckoutCommitsIff | app/views.py:248-275 | checkout commits iff the cart has lines, all its items exist and no item is held beyond its stock; otherwise "not enough stock" iff some item is |
| Ordering.CheckoutCommitEffects | app/views.py:252-279 | a committed checkout writes one order for the user, status Processing, one line per cart line at the current price, total = sum of those lines, each stock lowered by its holding and still >= 0, nothing else of any item changed |
| Ordering.CaptureReadsPriceOnly | app/views.py:253-268 | the order lines and total depend only on the items' prices |
| Ordering.CheckoutIgnoresCap | app/views.py:245-282 | changing an item's per-customer cap changes neither whether checkout commits or is refused for stock, nor the item a refusal names, nor the order, nor the stocks left |
| Ordering.DrainKeepsOtherFields | app/views.py:270-271 | the walk changes only the items' stock |
| Ordering.DrainStep | app/views.py:259-275 | one more line of the walk decrements its item and stops there exactly when the stock went negative |
| Ordering.CaptureStep | app/views.py:259-268 | one more line of the walk appends its order line |
| Ordering.WalkLines | app/views.py:259-275 | the handler's loop, with decrement then check per line, gives exactly `Drain`: new stocks and the captured order lines, or a stop at the first line whose item went negative |
| Ordering.PlaceOrder | app/views.py:248-279 | the handler up to the commit gives exactly `CheckoutOf`: empty cart, deleted item, rollback at the first line short of stock, or the order with the new stocks |
| Views.Lower | app/views.py:20 | ASCII lowering for `.lower()`: same length, A-Z mapped to a-z, every other character kept |
| Views.LastDot | app/views.py:20 | where `rsplit('.', 1)` cuts: None iff no dot, else a dot with no dot after it |
| Views.AllowedFile | app/views.py:19-20 | an accepted name contains a dot |
| Views.LastDotUnique | app/views.py:20 | only one dot has no dot after it |
| Views.AllowedFileAt | app/views.py:20 | any dot with no dot after it is where `rsplit('.', 1)` cuts, so acceptance is decided by the text after it |
| Views.AllowedFileIff | app/views.py:19-20 | accepted iff the name has a dot and the lower-cased text after the last dot is png, jpg, jpeg or gif |
| Views.CapApplies | app/views.py:90 | the truthiness test `if item.max_per_customer`: no cap exactly when it is None or 0 |
| Views.AddAllowance | app/views.py:86-122 | the add decision in closed form: refused for the cap iff a cap applies and is already reached, reporting that cap; non-AJAX refused for stock iff not capped and the stock is already held; AJAX: cap clamp iff a cap applies with room below the request, otherwise out of stock iff the stock is already held, stock clamp iff the stock leaves room below the request, added iff the stock covers the request; an add is at least 1, at most the request, within stock and cap, and maximal (reaches the request, the stock or the cap); AJAX clamps report an amount below the request that reaches the cap or the stock |
| Views.AddedWithinBounds | app/views.py:109-136 | after a successful non-AJAX add, the line has grown by at least 1, is within stock and the cap, and other items' holdings are unchanged |
| Views.DecideAdd | app/views.py:86-122 | the handler's sequential cap-then-stock clamps give exactly `AddAllowance` |
| Views.AddToCart | app/views.py:46-147 | 404, invalid and below-1 quantities change nothing; otherwise the cart exists afterwards and only an `Added(n)` outcome grows the item's line by `n`; items, orders and users unchanged |
| Views.AddValidated | app/views.py:75-136 | after the item and quantity checks: the outcome is `AddAllowance` of the cart's holding, the cart exists afterwards, and only `Added(n)` grows the item's line by `n` |
| Views.UpdateCart | app/views.py:149-205 | each refusal (no cart, below 1, not in cart, item deleted, over the cap with `max_additional`, over stock + line) changes nothing; success sets exactly that line to the quantity and keeps the holding within the cap |
| Views.UpdateCapCheckIsLineCheck | app/views.py:177-187 | in a well-formed cart the other holdings of the item sum to 0 |
| Views.RemoveFromCart | app/views.py:207-226 | the matching line is deleted and the item leaves the cart; no cart or no line reports failure and changes nothing |
| Views.ViewCart | app/views.py:228-243 | the cart is created if missing; the total is the sum of price × quantity at current prices, or a failure when a line names a deleted item |
| Views.Checkout | app/views.py:245-282 | the store changes only on a commit, which appends the order, installs the decremented stocks and empties the cart; otherwise nothing changes |
| Views.LookupBarcode | app/views.py:332 | a found item carries the code; None iff no item carries it |
| Views.AddOne | app/views.py:333-353 | the cart is created if missing and the item's line grows by exactly 1 (or a line of 1 is added); no other table changes |
| Views.ScanBarcode | app/views.py:329-360 | an unknown code changes nothing; a known code names the only item with it, and that item's line grows by exactly 1 with no cap or stock check |
| AdminRoutes.NewRow | app/admin/routes.py:32-60 | the inserted row: description and barcode default to the empty string, no cap |
| AdminRoutes.NewItem | app/admin/routes.py:29-69 | a malformed price or stock fails first; the item is inserted iff name is given, the barcode (empty string by default) is not taken and the stock fits a 64-bit INTEGER, with stock 0 when omitted; a failure leaves the catalog unchanged |
| AdminRoutes.Edit | app/admin/routes.py:76-80 | each submitted field replaces the stored one and each absent one keeps it; the per-customer cap is never changed |
| AdminRoutes.EditNothingIsIdentity | app/admin/routes.py:76-80 | an empty form leaves the item unchanged |
| AdminRoutes.EditIdempotent | app/admin/routes.py:76-80 | submitting the same form twice is the same as once |
| AdminRoutes.FieldOrKeep | app/admin/routes.py:77-79 | `ParseStrict` with the stored value as default, keeping whether the field was submitted: an omitted number keeps the stored value; a malformed one raises |
| AdminRoutes.EditItem | app/admin/routes.py:71-102 | 404 for a missing item; malformed numbers, a barcode held by another item or a stock beyond a 64-bit INTEGER change nothing; otherwise exactly that item gets each submitted field, negative stock included |
| AdminRoutes.DeleteItem | app/admin/routes.py:104-110 | exactly the named item is removed (404 when missing); carts and orders untouched |
| AdminRoutes.UpdateOrderStatus | app/admin/routes.py:124-136 | only Processing, Shipped, Delivered or Cancelled is stored, from any status; anything else, or a missing order, changes nothing |
| AdminRoutes.DefaultStatusListed | app/models.py:47 | the default status is one of the four accepted ones |
| AdminRoutes.Newest | app/admin/routes.py:13 | at most `limit` orders, newest first |
| AdminRoutes.NewestPrefix | app/admin/routes.py:13 | a shorter recent list is the head of a longer one |
| AdminRoutes.NewestAfterPlacing | app/admin/routes.py:13 | a newly placed order heads the recent list |
| AdminRoutes.Dashboard | app/admin/routes.py:9-19 | item and order counts, the five newest orders, and the settings row (created on first use) |
| Auth.FindUser | app/auth.py:15 | the first user with that e-mail; None iff there is none |
| Auth.FindUserUnique | app/models.py:8 | with unique e-mails the user found is the one with the address |
| Auth.SignupCheck | app/auth.py:35-45 | passes iff the e-mail is new and has at least 4 characters, the first name has at least 2, the passwords agree and have at least 7; each error implies that its rule failed and the earlier ones passed |
| Auth.SignupTwiceRefused | app/auth.py:35-37 | a registered e-mail is refused before any other rule |
| Auth.Signup | app/auth.py:27-58 | a refusal changes nothing; success appends a non-admin user with the hashed password, keeps e-mails unique and logs the new user in |
| Auth.Login | app/auth.py:9-25 | logs in the user with that e-mail whatever the password; an unknown or missing e-mail fails without touching the session |

## Left out

- Barcode image handling: the upload checks, the file save, image decoding and ZBar loading. The model starts from the decoded code string.
- Floating-point prices and totals, and `format_price`: prices are exact integers, with no rounding or display.
- Flask plumbing: routing, `flash`, `redirect`, `jsonify`, templates, CSRF and the login manager. Responses are outcome values, and the AJAX header is a boolean parameter.
- Password hashing: `Auth.Signup` takes the hash of `password1` as a parameter. `remember=True` and the `next` redirect of login are not modelled.
- Database ids and timestamps: the new item's id is a fresh-id parameter. Order recency is position in the order table, which ignores ties between timestamps. `image_url` and `date_added` are not modelled.
- CSV exports, the settings form, the item list pages, and the scripts under scripts/: these are not part of this model. app/admin.py is not part of this model either, because the package app/admin/ shadows it.
- The CartItem quantity default of 1: every write passes an explicit quantity, so the default is never used.
- Concurrency: each handler is one sequential step on the store. A rollback is "no change".
- Views.Lower: lowers only A-Z. Python's `str.lower()` lowers every cased letter and maps U+0130 to two characters; `Lower` keeps those as they are and always keeps the length.
- Views.AllowedFile: lowering covers only A-Z. No other character lowers to text that could complete png, jpg, jpeg or gif, so acceptance is the same as with full Unicode lowering.
- AdminRoutes.NewItem: the uploaded image is saved before the commit and is not modelled. When the save raises, nothing is stored, while the model reports `Created`.
- AdminRoutes.EditItem: the same holds for the image saved before the commit, where the model reports `Edited`.
- Views.UpdateCart: the 64-bit INTEGER bound on the new quantity is not modelled. The stock check lets through at most the stock plus the line's quantity, and only a sum beyond 2^63 - 1 would make the commit raise.
