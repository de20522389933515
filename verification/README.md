# A verified model of a Laravel shop's store logic

This project models the business rules of a small Laravel e-commerce shop in
Dafny. It covers:

- the shopping cart of a signed-in user or an anonymous session;
- checkout, which prices the cart, records the order with a snapshot of every
  product and decrements stock in one all-or-nothing step;
- the customer's address book, with its single default address;
- the admin order list, status changes and deletion;
- the shop's product list and product page;
- the admin dashboard figures;
- the JSON shape the order pages read.

The model has no database. The products, orders and addresses tables are
finite maps, and the cart table is a sequence of rows in table order. Each
controller action is a pure function from a `State` to a `Result`. A refused
action returns a `Failure` and no new state, so it changes nothing. Who is
acting is an explicit `Scope`: `User(uid)` for a signed-in user, or
`Session(sid)` for an anonymous visitor. Pages that list rows (the shop,
the address book, the admin order list, the dashboard) take the table's rows
as a sequence.

Money is held in integer cents. Tax, and the totals that include it, are
exact rationals (`real`). The controller computes `subtotal * 0.08` and
does not round it; the `decimal:2` column's rounding to cents is not
modelled. A new cart row id,
a new address id and the generated order number are parameters, where the
database or `uniqid()` would supply them. A new row id must not already be
in use. An order number that is already taken makes the order insert fail,
and that is the transaction's rollback path.

Modules:

- `Common`: option, result, error, scope, PHP truthiness and substring
  match.
- `Sequences`: sums, filters, `limit`, pagination and a verified insertion
  sort over any total preorder.
- `Store`: the entities, the state and its invariants.
- `Cart`, `Checkout`, `AddressBook`, `AdminOrders`, `Catalog`, `Dashboard`
  and `OrderView`: one module per controller or resource.

Three details of the controllers that the model keeps:

- An unknown product id in an add-to-cart request is refused by the
  `exists:products,id` validation rule (`ValidationFailed`), before the
  controller's `findOrFail` runs.
- The controller computes the tax as `subtotal * 0.08`.
- The checkout's "unavailable product" refusal is one error for the whole
  cart (`ProductUnavailable`).

## Model

| member | source | states |
|---|---|---|
| `Store.ScopeLines` | app/Http/Controllers/CartController.php:18-24 | A scope sees exactly the rows whose `user_id` (signed in) or `session_id` (guest) is its own. |
| `Store.ParseStatus` | app/Http/Controllers/Admin/OrderController.php:37-43 | Exactly the five stored names parse to a status, and each parses back to its own name. |
| `Store.StatusNameRoundTrip` | app/Http/Controllers/Admin/OrderController.php:37-43 | Every status survives being stored and read back, and no two statuses share a stored name. |
| `Store.ScopeLinesDistinctProducts` | app/Http/Controllers/CartController.php:54-80 | Under the one-row-per-(owner, product) invariant, a scope's rows name each product at most once. |
| `Cart.Index` | app/Http/Controllers/CartController.php:14-35 | The cart page lists exactly the scope's rows. Its subtotal is Σ price × quantity over the scope's rows at current prices, and is never negative. |
| `Cart.ScopeSubtotal` | app/Http/Controllers/CartController.php:27-29 | Summing the scope's own rows gives the same subtotal as charging every row of the table to the scope or to nobody, and it is never negative. |
| `Cart.FindLine` | app/Http/Controllers/CartController.php:54-63 | The lookup finds a row the scope owns for the product, and finds none exactly when the scope has no such row. |
| `Cart.Add` | app/Http/Controllers/CartController.php:37-83 | Add to cart refuses, in this order: a quantity below 1 or an unknown product (`ValidationFailed`), an inactive product (`Unavailable`), a request above the stock (`InsufficientStock`). It never touches anything but the cart. |
| `Cart.AddSucceedsIff` | app/Http/Controllers/CartController.php:46-72 | Add succeeds exactly when the request is valid, the product is active, and the units already held plus those requested are within stock. One unit more than that is `InsufficientStock`. |
| `Cart.AddedCart` | app/Http/Controllers/CartController.php:65-80 | After a successful add, the row the lookup found has its quantity raised by the request. If there was none, a new row owned by the scope is appended. |
| `Cart.AddHeld` | app/Http/Controllers/CartController.php:65-79 | A successful add raises the scope's units of the product by the requested quantity. Every other product's count, in every scope, stays as it was. |
| `Cart.AddHeldOtherScopes` | app/Http/Controllers/CartController.php:65-79 | When every row has exactly one owner (user id or session id, as the add action creates them), a successful add leaves the same product's count in every other scope as it was, and every row still has one owner. |
| `Cart.AddMergesOrAppends` | app/Http/Controllers/CartController.php:65-80 | When the scope already has a row for the product, the table keeps its size. Otherwise one new row is appended, owned by the user (no session) or by the session (no user). |
| `Cart.AddSubtotal` | app/Http/Controllers/CartController.php:65-80 | A successful add raises the scope's subtotal by price × quantity. |
| `Cart.AddPreservesWellFormed` | app/Http/Controllers/CartController.php:54-80 | Add keeps every store invariant, in particular one row per (owner, product). |
| `Cart.Authorize` | app/Http/Controllers/CartController.php:111-122 | The ownership check passes exactly for rows in the caller's scope, and otherwise gives `Forbidden`. |
| `Cart.Update` | app/Http/Controllers/CartController.php:85-100 | A successful update changes only the quantity of the caller's targeted row. |
| `Cart.UpdateForbidden` | app/Http/Controllers/CartController.php:85-87 | An existing row outside the caller's scope cannot be updated. |
| `Cart.UpdateSetsQuantity` | app/Http/Controllers/CartController.php:89-97 | On the caller's own row: a quantity below 1 is `ValidationFailed`; a quantity above the stock is `InsufficientStock`; otherwise exactly that quantity is set. |
| `Cart.UpdateMissing` | app/Http/Controllers/CartController.php:85-106 | Updating or removing a row id that does not exist is `NotFound`. |
| `Cart.UpdatePreservesWellFormed` | app/Http/Controllers/CartController.php:97 | Update keeps every store invariant. |
| `Cart.UpdateSubtotal` | app/Http/Controllers/CartController.php:97 | Update moves the scope's subtotal by the change in that row's total. |
| `Cart.Destroy` | app/Http/Controllers/CartController.php:102-109 | A successful removal takes exactly one row out of the cart and changes nothing else. |
| `Cart.DestroyRemovesOnlyTarget` | app/Http/Controllers/CartController.php:102-109 | The owner's removal deletes exactly the row with that id and keeps the others in order. Anyone else's removal is `Forbidden`. |
| `Cart.DestroySubtotal` | app/Http/Controllers/CartController.php:106 | Removal lowers the scope's subtotal by that row's total. |
| `Cart.DestroyPreservesWellFormed` | app/Http/Controllers/CartController.php:106 | Removal keeps every store invariant. |
| `Checkout.Price` | app/Http/Controllers/CheckoutController.php:108-111 | total = subtotal + tax + shipping, and the total is never below the subtotal. |
| `Checkout.PricingExamples` | app/Http/Controllers/CheckoutController.php:108-111 | Concrete cases: a 100.00 subtotal gives 8.00 tax, free shipping and 108.00 in all. 99.99 still pays 10.00 shipping. 30.00 gives 2.40 tax and 42.40 in all. |
| `Checkout.ParsePaymentMethod` | app/Http/Controllers/CheckoutController.php:82 | A payment method is accepted exactly when it is credit_card, paypal or cash_on_delivery, and it reads back as that same name. |
| `Checkout.PaymentMethodRoundTrip` | app/Http/Controllers/CheckoutController.php:82 | Every payment method's stored name parses back to that payment method. |
| `Checkout.Summary` | app/Http/Controllers/CheckoutController.php:17-43 | The checkout page refuses an empty cart (`EmptyCart`) or an unavailable line (`ProductUnavailable`). Otherwise it prices the same subtotal as the cart page. It succeeds exactly when the cart is non-empty and every line is available. |
| `Checkout.PlaceOrder` | app/Http/Controllers/CheckoutController.php:59-106 | Placement refuses, in this order: an invalid request, an empty cart, a line whose product is inactive or short of stock. A taken order number fails. A failure carries no new state, so cart, stock and orders stay as they were. Placement succeeds exactly when the request is valid, the cart is non-empty, every line is available and the number is free. |
| `Checkout.PlaceOrderCreatesOrder` | app/Http/Controllers/CheckoutController.php:116-129 | The new order is pending and belongs to the caller, with the submitted addresses, payment method, guest email and notes. Its subtotal is the cart subtotal, tax is 8% of it, shipping is free from 100.00 and 10.00 below, and the total is their sum. It is the only order added, and its figures equal the checkout page's. |
| `Checkout.PlaceOrderItems` | app/Http/Controllers/CheckoutController.php:131-145 | One item per cart line, in cart order, with the same product and quantity, the current price, total = price × quantity, and a snapshot of name, slug, description, price and image. The item totals add up to the subtotal. |
| `Checkout.ItemsTotal` | app/Http/Controllers/CheckoutController.php:137 | The items' totals add up to the lines' price × quantity. |
| `Checkout.DecrementAllStock` | app/Http/Controllers/CheckoutController.php:147 | Decrementing line by line takes each product's units across the lines off its stock and changes nothing else. |
| `Checkout.QtyOfDistinct` | app/Http/Controllers/CheckoutController.php:147 | When each product is on at most one line, a product's units across the lines are that line's quantity, or none. |
| `Checkout.DecrementDistinct` | app/Http/Controllers/CheckoutController.php:147 | For lines naming distinct available products, each product's stock drops by its line's quantity, other products are untouched, and no stock goes negative. |
| `Checkout.PlaceOrderStock` | app/Http/Controllers/CheckoutController.php:147 | After placement each bought product's stock is lower by exactly its line quantity, other products are unchanged, and every stock is still ≥ 0. |
| `Checkout.PlaceOrderClearsCart` | app/Http/Controllers/CheckoutController.php:148 | After placement the scope's cart is empty, and every other scope's rows are exactly as before. |
| `Checkout.PlaceOrderPreservesWellFormed` | app/Http/Controllers/CheckoutController.php:113-151 | Placement keeps every store invariant. |
| `Checkout.PlaceOrderKeepsTotals` | app/Http/Controllers/CheckoutController.php:108-129 | If every stored order's total is subtotal + tax + shipping, that still holds after placement. |
| `AddressBook.ParseAddressType` | app/Http/Controllers/AddressController.php:29 | An address type is accepted exactly when it is shipping, billing or both, and it parses to the type stored under that same name. |
| `AddressBook.AddressTypeRoundTrip` | app/Http/Controllers/AddressController.php:29 | Every address type's stored name parses back to that type. |
| `AddressBook.ClearDefaults` | app/Http/Controllers/AddressController.php:45 | After clearing, none of the user's addresses is default. Other users' addresses and all other fields are untouched. |
| `AddressBook.Create` | app/Http/Controllers/AddressController.php:26-51 | Create refuses invalid input (`ValidationFailed`). Valid input always succeeds. It adds exactly one address and changes no other table. |
| `AddressBook.CreateDefault` | app/Http/Controllers/AddressController.php:42-48 | The new address has the submitted type and fields and belongs to the user. A new default address is the user's only default, and the existing addresses change in nothing but the flag. A non-default address is added with `is_default` false and leaves every other entry as it was. |
| `AddressBook.CreateLeavesOthers` | app/Http/Controllers/AddressController.php:45 | Creating an address never changes another user's addresses. |
| `AddressBook.CreatePreservesWellFormed` | app/Http/Controllers/AddressController.php:44-48 | Create keeps at most one default per user. |
| `AddressBook.Update` | app/Http/Controllers/AddressController.php:53-80 | Update gives `NotFound` for a missing address, then `Forbidden` for another user's address, then `ValidationFailed`. The owner's valid edit always succeeds. Success changes only the address table and keeps its ids. |
| `AddressBook.UpdateDefault` | app/Http/Controllers/AddressController.php:73-77 | The updated address gets exactly the submitted fields and type. With `is_default` true it becomes the user's only default. Without `is_default` its flag stays. Other users' addresses never change, and the user's other addresses change in nothing but the flag. Without `is_default` true, no other address changes. |
| `AddressBook.UpdatePreservesWellFormed` | app/Http/Controllers/AddressController.php:73-77 | Update keeps at most one default per user. |
| `AddressBook.SaveDirty` | app/Http/Controllers/AddressController.php:77 | Saving a stale model writes every submitted field, but writes `is_default` only when it differs from the value the model was loaded with. |
| `AddressBook.UpdateAsWritten` | app/Http/Controllers/AddressController.php:53-80 | The update as written fails and succeeds exactly as the corrected one. The two differ only when `is_default` true is sent. |
| `AddressBook.UpdateAsWrittenDropsDefault` | app/Http/Controllers/AddressController.php:73-77 | Re-saving the current default with `is_default` true leaves the user with no default address, where the corrected update keeps it as the only one. |
| `AddressBook.Destroy` | app/Http/Controllers/AddressController.php:82-91 | Delete gives `NotFound` for a missing address and `Forbidden` for another user's. Otherwise it removes exactly that address. |
| `AddressBook.DestroyPreservesWellFormed` | app/Http/Controllers/AddressController.php:88 | Delete keeps at most one default per user. |
| `AddressBook.DefaultsFirstNewestIsTotalPreorder` | app/Http/Controllers/AddressController.php:17-18 | "Default first, then newest" is a total preorder, so the list can be sorted by it. |
| `AddressBook.Index` | app/Http/Controllers/AddressController.php:13-24 | The address list is a permutation of the user's addresses. Defaults come first, then newest first. |
| `AdminOrders.StatusLabelsAreTheStatuses` | app/Http/Controllers/Admin/OrderController.php:37-43 | The label map's keys are exactly the five status names. |
| `AdminOrders.UpdateStatus` | app/Http/Controllers/Admin/OrderController.php:63-73 | The status becomes the requested one. The notes are replaced when given and kept when null or absent. Every other order, and everything else about this one, is unchanged. |
| `AdminOrders.AnyTransition` | app/Http/Controllers/Admin/OrderController.php:67-70 | Any status can be set from any status, with no transition guard. |
| `AdminOrders.UpdateStatusKeepsTotals` | app/Http/Controllers/Admin/OrderController.php:67-70 | A status change keeps every order's total = subtotal + tax + shipping. |
| `AdminOrders.UpdateStatusPreservesWellFormed` | app/Http/Controllers/Admin/OrderController.php:67-70 | A status change keeps every store invariant. |
| `AdminOrders.Destroy` | app/Http/Controllers/Admin/OrderController.php:75-84 | Deletion succeeds exactly for a cancelled order and removes only it. Any other status is `NotCancellable`, and the order stays. |
| `AdminOrders.DestroyPreservesWellFormed` | app/Http/Controllers/Admin/OrderController.php:81 | Deletion keeps every store invariant. |
| `AdminOrders.Matching` | app/Http/Controllers/Admin/OrderController.php:16-30 | The unpaged list is a permutation of the orders that match the search and status filters, newest first. |
| `AdminOrders.Index` | app/Http/Controllers/Admin/OrderController.php:14-32 | A page has at most 20 orders, newest first. With a status filter every listed order has that status. With a search every listed order matches it. |
| `AdminOrders.IndexComplete` | app/Http/Controllers/Admin/OrderController.php:31 | Every matching order is on some page. |
| `AdminOrders.UnfilteredListsAll` | app/Http/Controllers/Admin/OrderController.php:19-29 | With no search and no status filter, every order is listed. |
| `AdminOrders.ListedAsWrittenDiffers` | app/Http/Controllers/Admin/OrderController.php:19-29 | The query as written agrees with the intended filter when at most one filter is set. With both set, it lists an order of another status whose number matches. |
| `Catalog.ParseSort` | app/Http/Controllers/Shop/ProductController.php:33-41 | price_asc, price_desc and name select their orders, and anything else means newest first. |
| `Catalog.LexLeqTotal` | app/Http/Controllers/Shop/ProductController.php:38 | Any two names are comparable in the name order. |
| `Catalog.LexLeqTransitive` | app/Http/Controllers/Shop/ProductController.php:38 | The name order is transitive. |
| `Catalog.LexLeqAntisymmetric` | app/Http/Controllers/Shop/ProductController.php:38 | Two names that each sort no later than the other are equal. |
| `Catalog.PrecedesIsTotalPreorder` | app/Http/Controllers/Shop/ProductController.php:33-41 | All four product orders are total preorders. |
| `Catalog.Matching` | app/Http/Controllers/Shop/ProductController.php:15-41 | The unpaged list is a permutation of the active products that pass the category and search filters, sorted by the requested order. |
| `Catalog.Index` | app/Http/Controllers/Shop/ProductController.php:15-43 | A page has at most 12 products, all active, all in the requested category and matching the search. Prices are non-decreasing for price_asc and non-increasing for price_desc, names ascend for name, and products are newest first otherwise. |
| `Catalog.IndexComplete` | app/Http/Controllers/Shop/ProductController.php:43 | Every listed product is on some page. |
| `Catalog.NameSortStrict` | app/Http/Controllers/Shop/ProductController.php:37-43 | Under the name sort, a product is never listed after one whose name sorts strictly later; names out of order on a page are equal. |
| `Catalog.InactiveNeverListed` | app/Http/Controllers/Shop/ProductController.php:17 | An inactive product is never listed, whatever the query. |
| `Catalog.FindBySlug` | app/Http/Controllers/Shop/ProductController.php:62-66 | Finds the first active product with the slug, and finds none exactly when there is no such product. |
| `Catalog.Related` | app/Http/Controllers/Shop/ProductController.php:68-73 | At most four related products, each active, in the same category and not the product itself. They are the first such products in table order. |
| `Catalog.RelatedFillsUp` | app/Http/Controllers/Shop/ProductController.php:72 | With at least four candidates, four are shown. With fewer, all of them are. |
| `Catalog.Show` | app/Http/Controllers/Shop/ProductController.php:60-79 | The product page is `NotFound` exactly when no active product has the slug. Otherwise it shows such a product, and its related list is exactly `Related`: at most four other active products of the same category. |
| `Catalog.ShowFindsTheProduct` | app/Http/Controllers/Shop/ProductController.php:62-66 | When only one active product has a slug, that slug's page shows that product. |
| `Dashboard.ActiveCount` | app/Http/Controllers/Admin/DashboardController.php:17 | At most every product is active, and the count is all of them exactly when every product is active. |
| `Dashboard.LowStockCount` | app/Http/Controllers/Admin/DashboardController.php:18 | The low-stock count is 0 exactly when every product has more than 10 in stock. |
| `Dashboard.PendingCount` | app/Http/Controllers/Admin/DashboardController.php:20 | The pending count is 0 exactly when no order is pending. |
| `Dashboard.CustomerCount` | app/Http/Controllers/Admin/DashboardController.php:22 | The customer count is 0 exactly when no user has the customer role. |
| `Dashboard.ComputeStats` | app/Http/Controllers/Admin/DashboardController.php:15-23 | active ≤ total products, low-stock ≤ total products, pending ≤ total orders, customers ≤ users. Active equals total exactly when every product is active. Pending is 0 exactly when no order is pending, low-stock is 0 exactly when every product has more than 10 in stock, and customers is 0 exactly when no user is a customer. The revenue is `Revenue` of the orders, the figure `RevenueSplit`, `PlacingAnOrder` and `CancellingAnOrder` describe. |
| `Dashboard.EmptyStats` | app/Http/Controllers/Admin/DashboardController.php:15-23 | An empty store's figures are all zero. |
| `Dashboard.AddingAProduct` | app/Http/Controllers/Admin/DashboardController.php:16-18 | One more product adds one to the total, one to the active count when it is active and one to the low-stock count when its stock is 10 or less; every other figure stays. |
| `Dashboard.AddingAnOrder` | app/Http/Controllers/Admin/DashboardController.php:19-21 | One more order adds one to the total, one to the pending count when it is pending, and its total to revenue unless it is cancelled; every other figure stays. |
| `Dashboard.AddingAUser` | app/Http/Controllers/Admin/DashboardController.php:22 | One more user adds one customer exactly when the role is customer; every other figure stays. |
| `Dashboard.TotalOfAppend` | app/Http/Controllers/Admin/DashboardController.php:21 | The sum of totals over two runs of orders is the sum of their sums. |
| `Dashboard.TotalOfNonNegative` | app/Http/Controllers/Admin/DashboardController.php:21 | Orders whose figures add up sum to a non-negative total. |
| `Dashboard.RevenueSingle` | app/Http/Controllers/Admin/DashboardController.php:21 | One order contributes its total to revenue, or nothing if it is cancelled. |
| `Dashboard.RevenueSplit` | app/Http/Controllers/Admin/DashboardController.php:21 | Revenue is additive around any one order, which counts unless it is cancelled. |
| `Dashboard.PlacingAnOrder` | app/Http/Controllers/Admin/DashboardController.php:19-21 | A new pending order adds one to total and pending orders and its total to revenue. The other figures stay the same. |
| `Dashboard.CancellingAnOrder` | app/Http/Controllers/Admin/DashboardController.php:21 | Cancelling an order takes exactly its total out of revenue. |
| `Dashboard.RevenueNonNegative` | app/Http/Controllers/Admin/DashboardController.php:21 | Revenue is never negative when every order's figures add up. |
| `Dashboard.RecentOrders` | app/Http/Controllers/Admin/DashboardController.php:25-28 | At most five orders, five when there are five, newest first. No order left out is newer than one listed. |
| `Dashboard.LowStock` | app/Http/Controllers/Admin/DashboardController.php:30-33 | At most five products, all with stock ≤ 10, in ascending stock. A low-stock product is left out only when five are listed, and each of those has no more stock than it. |
| `OrderView.Lookup` | app/Http/Resources/OrderResource.php:54 | A missing key and a null value both read as null. |
| `OrderView.TransformAddress` | app/Http/Resources/OrderResource.php:47-61 | A null or empty address gives null. Otherwise the result has exactly the six keys. line_1, line_2 and postal_code take the first present of their two source keys, else null. city, state and country are copied or null. |
| `OrderView.StoredAddress` | app/Http/Controllers/CheckoutController.php:61-70 | The address checkout stores has exactly the nine validated keys. |
| `OrderView.CheckoutAddressRoundTrip` | app/Http/Resources/OrderResource.php:53-60 | An address placed at checkout comes back with street, city, state, postal code and country intact. Name and phone are dropped. |
| `OrderView.AlternateKeys` | app/Http/Resources/OrderResource.php:54-58 | An address stored under line_1 / postal_code maps to the same keys, with the absent ones null. |
| `OrderView.ToArray` | app/Http/Resources/OrderResource.php:15-45 | The `user` entry is present exactly when `user_id` is set and non-zero. It holds the user's id, name and email, or nulls when the user is gone. Number, amounts, guest email and notes are copied. items_count defaults to 0. |
| `OrderView.ToArrayFaithful` | app/Http/Resources/OrderResource.php:28-35 | The rendered status and payment method parse back to the order's own values. Both addresses render as their two street lines, city, state, postal code and country. |

## Left out

- Persistence, query building, eager loading, Inertia rendering, redirects and flash messages. Tables are maps and sequences. A refusal is an `Error` value, not a message.
- Pagination links and query strings. Only the page's contents are modelled, and a page number below 1 counts as page 1.
- Authentication, roles and the `auth` middleware on checkout (routes/web.php:26-32). Checkout still handles a `Session` scope, as the controller does.
- Order number generation with `uniqid()`. The number is a parameter. A number already taken is the failed insert, which rolls back everything.
- PHP floats and `decimal:2` storage. Money is integer cents and tax is an exact rational, so no rounding happens anywhere.
- The float casts of the order resource's amounts, its `id`, `created_at` and `updated_at` keys, and its `items` entry. OrderItemResource is not part of this model.
- SQL `LIKE` collation. Search is exact, case-sensitive substring containment, and the name sort compares character codes.
- Validation beyond `required`, `max`, `in`, `min:1` and the guest email's presence. The email format rule is not modelled, and strings are taken as already trimmed.
- UpdateOrderStatusRequest is not part of this model. The admin status update takes an already-validated status.
- The admin order `show` action is not modelled separately. It only loads an order and renders `OrderView.ToArray`.
- The checkout page's list of saved addresses, which is the same query as the address book.
- The snapshot's `image_url` reads the product's `image_url`, but app/Models/Product.php declares only `primary_image` and `images`. The model keeps an optional image string and does not model how the attribute is resolved.
- Ties in every `orderBy` are unordered in SQL. The model fixes one order (the insertion sort's) and proves only what the query promises.
- Concurrency: two checkouts racing on the same stock are outside a sequential model.
- A cart row whose product row is missing. The foreign key makes it unreachable; the model answers `NotFound` in `Cart.Update` and `ProductUnavailable` at checkout, where the controller would fail on a null `$item->product`.
- `Dashboard.ComputeStats`: its own contract bounds the counts and fixes their zero and all cases. Their exact values follow by induction from `EmptyStats` with `AddingAProduct`, `AddingAnOrder` and `AddingAUser`, which keeps each proof small.
- Laravel's middleware that turns empty request strings into null. An empty field is to be passed as `None`, as the controller would see it. Passed as `Some("")`, the admin's notes would be overwritten, where the application keeps the old notes.
- `Catalog.Related`: `limit(4)` has no `orderBy`, so SQL may return any four candidates. The model picks the first four in table order.
- `Catalog.Show`: slugs are not assumed unique, so the page shows the first active product with the slug in table order.

## Findings

| source | as written | input that shows it | evidently intended | confidence | as-written member | corrected member |
|---|---|---|---|---|---|---|
| app/Http/Controllers/Admin/OrderController.php:19-29 | The search closure adds its three `where`/`orWhere` conditions to the outer query without grouping them. With a status filter the SQL is `number LIKE q OR user matches OR (guest_email LIKE q AND status = s)`. | Search "ORD" with status "pending" lists a shipped order numbered "ORD-1". | `(number OR user OR guest_email) AND status`, with every listed order having the status. | not executed; high, this is how a `when` closure adds conditions to its query | `AdminOrders.ListedAsWritten`, exhibited by `AdminOrders.ListedAsWrittenDiffers` | `AdminOrders.Listed`, proved in `AdminOrders.Index` |
| app/Http/Controllers/AddressController.php:73-77 | The mass update clears the user's defaults in the table. Then `$address->update(...)` saves the model loaded before that update, and Eloquent writes only changed attributes. | An address that is already the default is updated with `is_default` true. The model's flag was already true, so nothing rewrites the cleared row, and the user has no default. | The updated address is the user's only default. | not executed; medium, this needs `is_default` cast to boolean, and app/Models/Address.php is not part of this model | `AddressBook.UpdateAsWritten`, exhibited by `AddressBook.UpdateAsWrittenDropsDefault` | `AddressBook.Update`, proved in `AddressBook.UpdateDefault` |
