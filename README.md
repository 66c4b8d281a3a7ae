# Campus canteen ordering: a verified model

This project models the core of a campus canteen ordering web app in Dafny. The app
is written in Next.js with TypeScript, and its data lives in SQLite through Drizzle.
Customers browse the menu, keep a cart, and place an order for pickup at one of three
counters. Staff list every order. The model covers these parts of the app:

- **The JSON API handlers.**
  - `GET`/`POST /api/menu` lists, finds and creates menu items.
  - `GET`/`POST /api/cart` shows a customer's cart and adds an item to it.
  - `GET`/`POST /api/orders` shows a customer's order history and places an order.
  - `GET /api/orders/all` is the staff listing. As written it always fails (see "## Findings"). The model states both that failure and the listing the handler builds once its import is corrected.
- **The store they write to.** It is four tables with auto-increment keys.
- **The client-side logic of three pages.**
  - The menu page filters by category tab and search box.
  - The cart page changes quantities, removes lines and shows the total.
  - The checkout page builds the order request, shows the total and clears the cart.

## Layout

Each module has one file:

| file | module | contents |
|---|---|---|
| api.dfy | `Api` | query-string parameters (`Param`: missing, malformed or a number), the error codes and their `code` strings |
| json.dfy | `Json` | JSON body fields (`Field`: `undefined`, `null`, a number or a string), JavaScript truthiness, and `parseInt`/`parseFloat` reading a leading number |
| text.dfy | `Text` | `String.prototype.trim` over the ECMAScript white-space set, `toLowerCase` and `includes` |
| seqs.dfy | `Seqs` | `Filter` and the subsequence facts about it |
| schema.dfy | `Schema` | the rows of `menu_items`, `cart_items`, `orders` and `order_items`, and the lookup of a menu row by id |
| query.dfy | `Query` | `LIMIT`/`OFFSET`, as SQLite evaluates them after a handler's clamping, and `ORDER BY created_at DESC` |
| database.dfy | `Db` | the `Database` class: the four tables and their id counters, and the single-statement writes |
| menu_route.dfy | `MenuRoute` | `/api/menu` |
| cart_route.dfy | `CartRoute` | `/api/cart` |
| orders_route.dfy | `OrdersRoute` | `/api/orders` |
| orders_all_route.dfy | `AdminOrdersRoute` | `/api/orders/all` |
| home_page.dfy | `HomePage` | the menu page's filter |
| cart_totals.dfy | `CartTotals` | the `reduce` that the cart and checkout pages use for the total |
| cart_page.dfy | `CartPage` | quantity change and removal on the cart page |
| checkout_page.dfy | `CheckoutPage` | the order request the checkout page sends, and what the server does with it |

### How the code is modelled

**Handlers.** Handlers that write are methods on a `Database`, and their `modifies`
clauses name exactly the tables they touch. Each such method is proved against a pure
function of the old state. For example, `OrdersRoute.Post` is proved against
`OrdersRoute.PlanOrder`, and `CartRoute.AddToCart` against `CartRoute.CartAfterAdd`.
The loops in the source stay loops: the order-item validation loop and the pricing
loop. Read-only handlers and the page logic are functions.

**Values.**
- Prices and totals are integers.
- Timestamps are an ordered integer type, and the current time is passed in as `now`.
- Query-string parameters are `Param`s: absent or empty, not a number, or the number
  `parseInt` reads.
- JSON body fields are `Json.Field`s: `undefined`, `null`, a whole number or a string.
  The tests keep JavaScript's semantics. `!x` is true for `undefined`, `null`, 0 and
  `""`, and false for `"0"`. `parseInt` skips leading white space, reads a sign, an
  optional `0x`, and then the longest run of digits, so `"12abc"` is 12 and `"abc"` is
  NaN. `parseFloat` reads the same way in decimal.
- An exception a handler catches becomes a 500. It is `ServerError` when the body has
  no `code`, as for `toString` on a `null` cart quantity. It is `InternalError` when the
  code is INTERNAL_ERROR, as in the staff listing.

### Where the documented behaviour and the code differ

The model follows the code in each of these cases:
- **A negative `limit` is unbounded.** The clamp `Math.min(parseInt(limit), 100)`
  leaves a negative value in place, and SQLite reads a negative `LIMIT` as "no limit".
  So a negative `limit` returns every matching row, although the documentation caps
  pages at 100 (`MenuRoute.NegativeLimitIsUnbounded`).
- **A repeated `menuItemId` rejects the order.** An order that names the same
  `menuItemId` twice fails with `MENU_ITEMS_NOT_FOUND`. The cause is that `inArray`
  returns each menu row once, so the row count falls short of the id count
  (`OrdersRoute.RepeatedIdRejected`).
- **`available` is never checked.** Placing an order does not consult the `available`
  flag (`OrdersRoute.AvailabilityIgnored`).
- **User ids are numbers in the handlers.** The schema declares `user_id` in
  `cart_items` and `orders` as text that references `user.id`
  (src/db/schema.ts:82, src/db/schema.ts:90). The handlers, however, store and compare
  `parseInt(userId)`. The model keeps the numeric value. A text session id that does
  not start with a digit is therefore refused by `POST /api/orders` with
  INVALID_USER_ID (`CheckoutPage.NonNumericSessionRejected`).
- **The id checks let some odd ids through.** A body `userId` of the number 0 is
  falsy and gives MISSING_USER_ID (cart) or INVALID_USER_ID (orders). The string
  `"0"`, or `"0abc"`, is truthy and parses to 0, so it is accepted as user 0
  (`Json.ZeroTextPasses`).
- **A `null` cart quantity is a 500.** The destructuring default `quantity = 1`
  applies only to `undefined`. A `null` quantity reaches `quantity.toString()`, which
  throws, so the handler answers 500 instead of INVALID_QUANTITY. An empty-string
  quantity gives INVALID_QUANTITY (`CartRoute.AddError`).
- **An empty-string price is INVALID_PRICE.** The missing-price check tests only
  `undefined` and `null`, so `""` passes it and then fails the `parseFloat` check
  (`MenuRoute.CreateError`).

## Model

| member | source | states |
|---|---|---|
| Text.Trim | src/app/api/orders/route.ts:106 | trimming never lengthens a string |
| Text.TrimIsInfix | src/app/api/menu/route.ts:93-150 | `trim()` returns a contiguous infix of its input, and only white space lies on either side of it |
| Text.TrimIsTrimmed | src/app/api/menu/route.ts:93-150 | the result of `trim()` neither starts nor ends with white space |
| Text.TrimEmptyIffBlank | src/app/api/orders/route.ts:106 | `s.trim() === ''` holds exactly when every character of `s` is white space |
| Text.TrimIdempotent | src/app/api/menu/route.ts:136-138 | trimming twice gives the same string as trimming once |
| Text.ToLowerIdempotent | src/app/page.tsx:72-78 | lower-casing twice gives the same string as lower-casing once |
| Text.ContainsAt | src/app/page.tsx:72-78 | `includes` holds exactly when the needle occurs at some position of the haystack |
| Json.DecimalRoundTrip | src/app/api/cart/route.ts:81 | `parseInt` and `parseFloat` read the decimal rendering of a whole number back as that number, so `parseInt(quantity.toString())` of a number field is the number |
| Json.ZeroTextPasses | src/app/api/orders/route.ts:99 | a string that starts with a lone "0" is truthy and parses to 0, so it passes `!x \|\| isNaN(parseInt(x))`, which the number 0 fails |
| Json.NoLeadingNumber | src/app/api/cart/route.ts:67-79 | a string with no leading number, the empty string included, is NaN under both `parseInt` and `parseFloat` |
| Seqs.FilterFilter | src/app/page.tsx:65-81 | two filters in succession equal one filter by the conjunction of their tests |
| Schema.FindMenuItem | src/app/api/menu/route.ts:24-35 | a row found is in the menu and has the requested id; nothing is found exactly when no row has the id |
| Schema.FindMenuItemUnique | src/app/api/orders/route.ts:158-161 | with distinct primary keys, looking up a row's id finds that row |
| Query.EffectiveLimit | src/app/api/menu/route.ts:14 | the page size never exceeds 100: a requested limit above 100 becomes 100, one of at most 100 (a negative one included) is used as is, and without one the default applies, capped at 100 |
| Query.EffectiveOffset | src/app/api/menu/route.ts:15 | the offset is the requested one when given, and 0 otherwise |
| Query.Page | src/app/api/menu/route.ts:75 | a page is exactly the run of rows that starts at the offset (0 when the offset is negative, the end when it is past the end). It holds `limit` rows, or every remaining row when fewer remain or the limit is negative |
| Query.PageSplit | src/app/api/orders/all/route.ts:10-32 | two consecutive pages, the second starting where the first ends, make up exactly the page of their combined size |
| Query.PagesFromTile | src/app/api/orders/all/route.ts:10-32 | fetching page after page of one size, each at the offset where the last ended, yields exactly the rest of the listing from the first offset, with no row skipped or repeated |
| Query.PageKeepsOrder | src/app/api/orders/all/route.ts:30-32 | a page of a newest-first listing is newest first |
| Query.SortNewestFirst | src/app/api/orders/route.ts:21-24 | `ORDER BY created_at DESC` returns the same rows, as a multiset, in non-increasing `created_at` |
| Query.SortedFrom | src/app/api/orders/route.ts:21-24 | every row of the sorted listing comes from the unsorted one |
| Db.CartRowsWithIdUnique | src/app/api/cart/route.ts:100-107 | with distinct primary keys, `UPDATE ... WHERE id = ? RETURNING *` returns exactly the one updated row |
| Db.Database.constructor | src/db/schema.ts:69-104 | the store starts with four empty tables, and every id counter is 1 |
| Db.Database.InsertMenuItem | src/app/api/menu/route.ts:153 | the new row takes the next id and is appended; the id invariants are kept |
| Db.Database.InsertCartItem | src/app/api/cart/route.ts:111-119 | the new row takes the next id and is appended; the id invariants are kept |
| Db.Database.UpdateCartQuantity | src/app/api/cart/route.ts:101-107 | only the row with that id gets the new quantity, and the updated rows are returned |
| Db.Database.InsertOrder | src/app/api/orders/route.ts:181-190 | the new order takes the next id and is appended |
| Db.Database.InsertOrderItems | src/app/api/orders/route.ts:202-212 | the new rows are numbered consecutively from the counter and appended |
| MenuRoute.PushedConditionsSelect | src/app/api/menu/route.ts:43-73 | the conditions the handler pushes hold together exactly on the rows in the category that match the search |
| MenuRoute.Get | src/app/api/menu/route.ts:8-77 | an `id` takes priority: it is INVALID_ID when malformed, otherwise that row or NOT_FOUND. Without an `id`, an unknown category is INVALID_CATEGORY; otherwise the result is the filtered rows, paged |
| MenuRoute.ListingSound | src/app/api/menu/route.ts:14-75 | every listed row is a menu row in the requested category; the page size is at most 100, and at most the limit when the limit is non-negative |
| MenuRoute.ListingComplete | src/app/api/menu/route.ts:43-75 | with no offset and a limit the selection fits in, the listing is every selected row in table order |
| MenuRoute.NegativeLimitIsUnbounded | src/app/api/menu/route.ts:14 | a negative limit returns the whole selection from the offset onward, past the cap of 100 |
| MenuRoute.NoFilterListsMenu | src/app/api/menu/route.ts:70-75 | with no category and no search, the listing is a page of the whole menu |
| MenuRoute.CategoryIsTrimmed | src/app/api/menu/route.ts:107-138 | a valid category is non-empty and unchanged by `trim()` |
| MenuRoute.CreateError | src/app/api/menu/route.ts:93-132 | each error code is returned exactly when its check is the first to fail, in source order. Only `undefined` and `null` are a missing price, so `""` reaches the `parseFloat` check. No error exactly when the name is non-blank, `parseFloat` reads a positive price and the category is valid |
| MenuRoute.Post | src/app/api/menu/route.ts:87-155 | a rejected request writes nothing. An accepted one appends one row under the next id and moves the counter on by one. The row has the trimmed fields and the price `parseFloat` reads, `available` defaults to true, and a blank image URL is left out. The handler returns that row |
| CartRoute.AddQuantity | src/app/api/cart/route.ts:51-87 | an absent quantity defaults to 1; any other accepted quantity is what `parseInt` reads from the field; every accepted quantity is at least 1 |
| CartRoute.AddError | src/app/api/cart/route.ts:51-87 | each error code is returned exactly when its check is the first to fail, in source order: the truthiness of both ids, then `parseInt` of both ids, then a `null` quantity throwing (a 500), then a quantity that does not parse to a positive number. No error exactly when both ids are truthy and parse and the quantity is valid |
| CartRoute.FindCartRow | src/app/api/cart/route.ts:89-98 | a row found belongs to the customer and the item; nothing is found exactly when no such row exists |
| CartRoute.QuantityOfUnique | src/app/api/cart/route.ts:89-98 | when no pair has two rows, the customer's quantity of an item is the quantity of the row found |
| CartRoute.AddIncreasesQuantity | src/app/api/cart/route.ts:100-121 | adding `q` raises the customer's quantity of that item by exactly `q` and leaves every other pair's quantity as it was |
| CartRoute.AddRowCount | src/app/api/cart/route.ts:100-121 | adding grows the table by one row only when the pair had no row |
| CartRoute.AddKeepsOtherRows | src/app/api/cart/route.ts:100-108 | rows of other pairs are untouched |
| CartRoute.AddKeepsPairsUnique | src/app/api/cart/route.ts:89-121 | one row per pair is preserved, and the pair's row is the row returned |
| CartRoute.AddKeepsQuantitiesPositive | src/app/api/cart/route.ts:81-121 | when every quantity is at least 1, they stay so |
| CartRoute.AddToCart | src/app/api/cart/route.ts:89-121 | the new table is the add applied to the old one, and the returned row is that pair's row afterwards. The id counter moves on by one exactly when a row is inserted |
| CartRoute.Post | src/app/api/cart/route.ts:48-122 | a rejected request writes nothing and returns its error code. An accepted one performs the add with the parsed ids and quantity, and moves the id counter on only when it inserts a row |
| CartRoute.UserCart | src/app/api/cart/route.ts:18-37 | each line is one of the customer's cart rows joined with the current details of its menu row |
| CartRoute.UserCartComplete | src/app/api/cart/route.ts:35-37 | every cart row of the customer whose menu row exists appears in the result |
| CartRoute.Get | src/app/api/cart/route.ts:6-39 | INVALID_USER_ID exactly when `userId` is absent or not a number; otherwise the joined cart |
| OrdersRoute.RequestError | src/app/api/orders/route.ts:99-143 | no error exactly when the user id is truthy and starts with a number, the location is a valid pickup point, and `items` is non-empty with every item well formed |
| OrdersRoute.LocationIsTrimmed | src/app/api/orders/route.ts:114-120 | each valid pickup point is non-blank and unchanged by `trim()` |
| OrdersRoute.RequestErrorIsFirstFailedCheck | src/app/api/orders/route.ts:99-143 | the error returned is the code of the first check that fails, in source order, including the per-item checks of the loop |
| OrdersRoute.ValidateItems | src/app/api/orders/route.ts:130-143 | the loop returns the code of the first malformed item, and nothing exactly when every item is well formed |
| OrdersRoute.Validate | src/app/api/orders/route.ts:99-143 | the handler's checks return exactly the request's first error |
| OrdersRoute.BatchCheckPasses | src/app/api/orders/route.ts:146-156 | the row count equals the id count exactly when the requested ids are distinct and every one has a menu row |
| OrdersRoute.RepeatedIdRejected | src/app/api/orders/route.ts:146-156 | an id repeated in `items` gives MENU_ITEMS_NOT_FOUND, even when that menu item exists |
| OrdersRoute.UnknownIdRejected | src/app/api/orders/route.ts:146-156 | an id with no menu row gives MENU_ITEMS_NOT_FOUND |
| OrdersRoute.LinesTotalIsCurrentPriceTotal | src/app/api/orders/route.ts:163-177 | the total accumulated line by line equals the sum of current price times quantity over the items |
| OrdersRoute.PriceItems | src/app/api/orders/route.ts:163-177 | the loop prices each item at its menu row's current price, and its running total is the order total |
| OrdersRoute.PlanOrder | src/app/api/orders/route.ts:93-177 | a request error comes first. Otherwise the order is accepted exactly when the ids are distinct and all resolve, and MENU_ITEMS_NOT_FOUND is returned otherwise. An accepted plan has the trimmed location and one line per item at the current price, and its total is their sum |
| OrdersRoute.AvailabilityIgnored | src/app/api/orders/route.ts:146-177 | changing only `available` flags changes neither the verdict nor the prices nor the total |
| OrdersRoute.ItemViewOf | src/app/api/orders/route.ts:215-230 | a response item keeps its row's snapshot price and carries the menu row's current details, or none when the row is gone |
| OrdersRoute.OrderItemRows | src/app/api/orders/route.ts:202-208 | one row per line, referencing the order, with the line's id, quantity and price |
| OrdersRoute.Commit | src/app/api/orders/route.ts:179-212 | one `pending` order row is appended under the next order id, then one item row per line under consecutive ids, referencing the new order. Both counters move on by the number of rows written |
| OrdersRoute.ResponseItemsFromFound | src/app/api/orders/route.ts:214-230 | looking up the rows found gives the same response items as looking up the whole menu |
| OrdersRoute.Post | src/app/api/orders/route.ts:93-243 | a rejected request writes nothing and returns its code. An accepted one appends exactly the planned order and item rows, moves the order counter on by one and the item counter by the number of items, and returns the rows with their menu details |
| OrdersRoute.PlacedItemsSnapshotPrices | src/app/api/orders/route.ts:163-208 | every item row written references the new order and keeps the requested id and quantity, at the price current when the order is placed |
| OrdersRoute.OrderItemViews | src/app/api/orders/route.ts:52-70 | an order's items are exactly its own `order_items` rows, in table order, with menu details |
| OrdersRoute.UserOrderRows | src/app/api/orders/route.ts:21-24 | exactly the customer's orders, as a multiset, newest first |
| OrdersRoute.UserOrders | src/app/api/orders/route.ts:21-81 | the response is the customer's orders, newest first, each with its own items |
| OrdersRoute.Get | src/app/api/orders/route.ts:6-84 | INVALID_USER_ID exactly when `userId` is absent or not a number; otherwise the customer's orders with their items |
| AdminOrdersRoute.WithStatus | src/app/api/orders/all/route.ts:34-37 | no status keeps every order; a status keeps exactly the orders with that status |
| AdminOrdersRoute.ItemOf | src/app/api/orders/all/route.ts:44-57 | an item keeps its row's columns; the left-joined menu label is absent exactly when the menu row is gone |
| AdminOrdersRoute.ItemsOf | src/app/api/orders/all/route.ts:44-57 | an entry's items are exactly its order's `order_items` rows, in table order |
| AdminOrdersRoute.Entry | src/app/api/orders/all/route.ts:59-69 | an entry copies the order's columns and carries its items |
| AdminOrdersRoute.OrderPage | src/app/api/orders/all/route.ts:10-39 | the listed orders are exactly the window of the newest-first selection with the requested status at the effective offset and limit. So they are orders of the store with that status, newest first, and at most the limit when the limit is non-negative |
| AdminOrdersRoute.Listing | src/app/api/orders/all/route.ts:6-73 | the entries are the orders of the page, in order, each with its own items |
| AdminOrdersRoute.ListingResponse | src/app/api/orders/all/route.ts:3-82 | the handler answers with the listing exactly when the table it joins for user columns is exported by the schema; otherwise the read of that table's column throws and the answer is 500 INTERNAL_ERROR |
| AdminOrdersRoute.ListingAsWrittenFails | src/app/api/orders/all/route.ts:3-82 | as written (importing `users`, which the schema does not export) every request is answered 500 INTERNAL_ERROR |
| AdminOrdersRoute.ListingFixedAnswers | src/app/api/orders/all/route.ts:3-82 | with the import naming the schema's `user` table, every request is answered with the listing, whose orders are the page of the newest-first selection |
| AdminOrdersRoute.ListingComplete | src/app/api/orders/all/route.ts:14-39 | with no offset and a limit the selection fits in, every order of the status is listed exactly once |
| AdminOrdersRoute.NoStatusListsAll | src/app/api/orders/all/route.ts:14-39 | with no status, no offset and room in the limit, every order is listed exactly once |
| AdminOrdersRoute.PageAt | src/app/api/orders/all/route.ts:10-39 | a request with an explicit limit within bounds returns the page of the newest-first selection at that limit and offset |
| AdminOrdersRoute.PagingListsAll | src/app/api/orders/all/route.ts:10-39 | requesting pages in turn from offset 0 lists every order of the status exactly once, newest first, however many there are |
| HomePage.FilterItemsIsShown | src/app/page.tsx:65-81 | the page's two successive filters equal one filter by "in the tab and matching the query" |
| HomePage.FilterItemsSound | src/app/page.tsx:65-81 | an item is shown exactly when it is in the menu, in the tab, and matches the query; the shown items keep the menu's order |
| HomePage.ShowAll | src/app/page.tsx:68-72 | the "all" tab with an empty query shows the whole menu |
| HomePage.QueryCaseIgnored | src/app/page.tsx:72-78 | a query and its lower-cased form show the same items |
| CartTotals.CalculateTotalIsSum | src/app/cart/page.tsx:98-103 | the `reduce` from 0 is the sum of price times quantity over the lines |
| CartTotals.CalculateTotalAppend | src/app/cart/page.tsx:98-103 | one more line adds its line cost to the total |
| CartTotals.CalculateTotalNonNegative | src/app/cart/page.tsx:98-103 | with non-negative prices and quantities, the total is non-negative |
| CartPage.UpdateQuantityEffect | src/app/cart/page.tsx:56-79 | a quantity below 1 sends no request. A sent request carries the new quantity; when it succeeds, only the matching lines take that quantity; otherwise nothing changes |
| CartPage.UpdateChangesTotal | src/app/cart/page.tsx:68-72 | with distinct line ids, a successful update changes the total by price times the change in quantity |
| CartPage.RemoveItemEffect | src/app/cart/page.tsx:81-96 | success keeps exactly the other lines, in order; failure keeps every line |
| CartPage.RemoveChangesTotal | src/app/cart/page.tsx:89 | with distinct line ids, removing a line lowers the total by that line's cost |
| CartPage.DecrementSendsPositive | src/app/cart/page.tsx:175-176 | an enabled "-" button always sends a quantity of at least 1 |
| CartPage.IncrementSendsOneMore | src/app/cart/page.tsx:187-188 | an enabled "+" button sends one more than the current quantity |
| CheckoutPage.PickupLocationsAccepted | src/app/checkout/page.tsx:24-32 | the page offers exactly the pickup points the server accepts, and preselects "Main Canteen" |
| CheckoutPage.OrderItems | src/app/checkout/page.tsx:69-72 | one item request per cart line, in cart order, whose id and quantity `parseInt` reads back as the line's id and quantity |
| CheckoutPage.Deletions | src/app/checkout/page.tsx:84-92 | after an accepted order, one `DELETE` per cart line; after a rejection, none |
| CheckoutPage.UserCartItemsDistinct | src/app/api/cart/route.ts:18-37 | when no pair has two rows, a customer's cart names each menu item once |
| CheckoutPage.PageTotalIsServerTotal | src/app/checkout/page.tsx:59-72 | the total the page shows equals the total the server computes for the request it sends, while prices are unchanged |
| CheckoutPage.CheckoutAccepted | src/app/checkout/page.tsx:66-82 | take a non-empty cart, read for a session id that starts with a number, from a menu whose ids are distinct and non-zero, with one row per item and positive quantities, sent with an offered pickup point. The server accepts it, files the order under that parsed id, and charges exactly the page's total |
| CheckoutPage.CheckoutBodyPasses | src/app/checkout/page.tsx:69-82 | for such a cart, the body the page sends passes every check of `POST /api/orders` before pricing: its items are well formed, and their ids are distinct and on the menu |
| CheckoutPage.NonNumericSessionRejected | src/app/api/orders/route.ts:99-104 | a session id that does not start with a number is refused with INVALID_USER_ID, whatever the cart holds |
| CheckoutPage.EmptyCheckoutRejected | src/app/checkout/page.tsx:66-82 | with a numeric session id and an offered point, an empty cart gives EMPTY_CART |

## Findings

| source | as written | input that shows it | evidently intended | confidence | as-written member | corrected member |
|---|---|---|---|---|---|---|
| src/app/api/orders/all/route.ts:3 | the handler imports `users` from the schema, which exports that table only as `user` (src/db/schema.ts:4); the import is `undefined`, so reading `users.id` while building the select (route.ts:23) throws, and the catch answers 500 INTERNAL_ERROR (route.ts:74-82). With type checking on, the build fails there instead | `GET /api/orders/all` with no parameters, on any store | import `user` and join on it, answering with the paged listing | high; read from the source, not executed | AdminOrdersRoute.ListingAsWrittenFails | AdminOrdersRoute.ListingFixedAnswers |

## Left out

- **Sign-in, sessions and the `users` table.** These belong to the authentication library. The staff listing's left join is not modelled beyond whether its table exists (see "## Findings"), so an entry has no `user` field. Page guards that redirect to the login page are not modelled either.
- **The `[id]` handlers are not part of this model:** `PUT`/`DELETE /api/cart/[id]`, `/api/menu/[id]` and `/api/orders/[id]`. The cart page's update and remove are modelled by whether the request succeeded, which is a parameter.
- **Internal errors.** Database errors and ORDER_CREATION_FAILED are left out, and writes to the store never fail in the model. Two thrown exceptions are modelled: `toString` on a `null` cart quantity (`ServerError`), and the staff listing's read of a column of the missing `users` import (`InternalError`).
- **HTTP status codes.** The model returns the `code` of an error body, or the success value. The numeric status (200, 201, 400, 404, 500) is not modelled.
- **Atomicity.** The order row and its item rows are written by two statements with no transaction. A failure between them is not modelled.
- **Prices are integers.** The `real` column and the fractional part of `parseFloat` are left out, along with floating-point rounding of totals. A JSON number field is a whole number. Fractions, exponents (`"1e3"`), `Infinity`, and numbers of 10^21 or more (which `toString` renders in exponent form) are not modelled.
- **Query-string `parseInt` is modelled by its result.** A query parameter is missing, malformed (NaN) or a number, without the prefix reading spelled out for body fields. A `limit` or `offset` that is NaN is not modelled: `limit` and `offset` are either absent or numbers.
- **Other JSON values.** Booleans, arrays and objects as id, quantity or price fields are not modelled. Neither are non-string `name`, `category` or `pickupLocation` fields. Neither is a `null` entry in `items`, whose property read throws.
- **`LIKE` matching** in the menu search is modelled as case-sensitive substring containment. SQLite's ASCII case folding and the `%`/`_` wildcards inside the search text are left out.
- **`toLowerCase` on the menu page** maps ASCII `A`-`Z` only. Other scripts' case mappings are left out.
- **A null description.** The menu page's search filter tests the name first and the description only when the name does not match (`||`). It therefore throws on an item with a null description whose name does not match the query. The page model types the description as a string, so this throw is not modelled.
- **Foreign keys** are not enforced, and foreign-key errors are not modelled. The handlers do not check references before writing. `POST /api/cart` inserts any `menuItemId` that parses, and any user id. `POST /api/orders` stores `parseInt(userId)` in a text column that references `user.id`. Whether SQLite rejects such a row depends on `PRAGMA foreign_keys`, which is not part of this model. The model accepts every such write.
- **Sorting.** SQLite does not fix the order of rows with equal `created_at` under `ORDER BY created_at DESC`. The model fixes one order: ties keep table order (`Query.SortNewestFirst`). The newest-first contracts (`AdminOrdersRoute.OrderPage`, `PageAt`, `Listing`, `OrdersRoute.UserOrderRows`) are stated against that one order.
- AdminOrdersRoute.PagingListsAll: holds only if the store orders rows with equal `created_at` the same way on every request. SQLite does not promise that, and with a different tie order from one page to the next a row could be skipped or repeated.
- **Selects without `ORDER BY`** are taken to return rows in table order. SQLite does not promise that. These selects are the cart join (src/app/api/cart/route.ts:18-37), the menu listing and its `LIMIT`/`OFFSET` (src/app/api/menu/route.ts:43-75), and the `order_items` selects (src/app/api/orders/route.ts:52-70, src/app/api/orders/all/route.ts:44-57). Each member below states table order for its select:
- CartRoute.UserCart: its lines are in `cart_items` order.
- MenuRoute.ListingComplete: it states table order, and `MenuRoute.Get` pages over table order.
- OrdersRoute.OrderItemViews: it states `order_items` table order.
- AdminOrdersRoute.ItemsOf: it states `order_items` table order.
- **The checkout page's cart deletions** run concurrently through `Promise.all` and can fail one by one. The model states only which deletions are sent.
- **React state, effects, loading flags and navigation** are left out. So are the admin dashboard, the order history and confirmation pages, and seed data.
- **User ids.** The `user_id` text columns are modelled as integers, because every handler stores and compares `parseInt(userId)`.
- CheckoutPage.CheckoutAccepted: holds only for a session id that starts with a number. The page sends the authentication library's session id, a text id, and for that the server refuses the order (`CheckoutPage.NonNumericSessionRejected`).
- MenuRoute.ListingSound: bounds the page by `limit` only when the limit is non-negative, because SQLite treats a negative `LIMIT` as unbounded.
- AdminOrdersRoute.OrderPage: bounds the page by `limit` only when the limit is non-negative, for the same reason.
