/** `/api/orders/all`: the staff listing of every order, optionally of one status,
    newest first and paged, each with its items and their menu labels. */
module AdminOrdersRoute {
  import opened Api
  import opened Seqs
  import opened Schema
  import opened Query

  /** The page size when the request names none. */
  const DEFAULT_LIMIT: int := 50

  /** The query string; `status` is "" when absent, `limit` and `offset` None. */
  datatype ListParams = ListParams(status: string, limit: Option<int>, offset: Option<int>)

  /** The menu columns of the left join; None when the menu row no longer exists. */
  datatype MenuLabel = MenuLabel(id: int, name: string, imageUrl: Option<string>)

  datatype AdminItem = AdminItem(id: int, menuItemId: int, quantity: int, price: int, menuItem: Option<MenuLabel>)

  datatype AdminOrder = AdminOrder(
    id: int,
    userId: int,
    totalAmount: int,
    status: string,
    pickupLocation: string,
    createdAt: Timestamp,
    updatedAt: Timestamp,
    items: seq<AdminItem>)

  /** The order row an entry of the listing was copied from. */
  function OrderOf(a: AdminOrder): Order
  {
    Order(a.id, a.userId, a.totalAmount, a.status, a.pickupLocation, a.createdAt, a.updatedAt)
  }

  function OrdersOf(listing: seq<AdminOrder>): (r: seq<Order>)
    ensures |r| == |listing| && forall k :: 0 <= k < |r| ==> r[k] == OrderOf(listing[k])
  {
    seq(|listing|, k requires 0 <= k < |listing| => OrderOf(listing[k]))
  }

  /** `WHERE status = ?` when a status is given. */
  function WithStatus(orders: seq<Order>, status: string): (r: seq<Order>)
    ensures status == "" ==> r == orders
    ensures forall o :: o in r <==> o in orders && (status == "" || o.status == status)
  {
    if status == "" then orders else Filter(orders, (o: Order) => o.status == status)
  }

  function Label(m: MenuItem): MenuLabel
  {
    MenuLabel(m.id, m.name, m.imageUrl)
  }

  function ItemOf(it: OrderItem, menu: seq<MenuItem>): (a: AdminItem)
    ensures a.id == it.id && a.menuItemId == it.menuItemId && a.quantity == it.quantity && a.price == it.price
    ensures a.menuItem.None? <==> FindMenuItem(menu, it.menuItemId).None?
    ensures a.menuItem.Some? ==> a.menuItem.value == Label(FindMenuItem(menu, it.menuItemId).value)
  {
    AdminItem(it.id, it.menuItemId, it.quantity, it.price,
      match FindMenuItem(menu, it.menuItemId) case Some(m) => Some(Label(m)) case None => None)
  }

  /** `order_items LEFT JOIN menu_items ... WHERE order_id = orderId`, in table order. */
  function ItemsOf(orderId: int, orderItems: seq<OrderItem>, menu: seq<MenuItem>): (r: seq<AdminItem>)
    ensures var mine := Filter(orderItems, (it: OrderItem) => it.orderId == orderId);
      |r| == |mine| && forall k :: 0 <= k < |r| ==> r[k] == ItemOf(mine[k], menu)
  {
    var mine := Filter(orderItems, (it: OrderItem) => it.orderId == orderId);
    seq(|mine|, k requires 0 <= k < |mine| => ItemOf(mine[k], menu))
  }

  /** One entry of the listing: the order's columns copied through, with its items. */
  function Entry(o: Order, orderItems: seq<OrderItem>, menu: seq<MenuItem>): (a: AdminOrder)
    ensures OrderOf(a) == o
    ensures a.items == ItemsOf(o.id, orderItems, menu)
  {
    AdminOrder(o.id, o.userId, o.totalAmount, o.status, o.pickupLocation, o.createdAt, o.updatedAt,
      ItemsOf(o.id, orderItems, menu))
  }

  /** The order rows of the listing: `WHERE status = ?` when a status is given,
      `ORDER BY created_at DESC`, then `LIMIT` and `OFFSET`. The page is the window of
      the newest-first selection that starts at the effective offset (a negative one
      counts as 0) and holds `limit` orders, or every remaining one when fewer remain
      or the limit is negative. */
  function OrderPage(orders: seq<Order>, p: ListParams): (page: seq<Order>)
    ensures EffectiveLimit(p.limit, DEFAULT_LIMIT) >= 0 ==> |page| <= EffectiveLimit(p.limit, DEFAULT_LIMIT)
    ensures Window(page, SortNewestFirst(WithStatus(orders, p.status)), EffectiveLimit(p.limit, DEFAULT_LIMIT), EffectiveOffset(p.offset))
    ensures NewestFirst(page)
    ensures forall k :: 0 <= k < |page| ==> page[k] in orders && (p.status != "" ==> page[k].status == p.status)
  {
    var selected := WithStatus(orders, p.status);
    var sorted := SortNewestFirst(selected);
    var limit, offset := EffectiveLimit(p.limit, DEFAULT_LIMIT), EffectiveOffset(p.offset);
    PageKeepsOrder(sorted, limit, offset);
    SortedFrom(selected);
    Page(sorted, limit, offset)
  }

  /** `GET /api/orders/all`: each order of the page with its items. */
  function Listing(orders: seq<Order>, orderItems: seq<OrderItem>, menu: seq<MenuItem>, p: ListParams): (r: seq<AdminOrder>)
    ensures OrdersOf(r) == OrderPage(orders, p)
    ensures forall k :: 0 <= k < |r| ==> r[k].items == ItemsOf(r[k].id, orderItems, menu)
  {
    var page := OrderPage(orders, p);
    var r := seq(|page|, k requires 0 <= k < |page| => Entry(page[k], orderItems, menu));
    assert OrdersOf(r) == page;
    r
  }

  /** The names under which the schema module exports its tables (src/db/schema.ts). */
  const SCHEMA_EXPORTS: set<string> :=
    {"user", "session", "account", "verification", "menuItems", "cartItems", "orders", "orderItems"}

  /** The name the handler imports the customers' table under: `users`. */
  const USERS_IMPORT_AS_WRITTEN: string := "users"

  /** The name the schema exports that table under: `user`. */
  const USERS_IMPORT: string := "user"

  /** The whole response of `GET /api/orders/all` when the user columns of the select
      come from the import named `usersImport`. An import with no matching export binds
      `undefined`, so reading its `id` column while the select is built throws. The
      catch then answers 500 with the code INTERNAL_ERROR. Otherwise the answer is the
      listing. */
  function ListingResponse(usersImport: string, orders: seq<Order>, orderItems: seq<OrderItem>, menu: seq<MenuItem>,
                           p: ListParams): (r: Result<seq<AdminOrder>>)
    ensures r.Ok? <==> usersImport in SCHEMA_EXPORTS
    ensures r.Err? ==> r.error == InternalError
    ensures r.Ok? ==> OrdersOf(r.value) == OrderPage(orders, p)
  {
    if usersImport in SCHEMA_EXPORTS then Ok(Listing(orders, orderItems, menu, p)) else Err(InternalError)
  }

  /** As written, the handler imports `users`, which the schema does not export, so
      every request, whatever its parameters and whatever the store holds, is answered
      with 500 INTERNAL_ERROR. */
  lemma ListingAsWrittenFails(orders: seq<Order>, orderItems: seq<OrderItem>, menu: seq<MenuItem>, p: ListParams)
    ensures ListingResponse(USERS_IMPORT_AS_WRITTEN, orders, orderItems, menu, p) == Err(InternalError)
  {
    assert USERS_IMPORT_AS_WRITTEN[4] == 's';
    assert forall t :: t in SCHEMA_EXPORTS ==> |t| != 5 || t[4] != 's';
  }

  /** With the import naming the schema's `user` table, the handler answers with the
      listing: page after page from offset 0 then lists every order of the status
      exactly once (`PagingListsAll`). */
  lemma ListingFixedAnswers(orders: seq<Order>, orderItems: seq<OrderItem>, menu: seq<MenuItem>, p: ListParams)
    ensures ListingResponse(USERS_IMPORT, orders, orderItems, menu, p) == Ok(Listing(orders, orderItems, menu, p))
    ensures OrdersOf(ListingResponse(USERS_IMPORT, orders, orderItems, menu, p).value)
      == Page(SortNewestFirst(WithStatus(orders, p.status)), EffectiveLimit(p.limit, DEFAULT_LIMIT), EffectiveOffset(p.offset))
  {
    var sorted := SortNewestFirst(WithStatus(orders, p.status));
    var limit, offset := EffectiveLimit(p.limit, DEFAULT_LIMIT), EffectiveOffset(p.offset);
    var page := OrderPage(orders, p);
    assert page == Page(sorted, limit, offset);
  }

  /** With no offset and a limit the selection fits in, the listing holds every order
      of the requested status, each once. */
  lemma ListingComplete(orders: seq<Order>, orderItems: seq<OrderItem>, menu: seq<MenuItem>, p: ListParams)
    requires p.offset.None? || p.offset.value <= 0
    requires |WithStatus(orders, p.status)| <= EffectiveLimit(p.limit, DEFAULT_LIMIT)
    ensures multiset(OrdersOf(Listing(orders, orderItems, menu, p))) == multiset(WithStatus(orders, p.status))
  {
    var sorted := SortNewestFirst(WithStatus(orders, p.status));
    assert OrderPage(orders, p) == sorted;
  }

  /** With no status given, the listing pages through every order. */
  lemma NoStatusListsAll(orders: seq<Order>, orderItems: seq<OrderItem>, menu: seq<MenuItem>, p: ListParams)
    requires p.status == ""
    requires p.offset.None? || p.offset.value <= 0
    requires |orders| <= EffectiveLimit(p.limit, DEFAULT_LIMIT)
    ensures multiset(OrdersOf(Listing(orders, orderItems, menu, p))) == multiset(orders)
  {
    ListingComplete(orders, orderItems, menu, p);
  }

  /** A page requested with an explicit limit within bounds is the page of the
      newest-first selection at that offset. */
  lemma PageAt(orders: seq<Order>, status: string, limit: int, offset: int)
    requires 0 <= limit <= MAX_LIMIT
    ensures OrderPage(orders, ListParams(status, Some(limit), Some(offset)))
      == Page(SortNewestFirst(WithStatus(orders, status)), limit, offset)
  {
  }

  /** Requesting page after page from the first, each one at the offset where the
      previous one ended, lists every order of the requested status exactly once, in
      newest-first order, however large the selection is: each answer is a page of the
      newest-first selection (`PageAt`), and those pages tile it. */
  lemma PagingListsAll(orders: seq<Order>, status: string, limit: int)
    requires 0 < limit <= MAX_LIMIT
    ensures var sorted := SortNewestFirst(WithStatus(orders, status));
      && PagesFrom(sorted, limit, 0) == sorted
      && multiset(PagesFrom(sorted, limit, 0)) == multiset(WithStatus(orders, status))
  {
    var sorted := SortNewestFirst(WithStatus(orders, status));
    PagesFromTile(sorted, limit, 0);
    assert sorted[0..] == sorted;
  }
}
