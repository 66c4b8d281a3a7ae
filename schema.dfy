/** The rows of the four business tables (`menu_items`, `cart_items`, `orders`,
    `order_items`) and the keyed lookups the handlers make on them. */
module Schema {
  import opened Api

  /** Timestamps are opaque values with an order; the handlers get them from a clock. */
  type Timestamp = int

  datatype MenuItem = MenuItem(
    id: int,
    name: string,
    description: Option<string>,
    price: int,
    category: string,
    imageUrl: Option<string>,
    available: bool,
    createdAt: Timestamp)

  datatype CartItem = CartItem(
    id: int,
    userId: int,
    menuItemId: int,
    quantity: int,
    createdAt: Timestamp)

  datatype Order = Order(
    id: int,
    userId: int,
    totalAmount: int,
    status: string,
    pickupLocation: string,
    createdAt: Timestamp,
    updatedAt: Timestamp)

  datatype OrderItem = OrderItem(
    id: int,
    orderId: int,
    menuItemId: int,
    quantity: int,
    price: int,
    createdAt: Timestamp)

  /** The four menu categories the menu handlers accept. */
  const VALID_CATEGORIES: seq<string> := ["snacks", "meals", "beverages", "desserts"]

  /** The primary keys of a table are pairwise different. */
  predicate MenuIdsDistinct(menu: seq<MenuItem>)
  {
    forall i, j :: 0 <= i < j < |menu| ==> menu[i].id != menu[j].id
  }

  predicate CartIdsDistinct(cart: seq<CartItem>)
  {
    forall i, j :: 0 <= i < j < |cart| ==> cart[i].id != cart[j].id
  }

  predicate OrderIdsDistinct(orders: seq<Order>)
  {
    forall i, j :: 0 <= i < j < |orders| ==> orders[i].id != orders[j].id
  }

  predicate OrderItemIdsDistinct(items: seq<OrderItem>)
  {
    forall i, j :: 0 <= i < j < |items| ==> items[i].id != items[j].id
  }

  /** `SELECT ... WHERE id = ? LIMIT 1` on `menu_items`: the first row with that id. */
  function FindMenuItem(menu: seq<MenuItem>, id: int): (r: Option<MenuItem>)
    ensures r.Some? ==> r.value in menu && r.value.id == id
    ensures r.None? <==> forall k :: 0 <= k < |menu| ==> menu[k].id != id
  {
    if menu == [] then None
    else if menu[0].id == id then Some(menu[0])
    else FindMenuItem(menu[1..], id)
  }

  /** With distinct ids, the row found is the only row with that id. */
  lemma {:induction false} FindMenuItemUnique(menu: seq<MenuItem>, k: int)
    requires MenuIdsDistinct(menu)
    requires 0 <= k < |menu|
    ensures FindMenuItem(menu, menu[k].id) == Some(menu[k])
  {
    if k > 0 {
      assert menu[0].id != menu[k].id;
      assert menu[1..][k - 1] == menu[k];
      FindMenuItemUnique(menu[1..], k - 1);
    }
  }
}
