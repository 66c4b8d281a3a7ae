/** The relational store the handlers share: four tables kept in row order, each
    with an auto-increment primary key, and the single-statement writes the
    handlers issue against them. */
module Db {
  import opened Api
  import opened Schema
  import opened Seqs

  /** `rows` with consecutive ids from `first`, as a multi-row `INSERT` assigns them. */
  function NumberOrderItems(rows: seq<OrderItem>, first: int): (r: seq<OrderItem>)
    ensures |r| == |rows|
    ensures forall k :: 0 <= k < |r| ==> r[k] == rows[k].(id := first + k)
  {
    seq(|rows|, k requires 0 <= k < |rows| => rows[k].(id := first + k))
  }

  /** `UPDATE cart_items SET quantity = q WHERE id = id`. */
  function SetCartQuantity(cart: seq<CartItem>, id: int, q: int): (r: seq<CartItem>)
    ensures |r| == |cart|
    ensures forall k :: 0 <= k < |cart| ==>
      r[k] == if cart[k].id == id then cart[k].(quantity := q) else cart[k]
  {
    seq(|cart|, k requires 0 <= k < |cart| =>
      if cart[k].id == id then cart[k].(quantity := q) else cart[k])
  }

  /** `SELECT * FROM cart_items WHERE id = id`. */
  function CartRowsWithId(cart: seq<CartItem>, id: int): seq<CartItem>
  {
    Filter(cart, (row: CartItem) => row.id == id)
  }

  /** With distinct ids, the rows with the id of row `i` are that row alone. */
  lemma {:induction false} CartRowsWithIdUnique(cart: seq<CartItem>, i: int)
    requires CartIdsDistinct(cart) && 0 <= i < |cart|
    ensures CartRowsWithId(cart, cart[i].id) == [cart[i]]
  {
    var id := cart[i].id;
    if i == 0 {
      forall k | 0 <= k < |cart[1..]| ensures cart[1..][k].id != id {
        assert cart[1..][k] == cart[k + 1];
      }
      CartRowsWithIdNone(cart[1..], id);
    } else {
      assert cart[1..][i - 1] == cart[i];
      assert cart[0].id != id;
      CartRowsWithIdUnique(cart[1..], i - 1);
    }
  }

  lemma {:induction false} CartRowsWithIdNone(cart: seq<CartItem>, id: int)
    requires forall k :: 0 <= k < |cart| ==> cart[k].id != id
    ensures CartRowsWithId(cart, id) == []
  {
    if cart != [] {
      assert cart[0].id != id;
      CartRowsWithIdNone(cart[1..], id);
    }
  }

  class Database {
    var menuItems: seq<MenuItem>
    var cartItems: seq<CartItem>
    var orders: seq<Order>
    var orderItems: seq<OrderItem>
    var nextMenuItemId: int
    var nextCartItemId: int
    var nextOrderId: int
    var nextOrderItemId: int

    /** Every table's ids are distinct, positive and below that table's counter,
        which is where the next insert numbers from. */
    ghost predicate Valid()
      reads this
    {
      && nextMenuItemId >= 1 && nextCartItemId >= 1 && nextOrderId >= 1 && nextOrderItemId >= 1
      && MenuIdsDistinct(menuItems)
      && (forall k :: 0 <= k < |menuItems| ==> 1 <= menuItems[k].id < nextMenuItemId)
      && CartIdsDistinct(cartItems)
      && (forall k :: 0 <= k < |cartItems| ==> 1 <= cartItems[k].id < nextCartItemId)
      && OrderIdsDistinct(orders)
      && (forall k :: 0 <= k < |orders| ==> 1 <= orders[k].id < nextOrderId)
      && OrderItemIdsDistinct(orderItems)
      && (forall k :: 0 <= k < |orderItems| ==> 1 <= orderItems[k].id < nextOrderItemId)
    }

    /** An empty store; every counter starts at 1. */
    constructor ()
      ensures Valid()
      ensures menuItems == [] && cartItems == [] && orders == [] && orderItems == []
      ensures nextMenuItemId == 1 && nextCartItemId == 1 && nextOrderId == 1 && nextOrderItemId == 1
    {
      menuItems, cartItems, orders, orderItems := [], [], [], [];
      nextMenuItemId, nextCartItemId, nextOrderId, nextOrderItemId := 1, 1, 1, 1;
    }

    /** `INSERT INTO menu_items ... RETURNING *`; the id in `data` is ignored. */
    method InsertMenuItem(data: MenuItem) returns (row: MenuItem)
      requires Valid()
      modifies this`menuItems, this`nextMenuItemId
      ensures Valid()
      ensures row == data.(id := old(nextMenuItemId))
      ensures menuItems == old(menuItems) + [row]
      ensures nextMenuItemId == old(nextMenuItemId) + 1
    {
      row := data.(id := nextMenuItemId);
      menuItems := menuItems + [row];
      nextMenuItemId := nextMenuItemId + 1;
    }

    /** `INSERT INTO cart_items ... RETURNING *`; the id in `data` is ignored. */
    method InsertCartItem(data: CartItem) returns (row: CartItem)
      requires Valid()
      modifies this`cartItems, this`nextCartItemId
      ensures Valid()
      ensures row == data.(id := old(nextCartItemId))
      ensures cartItems == old(cartItems) + [row]
      ensures nextCartItemId == old(nextCartItemId) + 1
    {
      row := data.(id := nextCartItemId);
      cartItems := cartItems + [row];
      nextCartItemId := nextCartItemId + 1;
    }

    /** `UPDATE cart_items SET quantity = q WHERE id = id RETURNING *`. */
    method UpdateCartQuantity(id: int, q: int) returns (updated: seq<CartItem>)
      requires Valid()
      modifies this`cartItems
      ensures Valid()
      ensures cartItems == SetCartQuantity(old(cartItems), id, q)
      ensures updated == CartRowsWithId(cartItems, id)
    {
      cartItems := SetCartQuantity(cartItems, id, q);
      updated := CartRowsWithId(cartItems, id);
    }

    /** `INSERT INTO orders ... RETURNING *`; the id in `data` is ignored. */
    method InsertOrder(data: Order) returns (row: Order)
      requires Valid()
      modifies this`orders, this`nextOrderId
      ensures Valid()
      ensures row == data.(id := old(nextOrderId))
      ensures orders == old(orders) + [row]
      ensures nextOrderId == old(nextOrderId) + 1
    {
      row := data.(id := nextOrderId);
      orders := orders + [row];
      nextOrderId := nextOrderId + 1;
    }

    /** A multi-row `INSERT INTO order_items ... RETURNING *`; the ids in `rows` are ignored. */
    method InsertOrderItems(rows: seq<OrderItem>) returns (created: seq<OrderItem>)
      requires Valid()
      modifies this`orderItems, this`nextOrderItemId
      ensures Valid()
      ensures created == NumberOrderItems(rows, old(nextOrderItemId))
      ensures orderItems == old(orderItems) + created
      ensures nextOrderItemId == old(nextOrderItemId) + |rows|
    {
      created := NumberOrderItems(rows, nextOrderItemId);
      orderItems := orderItems + created;
      nextOrderItemId := nextOrderItemId + |rows|;
    }
  }
}
