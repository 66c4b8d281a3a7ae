/** The checkout page: it turns the fetched cart into the body of `POST /api/orders`,
    and once the order is accepted deletes the cart rows it sent. */
module CheckoutPage {
  import opened Api
  import opened Json
  import opened Text
  import opened Seqs
  import opened Schema
  import opened CartRoute
  import opened CartTotals
  import opened OrdersRoute

  /** The pickup points offered; the first is selected when the page opens. */
  const PICKUP_LOCATIONS: seq<string> := ["Main Canteen", "Library Cafe", "Hostel Canteen"]

  /** Every offered point is one the server accepts, and the preselected one is the
      main canteen. */
  lemma PickupLocationsAccepted()
    ensures PICKUP_LOCATIONS == VALID_LOCATIONS
    ensures PICKUP_LOCATIONS[0] == "Main Canteen"
  {
  }

  /** `cartItems.map(item => ({ menuItemId, quantity }))`: each line's id and quantity
      as JSON numbers, in cart order, no prices. */
  function OrderItems(lines: seq<CartLine>): (r: seq<ItemRequest>)
    ensures |r| == |lines|
    ensures forall k :: 0 <= k < |lines| ==>
      && ParsedInt(r[k].menuItemId) == Some(lines[k].menuItemId)
      && ParsedInt(r[k].quantity) == Some(lines[k].quantity)
  {
    seq(|lines|, k requires 0 <= k < |lines| => ItemRequest(Number(lines[k].menuItemId), Number(lines[k].quantity)))
  }

  /** The order body: the session's user id (a string), the selected point and the items. */
  function OrderBody(sessionId: string, pickupLocation: string, lines: seq<CartLine>): OrderRequest
  {
    OrderRequest(Str(sessionId), Some(pickupLocation), Some(OrderItems(lines)))
  }

  /** The cart rows deleted after the order reply: every line's row when the order was
      accepted, none otherwise. */
  function Deletions(lines: seq<CartLine>, ok: bool): (ids: seq<int>)
    ensures ok ==> |ids| == |lines| && forall k :: 0 <= k < |lines| ==> ids[k] == lines[k].id
    ensures !ok ==> ids == []
  {
    if ok then seq(|lines|, k requires 0 <= k < |lines| => lines[k].id) else []
  }

  /** No two lines hold the same menu item. */
  predicate ItemsOnce(lines: seq<CartLine>)
  {
    forall i, j :: 0 <= i < j < |lines| ==> lines[i].menuItemId != lines[j].menuItemId
  }

  /** With unique (customer, item) rows, the customer's cart names each menu item once. */
  lemma {:induction false} UserCartItemsDistinct(cart: seq<CartItem>, menu: seq<MenuItem>, userId: int)
    requires PairsUnique(cart)
    ensures ItemsOnce(UserCart(cart, menu, userId))
  {
    if cart != [] {
      var tail := cart[1..];
      TailPairsUnique(cart);
      UserCartItemsDistinct(tail, menu, userId);
      var rest := UserCart(tail, menu, userId);
      var c := cart[0];
      if FindMenuItem(menu, c.menuItemId).Some? && c.userId == userId {
        var x := Joined(c, FindMenuItem(menu, c.menuItemId).value);
        assert UserCart(cart, menu, userId) == [x] + rest;
        HeadItemNotInRest(cart, menu, userId);
        ConsItemsOnce(x, rest);
      } else {
        assert UserCart(cart, menu, userId) == rest;
      }
    }
  }

  lemma ConsItemsOnce(x: CartLine, rest: seq<CartLine>)
    requires ItemsOnce(rest)
    requires forall j :: 0 <= j < |rest| ==> rest[j].menuItemId != x.menuItemId
    ensures ItemsOnce([x] + rest)
  {
    var lines := [x] + rest;
    forall i, j | 0 <= i < j < |lines| ensures lines[i].menuItemId != lines[j].menuItemId {
      assert lines[j] == rest[j - 1];
      if i > 0 {
        assert lines[i] == rest[i - 1];
      }
    }
  }

  lemma TailPairsUnique(cart: seq<CartItem>)
    requires cart != [] && PairsUnique(cart)
    ensures PairsUnique(cart[1..])
  {
    var tail := cart[1..];
    forall i, j | 0 <= i < j < |tail| ensures !IsPair(tail[j], tail[i].userId, tail[i].menuItemId) {
      assert tail[i] == cart[i + 1] && tail[j] == cart[j + 1];
    }
  }

  /** The customer's other lines come after the first row and hold other items. */
  lemma HeadItemNotInRest(cart: seq<CartItem>, menu: seq<MenuItem>, userId: int)
    requires cart != [] && PairsUnique(cart) && cart[0].userId == userId
    ensures var rest := UserCart(cart[1..], menu, userId);
      forall j :: 0 <= j < |rest| ==> rest[j].menuItemId != cart[0].menuItemId
  {
    var tail := cart[1..];
    var rest := UserCart(tail, menu, userId);
    var c := cart[0];
    forall j | 0 <= j < |rest| ensures rest[j].menuItemId != c.menuItemId {
      var t := IndexOf(tail, RowOf(rest[j]));
      assert cart[t + 1] == RowOf(rest[j]);
      assert !IsPair(cart[t + 1], c.userId, c.menuItemId);
      assert rest[j].userId == userId == c.userId;
    }
  }

  /** The server's reference total of the order body is the page's total, when every
      shown price is the current menu price. */
  lemma {:induction false} PageTotalIsServerTotal(menu: seq<MenuItem>, lines: seq<CartLine>)
    requires WellFormedItems(OrderItems(lines))
    requires AllResolve(menu, RequestedIds(OrderItems(lines)))
    requires forall k :: 0 <= k < |lines| ==>
      lines[k].menuItem.price == FindMenuItem(menu, lines[k].menuItemId).value.price
    ensures CurrentPriceTotal(menu, OrderItems(lines)) == Sum(lines)
  {
    if lines != [] {
      var items := OrderItems(lines);
      var tail := lines[1..];
      assert items[1..] == OrderItems(tail);
      assert RequestedIds(items)[0] == lines[0].menuItemId;
      assert forall k :: 0 <= k < |tail| ==> tail[k] == lines[k + 1];
      PageTotalIsServerTotal(menu, tail);
    }
  }

  /** A checkout of a non-empty cart whose rows are unique per item and of positive
      quantity, by a customer whose session id starts with a number, at an offered
      point, is accepted by the server, which files the order under the id the cart was
      read for and charges exactly the total the page showed. The cart is read with
      `?userId=<session id>`, which the cart route parses the same way. */
  lemma CheckoutAccepted(cart: seq<CartItem>, menu: seq<MenuItem>, sessionId: string, pickupLocation: string)
    requires MenuIdsDistinct(menu)
    requires forall k :: 0 <= k < |menu| ==> menu[k].id != 0
    requires PairsUnique(cart)
    requires forall k :: 0 <= k < |cart| ==> cart[k].quantity >= 1
    requires ParsedInt(Str(sessionId)).Some?
    requires pickupLocation in PICKUP_LOCATIONS
    requires UserCart(cart, menu, IntOf(Str(sessionId))) != []
    ensures var lines := UserCart(cart, menu, IntOf(Str(sessionId)));
      var plan := PlanOrder(menu, OrderBody(sessionId, pickupLocation, lines));
      && plan.Ok?
      && plan.value.userId == IntOf(Str(sessionId))
      && plan.value.totalAmount == CalculateTotal(lines)
  {
    var lines := UserCart(cart, menu, IntOf(Str(sessionId)));
    CheckoutBodyPasses(cart, menu, sessionId, pickupLocation);
    PageTotalIsServerTotal(menu, lines);
    CalculateTotalIsSum(lines);
  }

  /** The body the page sends for such a checkout passes every check of the handler
      before pricing: it has no request error, and its ids are distinct and on the menu. */
  lemma CheckoutBodyPasses(cart: seq<CartItem>, menu: seq<MenuItem>, sessionId: string, pickupLocation: string)
    requires forall k :: 0 <= k < |menu| ==> menu[k].id != 0
    requires PairsUnique(cart)
    requires forall k :: 0 <= k < |cart| ==> cart[k].quantity >= 1
    requires ParsedInt(Str(sessionId)).Some?
    requires pickupLocation in PICKUP_LOCATIONS
    requires UserCart(cart, menu, IntOf(Str(sessionId))) != []
    ensures var lines := UserCart(cart, menu, IntOf(Str(sessionId)));
      var items := OrderItems(lines);
      && RequestError(OrderBody(sessionId, pickupLocation, lines)).None?
      && WellFormedItems(items)
      && Distinct(RequestedIds(items))
      && AllResolve(menu, RequestedIds(items))
  {
    var userId := IntOf(Str(sessionId));
    var lines := UserCart(cart, menu, userId);
    var req := OrderBody(sessionId, pickupLocation, lines);
    assert Truthy(req.userId) by {
      if sessionId == [] {
        assert TrimStart(sessionId) == [];
      }
    }
    CartBodyPassesChecks(cart, menu, userId);
    PickupLocationsAccepted();
  }

  /** A session id that does not start with a number (the usual text id) is refused with
      INVALID_USER_ID, whatever the cart holds. */
  lemma NonNumericSessionRejected(menu: seq<MenuItem>, sessionId: string, pickupLocation: string, lines: seq<CartLine>)
    requires MenuIdsDistinct(menu)
    requires ParsedInt(Str(sessionId)).None?
    ensures PlanOrder(menu, OrderBody(sessionId, pickupLocation, lines)) == Err(InvalidUserId)
  {
  }

  /** The items sent for such a cart are well formed, distinct and all on the menu. */
  lemma CartBodyPassesChecks(cart: seq<CartItem>, menu: seq<MenuItem>, userId: int)
    requires forall k :: 0 <= k < |menu| ==> menu[k].id != 0
    requires PairsUnique(cart)
    requires forall k :: 0 <= k < |cart| ==> cart[k].quantity >= 1
    ensures var items := OrderItems(UserCart(cart, menu, userId));
      && WellFormedItems(items)
      && Distinct(RequestedIds(items))
      && AllResolve(menu, RequestedIds(items))
  {
    var lines := UserCart(cart, menu, userId);
    var items := OrderItems(lines);
    forall k | 0 <= k < |items| ensures WellFormedItem(items[k]) {
      var t := IndexOf(cart, RowOf(lines[k]));
      assert cart[t].quantity == lines[k].quantity;
      var i := IndexOf(menu, FindMenuItem(menu, lines[k].menuItemId).value);
      assert menu[i].id == lines[k].menuItemId;
    }
    UserCartItemsDistinct(cart, menu, userId);
  }

  /** An order body with no items is refused with EMPTY_CART. */
  lemma EmptyCheckoutRejected(menu: seq<MenuItem>, sessionId: string, pickupLocation: string)
    requires MenuIdsDistinct(menu)
    requires ParsedInt(Str(sessionId)).Some? && pickupLocation in PICKUP_LOCATIONS
    ensures PlanOrder(menu, OrderBody(sessionId, pickupLocation, [])) == Err(EmptyCart)
  {
    PickupLocationsAccepted();
    LocationIsTrimmed(pickupLocation);
    var req := OrderBody(sessionId, pickupLocation, []);
    assert req.items == Some([]);
    assert RequestError(req) == Some(EmptyCart);
  }
}
