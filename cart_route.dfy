/** `/api/cart`: adding a menu item to a customer's cart (`POST`), merging with the row
    the customer already has for that item, and reading the cart back (`GET`). */
module CartRoute {
  import opened Api
  import opened Json
  import opened Seqs
  import opened Schema
  import opened Db

  /** The body of `POST /api/cart`. */
  datatype AddRequest = AddRequest(userId: Field, menuItemId: Field, quantity: Field)

  /** `quantity = 1` is a destructuring default, so it replaces only an absent field;
      the value is then `parseInt(quantity.toString())`. */
  function QuantityValue(f: Field): Option<int>
  {
    if f.Undefined? then Some(1) else ParsedInt(f)
  }

  /** The quantity check passes: the field is not `null` (whose `toString` throws) and
      its value is a positive number. */
  predicate ValidAddQuantity(f: Field)
  {
    !f.Null? && QuantityValue(f).Some? && QuantityValue(f).value > 0
  }

  /** The quantity that is added: 1 when the field is absent, otherwise what it parses to. */
  function AddQuantity(f: Field): (q: int)
    requires ValidAddQuantity(f)
    ensures q >= 1
    ensures f.Undefined? ==> q == 1
    ensures !f.Undefined? ==> ParsedInt(f) == Some(q)
  {
    QuantityValue(f).value
  }

  /** The checks of the handler, in source order: both truthiness checks come before
      either `parseInt` check, and a `null` quantity throws (a 500) once the ids pass. */
  function AddError(req: AddRequest): (r: Option<ErrorCode>)
    ensures r.None? <==>
      ValidBodyId(req.userId) && ValidBodyId(req.menuItemId) && ValidAddQuantity(req.quantity)
    ensures r == Some(MissingUserId) <==> !Truthy(req.userId)
    ensures r == Some(MissingMenuItemId) <==> Truthy(req.userId) && !Truthy(req.menuItemId)
    ensures r == Some(InvalidUserId) <==>
      Truthy(req.userId) && Truthy(req.menuItemId) && ParsedInt(req.userId).None?
    ensures r == Some(InvalidMenuItemId) <==>
      ValidBodyId(req.userId) && Truthy(req.menuItemId) && ParsedInt(req.menuItemId).None?
    ensures r == Some(ServerError) <==>
      ValidBodyId(req.userId) && ValidBodyId(req.menuItemId) && req.quantity.Null?
    ensures r == Some(InvalidQuantity) <==>
      ValidBodyId(req.userId) && ValidBodyId(req.menuItemId) && !req.quantity.Null?
      && !ValidAddQuantity(req.quantity)
  {
    if !Truthy(req.userId) then Some(MissingUserId)
    else if !Truthy(req.menuItemId) then Some(MissingMenuItemId)
    else if ParsedInt(req.userId).None? then Some(InvalidUserId)
    else if ParsedInt(req.menuItemId).None? then Some(InvalidMenuItemId)
    else if req.quantity.Null? then Some(ServerError)
    else if !ValidAddQuantity(req.quantity) then Some(InvalidQuantity)
    else None
  }

  /** The row belongs to customer `u` and holds menu item `m`. */
  predicate IsPair(row: CartItem, u: int, m: int)
  {
    row.userId == u && row.menuItemId == m
  }

  /** `SELECT ... WHERE user_id = u AND menu_item_id = m LIMIT 1`: the first such row. */
  function FindCartRow(cart: seq<CartItem>, u: int, m: int): (r: Option<CartItem>)
    ensures r.Some? ==> r.value in cart && IsPair(r.value, u, m)
    ensures r.None? <==> forall k :: 0 <= k < |cart| ==> !IsPair(cart[k], u, m)
  {
    if cart == [] then None
    else if IsPair(cart[0], u, m) then Some(cart[0])
    else FindCartRow(cart[1..], u, m)
  }

  /** The cart table after adding `q` of item `m` for customer `u`: the customer's row
      for that item gets `q` more, or, when there is none, a new row is appended. */
  function CartAfterAdd(cart: seq<CartItem>, u: int, m: int, q: int, nextId: int, now: Timestamp): seq<CartItem>
  {
    match FindCartRow(cart, u, m)
    case Some(row) => SetCartQuantity(cart, row.id, row.quantity + q)
    case None => cart + [CartItem(nextId, u, m, q, now)]
  }

  /** The row the handler answers with. */
  function AddedRow(cart: seq<CartItem>, u: int, m: int, q: int, nextId: int, now: Timestamp): CartItem
  {
    match FindCartRow(cart, u, m)
    case Some(row) => row.(quantity := row.quantity + q)
    case None => CartItem(nextId, u, m, q, now)
  }

  // ---------------------------------------------------------------------------
  // Properties of the add
  // ---------------------------------------------------------------------------

  /** How many of item `m` customer `u` has in the cart, over all of their rows. */
  function QuantityOf(cart: seq<CartItem>, u: int, m: int): int
  {
    if cart == [] then 0
    else (if IsPair(cart[0], u, m) then cart[0].quantity else 0) + QuantityOf(cart[1..], u, m)
  }

  /** No customer has two rows for the same item. */
  predicate PairsUnique(cart: seq<CartItem>)
  {
    forall i, j :: 0 <= i < j < |cart| ==> !IsPair(cart[j], cart[i].userId, cart[i].menuItemId)
  }

  lemma {:induction false} QuantityOfAppend(cart: seq<CartItem>, row: CartItem, u: int, m: int)
    ensures QuantityOf(cart + [row], u, m) == QuantityOf(cart, u, m) + if IsPair(row, u, m) then row.quantity else 0
  {
    if cart == [] {
      assert [] + [row] == [row];
    } else {
      assert (cart + [row])[1..] == cart[1..] + [row];
      QuantityOfAppend(cart[1..], row, u, m);
    }
  }

  /** An update by an id no row carries changes nothing. */
  lemma {:induction false} SetCartQuantityAbsent(cart: seq<CartItem>, id: int, q: int)
    requires forall k :: 0 <= k < |cart| ==> cart[k].id != id
    ensures SetCartQuantity(cart, id, q) == cart
  {
  }

  /** With distinct ids, updating row `i` changes the quantity of that row's pair by
      the difference and no other pair's quantity. */
  lemma {:induction false} QuantityOfSet(cart: seq<CartItem>, i: int, q: int, u: int, m: int)
    requires CartIdsDistinct(cart) && 0 <= i < |cart|
    ensures QuantityOf(SetCartQuantity(cart, cart[i].id, q), u, m)
      == QuantityOf(cart, u, m) + if IsPair(cart[i], u, m) then q - cart[i].quantity else 0
  {
    var id := cart[i].id;
    var after := SetCartQuantity(cart, id, q);
    assert after[1..] == SetCartQuantity(cart[1..], id, q);
    if i == 0 {
      forall k | 0 <= k < |cart[1..]| ensures cart[1..][k].id != id {
        assert cart[1..][k] == cart[k + 1];
      }
      SetCartQuantityAbsent(cart[1..], id, q);
    } else {
      assert cart[1..][i - 1] == cart[i];
      assert cart[0].id != id;
      QuantityOfSet(cart[1..], i - 1, q, u, m);
    }
  }

  /** Under unique pairs, a customer's quantity of an item is that of their one row. */
  lemma {:induction false} QuantityOfUnique(cart: seq<CartItem>, u: int, m: int)
    requires PairsUnique(cart)
    ensures QuantityOf(cart, u, m) == match FindCartRow(cart, u, m) case Some(row) => row.quantity case None => 0
  {
    if cart != [] {
      var rest := cart[1..];
      assert PairsUnique(rest) by {
        forall i, j | 0 <= i < j < |rest| ensures !IsPair(rest[j], rest[i].userId, rest[i].menuItemId) {
          assert rest[i] == cart[i + 1] && rest[j] == cart[j + 1];
        }
      }
      QuantityOfUnique(rest, u, m);
      if IsPair(cart[0], u, m) {
        forall k | 0 <= k < |rest| ensures !IsPair(rest[k], u, m) {
          assert rest[k] == cart[k + 1];
        }
      }
    }
  }

  /** The add puts exactly `q` more of item `m` in customer `u`'s cart and leaves every
      other customer's and item's quantity as it was. */
  lemma AddIncreasesQuantity(cart: seq<CartItem>, u: int, m: int, q: int, nextId: int, now: Timestamp, u2: int, m2: int)
    requires CartIdsDistinct(cart)
    ensures QuantityOf(CartAfterAdd(cart, u, m, q, nextId, now), u2, m2)
      == QuantityOf(cart, u2, m2) + if u2 == u && m2 == m then q else 0
  {
    var found := FindCartRow(cart, u, m);
    if found.Some? {
      var i := IndexOf(cart, found.value);
      QuantityOfSet(cart, i, found.value.quantity + q, u2, m2);
    } else {
      QuantityOfAppend(cart, CartItem(nextId, u, m, q, now), u2, m2);
    }
  }

  /** The add merges into the customer's existing row, adding no row, or appends one. */
  lemma AddRowCount(cart: seq<CartItem>, u: int, m: int, q: int, nextId: int, now: Timestamp)
    ensures |CartAfterAdd(cart, u, m, q, nextId, now)|
      == |cart| + if FindCartRow(cart, u, m).Some? then 0 else 1
  {
  }

  /** Every row other than the customer's row for the item is untouched. */
  lemma AddKeepsOtherRows(cart: seq<CartItem>, u: int, m: int, q: int, nextId: int, now: Timestamp, k: int)
    requires CartIdsDistinct(cart)
    requires 0 <= k < |cart| && !IsPair(cart[k], u, m)
    ensures CartAfterAdd(cart, u, m, q, nextId, now)[k] == cart[k]
  {
    if FindCartRow(cart, u, m).Some? {
      var row := FindCartRow(cart, u, m).value;
      var i :| 0 <= i < |cart| && cart[i] == row;
      assert i != k;
    }
  }

  /** Adding keeps each customer to one row per item, and afterwards that row holds
      what it held before (or nothing) plus `q`. */
  lemma AddKeepsPairsUnique(cart: seq<CartItem>, u: int, m: int, q: int, nextId: int, now: Timestamp)
    requires CartIdsDistinct(cart) && PairsUnique(cart)
    ensures PairsUnique(CartAfterAdd(cart, u, m, q, nextId, now))
    ensures FindCartRow(CartAfterAdd(cart, u, m, q, nextId, now), u, m)
      == Some(AddedRow(cart, u, m, q, nextId, now))
  {
    var after := CartAfterAdd(cart, u, m, q, nextId, now);
    match FindCartRow(cart, u, m)
    case Some(row) =>
      var i :| 0 <= i < |cart| && cart[i] == row;
      forall k | 0 <= k < |cart| ensures IsPair(after[k], cart[k].userId, cart[k].menuItemId) {
      }
      assert after[i] == row.(quantity := row.quantity + q);
      FirstPairAt(after, u, m, i);
    case None =>
      FirstPairAt(after, u, m, |cart|);
  }

  /** When row `i` is the only row of a pair, it is the row found for that pair. */
  lemma {:induction false} FirstPairAt(cart: seq<CartItem>, u: int, m: int, i: int)
    requires 0 <= i < |cart| && IsPair(cart[i], u, m)
    requires forall k :: 0 <= k < |cart| && k != i ==> !IsPair(cart[k], u, m)
    ensures FindCartRow(cart, u, m) == Some(cart[i])
  {
    if i > 0 {
      assert !IsPair(cart[0], u, m);
      forall k | 0 <= k < |cart[1..]| && k != i - 1 ensures !IsPair(cart[1..][k], u, m) {
        assert cart[1..][k] == cart[k + 1];
      }
      FirstPairAt(cart[1..], u, m, i - 1);
    }
  }

  /** With every quantity at least 1 before, and `q` at least 1, every quantity is
      at least 1 after. */
  lemma AddKeepsQuantitiesPositive(cart: seq<CartItem>, u: int, m: int, q: int, nextId: int, now: Timestamp)
    requires q >= 1 && forall k :: 0 <= k < |cart| ==> cart[k].quantity >= 1
    ensures var after := CartAfterAdd(cart, u, m, q, nextId, now);
      forall k :: 0 <= k < |after| ==> after[k].quantity >= 1
  {
  }

  // ---------------------------------------------------------------------------
  // POST /api/cart
  // ---------------------------------------------------------------------------

  /** Add to the cart; a rejected request writes nothing. */
  method Post(db: Database, req: AddRequest, now: Timestamp) returns (r: Result<CartItem>)
    requires db.Valid()
    modifies db`cartItems, db`nextCartItemId
    ensures db.Valid()
    ensures AddError(req).Some? ==>
      && r == Err(AddError(req).value)
      && db.cartItems == old(db.cartItems) && db.nextCartItemId == old(db.nextCartItemId)
    ensures AddError(req).None? ==>
      var u, m, q := IntOf(req.userId), IntOf(req.menuItemId), AddQuantity(req.quantity);
      && db.cartItems == CartAfterAdd(old(db.cartItems), u, m, q, old(db.nextCartItemId), now)
      && db.nextCartItemId == old(db.nextCartItemId) + (if FindCartRow(old(db.cartItems), u, m).None? then 1 else 0)
      && r == Ok(AddedRow(old(db.cartItems), u, m, q, old(db.nextCartItemId), now))
  {
    if !Truthy(req.userId) {
      return Err(MissingUserId);
    }
    if !Truthy(req.menuItemId) {
      return Err(MissingMenuItemId);
    }
    var userId := ParsedInt(req.userId);
    if userId.None? {
      return Err(InvalidUserId);
    }
    var menuItemId := ParsedInt(req.menuItemId);
    if menuItemId.None? {
      return Err(InvalidMenuItemId);
    }
    if req.quantity.Null? {
      return Err(ServerError);
    }
    var parsed := if req.quantity.Undefined? then Some(1) else ParsedInt(req.quantity);
    if parsed.None? || parsed.value <= 0 {
      return Err(InvalidQuantity);
    }
    var row := AddToCart(db, userId.value, menuItemId.value, parsed.value, now);
    r := Ok(row);
  }

  /** The store part of the add: look up the customer's row for the item, then either
      raise its quantity by `q` or insert a new row. */
  method AddToCart(db: Database, u: int, m: int, q: int, now: Timestamp) returns (row: CartItem)
    requires db.Valid()
    modifies db`cartItems, db`nextCartItemId
    ensures db.Valid()
    ensures db.cartItems == CartAfterAdd(old(db.cartItems), u, m, q, old(db.nextCartItemId), now)
    ensures db.nextCartItemId == old(db.nextCartItemId) + (if FindCartRow(old(db.cartItems), u, m).None? then 1 else 0)
    ensures row == AddedRow(old(db.cartItems), u, m, q, old(db.nextCartItemId), now)
  {
    var existing := FindCartRow(db.cartItems, u, m);
    if existing.Some? {
      var found := existing.value;
      var i := IndexOf(db.cartItems, found);
      var updated := db.UpdateCartQuantity(found.id, found.quantity + q);
      assert db.cartItems[i] == found.(quantity := found.quantity + q);
      CartRowsWithIdUnique(db.cartItems, i);
      row := updated[0];
    } else {
      row := db.InsertCartItem(CartItem(0, u, m, q, now));
    }
  }

  // ---------------------------------------------------------------------------
  // GET /api/cart?userId=
  // ---------------------------------------------------------------------------

  /** Every column of the joined menu row. */
  datatype MenuDetails = MenuDetails(
    id: int,
    name: string,
    description: Option<string>,
    price: int,
    category: string,
    imageUrl: Option<string>,
    available: bool)

  /** A cart row with its menu item, as the inner join returns it. */
  datatype CartLine = CartLine(
    id: int,
    userId: int,
    menuItemId: int,
    quantity: int,
    createdAt: Timestamp,
    menuItem: MenuDetails)

  function Details(m: MenuItem): MenuDetails
  {
    MenuDetails(m.id, m.name, m.description, m.price, m.category, m.imageUrl, m.available)
  }

  function Joined(c: CartItem, m: MenuItem): CartLine
  {
    CartLine(c.id, c.userId, c.menuItemId, c.quantity, c.createdAt, Details(m))
  }

  /** The cart row a line was made from. */
  function RowOf(line: CartLine): CartItem
  {
    CartItem(line.id, line.userId, line.menuItemId, line.quantity, line.createdAt)
  }

  /** `cart_items INNER JOIN menu_items ON menu_item_id = id WHERE user_id = userId`,
      in cart order. */
  function UserCart(cart: seq<CartItem>, menu: seq<MenuItem>, userId: int): (r: seq<CartLine>)
    ensures |r| <= |cart|
    ensures forall k :: 0 <= k < |r| ==>
      && RowOf(r[k]) in cart
      && r[k].userId == userId
      && FindMenuItem(menu, r[k].menuItemId).Some?
      && r[k].menuItem == Details(FindMenuItem(menu, r[k].menuItemId).value)
  {
    if cart == [] then []
    else
      var rest := UserCart(cart[1..], menu, userId);
      var c := cart[0];
      match FindMenuItem(menu, c.menuItemId)
      case Some(m) =>
        if c.userId == userId then
          assert RowOf(Joined(c, m)) == c;
          [Joined(c, m)] + rest
        else rest
      case None => rest
  }

  /** Every row of the customer whose menu item still exists is in the cart listing;
      a row whose menu item was deleted drops out. */
  lemma {:induction false} UserCartComplete(cart: seq<CartItem>, menu: seq<MenuItem>, userId: int, k: int)
    requires 0 <= k < |cart| && cart[k].userId == userId
    ensures FindMenuItem(menu, cart[k].menuItemId).Some? ==>
      Joined(cart[k], FindMenuItem(menu, cart[k].menuItemId).value) in UserCart(cart, menu, userId)
  {
    if k > 0 {
      assert cart[1..][k - 1] == cart[k];
      UserCartComplete(cart[1..], menu, userId, k - 1);
    }
  }

  /** `GET /api/cart?userId=`. */
  function Get(cart: seq<CartItem>, menu: seq<MenuItem>, userId: Param): (r: Result<seq<CartLine>>)
    ensures r.Err? <==> !ValidQueryNumber(userId)
    ensures r.Err? ==> r.error == InvalidUserId
    ensures r.Ok? ==> r.value == UserCart(cart, menu, userId.n)
  {
    if !ValidQueryNumber(userId) then Err(InvalidUserId)
    else Ok(UserCart(cart, menu, userId.n))
  }
}
