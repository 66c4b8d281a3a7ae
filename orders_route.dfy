/** `/api/orders`: placing an order (`POST`) and a customer's order history (`GET`). */
module OrdersRoute {
  import opened Api
  import opened Json
  import opened Text
  import opened Seqs
  import opened Schema
  import opened Query
  import opened Db

  /** The pickup points an order may name. */
  const VALID_LOCATIONS: seq<string> := ["Main Canteen", "Library Cafe", "Hostel Canteen"]

  /** The status every new order starts in. */
  const PENDING: string := "pending"

  datatype ItemRequest = ItemRequest(menuItemId: Field, quantity: Field)

  /** The body of `POST /api/orders`; `pickupLocation` is None when it is absent or
      not a string, `items` is None when it is absent or not an array. */
  datatype OrderRequest = OrderRequest(
    userId: Field,
    pickupLocation: Option<string>,
    items: Option<seq<ItemRequest>>)

  // ---------------------------------------------------------------------------
  // Validation (before any store access)
  // ---------------------------------------------------------------------------

  /** `!q || isNaN(parseInt(q)) || parseInt(q) <= 0` fails exactly when this is false. */
  predicate ValidQuantity(f: Field)
  {
    ValidBodyId(f) && IntOf(f) > 0
  }

  predicate WellFormedItem(item: ItemRequest)
  {
    ValidBodyId(item.menuItemId) && ValidQuantity(item.quantity)
  }

  /** One pass of the validation loop: the id is checked before the quantity. */
  function ItemError(item: ItemRequest): (r: Option<ErrorCode>)
    ensures r.None? <==> WellFormedItem(item)
    ensures r == Some(InvalidMenuItemId) <==> !ValidBodyId(item.menuItemId)
    ensures r == Some(InvalidQuantity) <==> ValidBodyId(item.menuItemId) && !ValidQuantity(item.quantity)
  {
    if !ValidBodyId(item.menuItemId) then Some(InvalidMenuItemId)
    else if !ValidQuantity(item.quantity) then Some(InvalidQuantity)
    else None
  }

  /** The validation loop: the error of the first malformed item. */
  function FirstItemError(items: seq<ItemRequest>): Option<ErrorCode>
  {
    if items == [] then None
    else if ItemError(items[0]).Some? then ItemError(items[0])
    else FirstItemError(items[1..])
  }

  /** The checks of the handler up to and including the validation loop, in source order. */
  function RequestError(req: OrderRequest): (r: Option<ErrorCode>)
    ensures r.None? <==>
      && ValidBodyId(req.userId)
      && req.pickupLocation.Some? && req.pickupLocation.value in VALID_LOCATIONS
      && req.items.Some? && req.items.value != [] && WellFormedItems(req.items.value)
  {
    if !ValidBodyId(req.userId) then Some(InvalidUserId)
    else if req.pickupLocation.None? || Trim(req.pickupLocation.value) == "" then Some(MissingPickupLocation)
    else if req.pickupLocation.value !in VALID_LOCATIONS then Some(InvalidPickupLocation)
    else if req.items.None? || req.items.value == [] then Some(EmptyCart)
    else
      LocationIsTrimmed(req.pickupLocation.value);
      NoItemError(req.items.value);
      FirstItemError(req.items.value)
  }

  predicate WellFormedItems(items: seq<ItemRequest>)
  {
    forall k :: 0 <= k < |items| ==> WellFormedItem(items[k])
  }

  /** The accepted locations carry no surrounding whitespace, so storing
      `pickupLocation.trim()` stores the location as requested. */
  lemma LocationIsTrimmed(loc: string)
    requires loc in VALID_LOCATIONS
    ensures Trim(loc) == loc && loc != ""
  {
    if loc == VALID_LOCATIONS[0] {
      assert loc[0] == 'M' && loc[|loc| - 1] == 'n';
    } else if loc == VALID_LOCATIONS[1] {
      assert loc[0] == 'L' && loc[|loc| - 1] == 'e';
    } else {
      assert loc == VALID_LOCATIONS[2];
      assert loc[0] == 'H' && loc[|loc| - 1] == 'n';
    }
    TrimOfTrimmed(loc);
  }

  lemma {:induction false} FirstItemErrorAt(items: seq<ItemRequest>, i: int)
    requires 0 <= i < |items|
    requires forall k :: 0 <= k < i ==> WellFormedItem(items[k])
    requires !WellFormedItem(items[i])
    ensures FirstItemError(items) == ItemError(items[i])
  {
    if i > 0 {
      assert WellFormedItem(items[0]);
      FirstItemErrorAt(items[1..], i - 1);
    }
  }

  lemma {:induction false} NoItemError(items: seq<ItemRequest>)
    ensures FirstItemError(items).None? <==> WellFormedItems(items)
  {
    if items != [] {
      NoItemError(items[1..]);
      assert forall k :: 1 <= k < |items| ==> items[k] == items[1..][k - 1];
    }
  }

  // An independent statement of the error order: the list of every check the handler
  // can make, each evaluated on its own, and the first of them that fails.

  /** The first failure in a list of checks. */
  function FirstFailure(checks: seq<Option<ErrorCode>>): Option<ErrorCode>
  {
    if checks == [] then None
    else if checks[0].Some? then checks[0]
    else FirstFailure(checks[1..])
  }

  /** The failure reported is a failing check with only passing checks before it, and
      none is reported exactly when every check passes. */
  lemma {:induction false} FirstFailureIsFirst(checks: seq<Option<ErrorCode>>)
    ensures FirstFailure(checks).None? <==> forall n :: 0 <= n < |checks| ==> checks[n].None?
    ensures FirstFailure(checks).Some? ==>
      exists n :: 0 <= n < |checks| && checks[n] == FirstFailure(checks) && forall m :: 0 <= m < n ==> checks[m].None?
  {
    if checks != [] && checks[0].None? {
      FirstFailureIsFirst(checks[1..]);
      assert forall n :: 1 <= n < |checks| ==> checks[n] == checks[1..][n - 1];
      if FirstFailure(checks).Some? {
        var n :| 0 <= n < |checks[1..]| && checks[1..][n] == FirstFailure(checks) && forall m :: 0 <= m < n ==> checks[1..][m].None?;
        assert checks[n + 1] == FirstFailure(checks);
      }
    }
  }

  lemma {:induction false} FirstFailureAppend(a: seq<Option<ErrorCode>>, b: seq<Option<ErrorCode>>)
    ensures FirstFailure(a + b) == if FirstFailure(a).Some? then FirstFailure(a) else FirstFailure(b)
  {
    if a == [] {
      assert a + b == b;
    } else {
      assert (a + b)[0] == a[0];
      if a[0].None? {
        assert (a + b)[1..] == a[1..] + b;
        FirstFailureAppend(a[1..], b);
      }
    }
  }

  /** The id check and the quantity check of each item, item by item. */
  function ItemChecks(items: seq<ItemRequest>): seq<Option<ErrorCode>>
  {
    if items == [] then []
    else
      [if ValidBodyId(items[0].menuItemId) then None else Some(InvalidMenuItemId),
       if ValidQuantity(items[0].quantity) then None else Some(InvalidQuantity)]
      + ItemChecks(items[1..])
  }

  /** Every check of `POST /api/orders`, each on its own: the userId, the presence of a
      pickup location, its value, a non-empty `items`, then each item's id and quantity. */
  function Checks(req: OrderRequest): seq<Option<ErrorCode>>
  {
    TopChecks(req) + if req.items.Some? then ItemChecks(req.items.value) else []
  }

  function TopChecks(req: OrderRequest): seq<Option<ErrorCode>>
  {
    [ if ValidBodyId(req.userId) then None else Some(InvalidUserId),
      if req.pickupLocation.Some? && Trim(req.pickupLocation.value) != "" then None else Some(MissingPickupLocation),
      if req.pickupLocation.Some? && req.pickupLocation.value in VALID_LOCATIONS then None else Some(InvalidPickupLocation),
      if req.items.Some? && req.items.value != [] then None else Some(EmptyCart) ]
  }

  lemma FirstOfFour(a: Option<ErrorCode>, b: Option<ErrorCode>, c: Option<ErrorCode>, d: Option<ErrorCode>)
    ensures FirstFailure([a, b, c, d]) ==
      if a.Some? then a else if b.Some? then b else if c.Some? then c else d
  {
    assert [a, b, c, d][1..] == [b, c, d];
    assert [b, c, d][1..] == [c, d];
    assert [c, d][1..] == [d];
    assert [d][1..] == [];
    if a.None? {
      assert FirstFailure([a, b, c, d]) == FirstFailure([b, c, d]);
      if b.None? {
        assert FirstFailure([b, c, d]) == FirstFailure([c, d]);
        if c.None? {
          assert FirstFailure([c, d]) == FirstFailure([d]);
        }
      }
    }
  }

  lemma {:induction false} FirstItemErrorIsFirstItemCheck(items: seq<ItemRequest>)
    ensures FirstItemError(items) == FirstFailure(ItemChecks(items))
  {
    if items != [] {
      var head := [if ValidBodyId(items[0].menuItemId) then None else Some(InvalidMenuItemId),
                   if ValidQuantity(items[0].quantity) then None else Some(InvalidQuantity)];
      assert ItemChecks(items) == head + ItemChecks(items[1..]);
      FirstFailureAppend(head, ItemChecks(items[1..]));
      FirstItemErrorIsFirstItemCheck(items[1..]);
    }
  }

  /** The validation chain reports exactly the first failing check: every check before
      the reported one passes, and a request passes exactly when every check does. */
  lemma RequestErrorIsFirstFailedCheck(req: OrderRequest)
    ensures RequestError(req) == FirstFailure(Checks(req))
    ensures RequestError(req).None? <==> forall n :: 0 <= n < |Checks(req)| ==> Checks(req)[n].None?
    ensures RequestError(req).Some? ==>
      exists n :: 0 <= n < |Checks(req)| && Checks(req)[n] == RequestError(req)
        && forall m :: 0 <= m < n ==> Checks(req)[m].None?
  {
    RequestErrorIsFirstFailure(req);
    FirstFailureIsFirst(Checks(req));
  }

  lemma RequestErrorIsFirstFailure(req: OrderRequest)
    ensures RequestError(req) == FirstFailure(Checks(req))
  {
    var rest := if req.items.Some? then ItemChecks(req.items.value) else [];
    TopChecksAgree(req);
    FirstFailureAppend(TopChecks(req), rest);
    if req.items.Some? {
      FirstItemErrorIsFirstItemCheck(req.items.value);
    }
  }

  /** The four checks before the loop fail as the chain does; when they all pass, the
      chain reports what the loop reports. */
  lemma TopChecksAgree(req: OrderRequest)
    ensures FirstFailure(TopChecks(req)).Some? ==> RequestError(req) == FirstFailure(TopChecks(req))
    ensures FirstFailure(TopChecks(req)).None? ==>
      req.items.Some? && RequestError(req) == FirstItemError(req.items.value)
  {
    var top := TopChecks(req);
    FirstOfFour(top[0], top[1], top[2], top[3]);
    assert top == [top[0], top[1], top[2], top[3]];
    if !ValidBodyId(req.userId) {
      assert top[0] == Some(InvalidUserId);
    } else if req.pickupLocation.None? || Trim(req.pickupLocation.value) == "" {
      assert top[0].None? && top[1] == Some(MissingPickupLocation);
    } else if req.pickupLocation.value !in VALID_LOCATIONS {
      assert top[0].None? && top[1].None? && top[2] == Some(InvalidPickupLocation);
    } else {
      LocationIsTrimmed(req.pickupLocation.value);
      assert top[0].None? && top[1].None? && top[2].None?;
      if req.items.None? || req.items.value == [] {
        assert top[3] == Some(EmptyCart);
      } else {
        assert top[3].None?;
      }
    }
  }

  // ---------------------------------------------------------------------------
  // Existence check and pricing
  // ---------------------------------------------------------------------------

  /** `items.map(item => parseInt(item.menuItemId))`, repeats included. */
  function RequestedIds(items: seq<ItemRequest>): (ids: seq<int>)
    requires WellFormedItems(items)
    ensures |ids| == |items|
    ensures forall k :: 0 <= k < |items| ==> ids[k] == IntOf(items[k].menuItemId)
  {
    seq(|items|, k requires 0 <= k < |items| => IntOf(items[k].menuItemId))
  }

  /** `SELECT * FROM menu_items WHERE id IN (ids)`: each matching row once, in table order. */
  function RowsWithIds(menu: seq<MenuItem>, ids: seq<int>): seq<MenuItem>
  {
    Filter(menu, (m: MenuItem) => m.id in ids)
  }

  predicate Distinct(ids: seq<int>)
  {
    forall i, j :: 0 <= i < j < |ids| ==> ids[i] != ids[j]
  }

  /** Every requested id names a row of `menu`. */
  predicate AllResolve(menu: seq<MenuItem>, ids: seq<int>)
  {
    forall k :: 0 <= k < |ids| ==> FindMenuItem(menu, ids[k]).Some?
  }

  function MenuIdSet(menu: seq<MenuItem>): set<int>
  {
    set k | 0 <= k < |menu| :: menu[k].id
  }

  /** The ids of a table are its first row's id and the ids of the rest, the first
      appearing nowhere else when ids are distinct. */
  lemma MenuIdSetCons(menu: seq<MenuItem>)
    requires menu != [] && MenuIdsDistinct(menu)
    ensures MenuIdSet(menu) == {menu[0].id} + MenuIdSet(menu[1..])
    ensures menu[0].id !in MenuIdSet(menu[1..])
    ensures MenuIdsDistinct(menu[1..])
  {
    var rest := menu[1..];
    forall x | x in MenuIdSet(menu) ensures x in {menu[0].id} + MenuIdSet(rest) {
      var k :| 0 <= k < |menu| && menu[k].id == x;
      if k > 0 { assert rest[k - 1].id == x; }
    }
    forall x | x in MenuIdSet(rest) ensures x in MenuIdSet(menu) {
      var k :| 0 <= k < |rest| && rest[k].id == x;
      assert menu[k + 1].id == x;
    }
    forall k | 0 <= k < |rest| ensures rest[k].id != menu[0].id {
      assert rest[k] == menu[k + 1];
    }
  }

  lemma {:induction false} RowsWithIdsCount(menu: seq<MenuItem>, ids: seq<int>)
    requires MenuIdsDistinct(menu)
    ensures |RowsWithIds(menu, ids)| == |MenuIdSet(menu) * (set x | x in ids)|
  {
    var s := set x | x in ids;
    if menu == [] {
      assert MenuIdSet(menu) == {};
    } else {
      var rest := menu[1..];
      MenuIdSetCons(menu);
      RowsWithIdsCount(rest, ids);
      if menu[0].id in ids {
        assert RowsWithIds(menu, ids) == [menu[0]] + RowsWithIds(rest, ids);
        assert MenuIdSet(menu) * s == {menu[0].id} + MenuIdSet(rest) * s;
      } else {
        assert RowsWithIds(menu, ids) == RowsWithIds(rest, ids);
        assert MenuIdSet(menu) * s == MenuIdSet(rest) * s;
      }
    }
  }

  lemma {:induction false} SetOfSeqSize(ids: seq<int>)
    ensures |set x | x in ids| <= |ids|
    ensures |set x | x in ids| == |ids| <==> Distinct(ids)
  {
    if ids != [] {
      var rest := ids[1..];
      SetOfSeqSize(rest);
      assert (set x | x in ids) == {ids[0]} + (set x | x in rest);
      if ids[0] in rest {
        var j :| 0 <= j < |rest| && rest[j] == ids[0];
        assert ids[j + 1] == ids[0];
      } else {
        if Distinct(rest) {
          forall i, j | 0 <= i < j < |ids| ensures ids[i] != ids[j] {
            if i == 0 { assert ids[j] == rest[j - 1]; } else { assert ids[i] == rest[i - 1] && ids[j] == rest[j - 1]; }
          }
        }
        if Distinct(ids) {
          forall i, j | 0 <= i < j < |rest| ensures rest[i] != rest[j] {
            assert rest[i] == ids[i + 1] && rest[j] == ids[j + 1];
          }
        }
      }
    }
  }

  lemma ResolveIffInIdSet(menu: seq<MenuItem>, ids: seq<int>)
    ensures AllResolve(menu, ids) <==> (set x | x in ids) <= MenuIdSet(menu)
  {
    if AllResolve(menu, ids) {
      forall x | x in ids ensures x in MenuIdSet(menu) {
        var k :| 0 <= k < |ids| && ids[k] == x;
        var row := FindMenuItem(menu, x).value;
        var j :| 0 <= j < |menu| && menu[j] == row;
        assert menu[j].id == x;
      }
    }
    if (set x | x in ids) <= MenuIdSet(menu) {
      forall k | 0 <= k < |ids| ensures FindMenuItem(menu, ids[k]).Some? {
        assert ids[k] in MenuIdSet(menu);
        var j :| 0 <= j < |menu| && menu[j].id == ids[k];
      }
    }
  }

  /** The existence check as written: the number of rows found equals the number of ids
      requested, repeats included, exactly when every id exists AND no id is repeated. */
  lemma {:induction false} BatchCheckPasses(menu: seq<MenuItem>, ids: seq<int>)
    requires MenuIdsDistinct(menu)
    ensures |RowsWithIds(menu, ids)| == |ids| <==> Distinct(ids) && AllResolve(menu, ids)
  {
    var s := set x | x in ids;
    var a := MenuIdSet(menu);
    RowsWithIdsCount(menu, ids);
    SetOfSeqSize(ids);
    ResolveIffInIdSet(menu, ids);
    assert a * s <= s;
    assert |s - a * s| == |s| - |a * s|;
    if |a * s| == |s| {
      assert s - a * s == {};
      assert s <= a;
    }
  }

  /** With distinct menu ids, looking up a requested id in the rows found gives the
      same row as looking it up in the whole menu. */
  lemma {:induction false} LookupInBatch(menu: seq<MenuItem>, ids: seq<int>, id: int)
    requires MenuIdsDistinct(menu)
    requires id in ids
    ensures FindMenuItem(RowsWithIds(menu, ids), id) == FindMenuItem(menu, id)
  {
    if menu != [] {
      LookupInBatch(menu[1..], ids, id);
    }
  }

  /** One order line: the snapshot of a menu price for a requested quantity. */
  datatype Line = Line(menuItemId: int, quantity: int, price: int)

  function LineAmount(l: Line): int
  {
    l.price * l.quantity
  }

  /** The running `totalAmount += itemTotal`, taken over the lines in order. */
  function LinesTotal(lines: seq<Line>): int
  {
    if lines == [] then 0 else LinesTotal(lines[..|lines| - 1]) + LineAmount(lines[|lines| - 1])
  }

  lemma {:induction false} LinesTotalAppend(a: seq<Line>, b: seq<Line>)
    ensures LinesTotal(a + b) == LinesTotal(a) + LinesTotal(b)
    decreases |b|
  {
    if b == [] {
      assert a + b == a;
    } else {
      assert (a + b)[..|a + b| - 1] == a + b[..|b| - 1];
      assert (a + b)[|a + b| - 1] == b[|b| - 1];
      LinesTotalAppend(a, b[..|b| - 1]);
    }
  }

  /** The order lines: each requested id and quantity with the menu's current price. */
  function PriceLines(menu: seq<MenuItem>, items: seq<ItemRequest>): (lines: seq<Line>)
    requires WellFormedItems(items)
    requires AllResolve(menu, RequestedIds(items))
    ensures |lines| == |items|
    ensures forall k :: 0 <= k < |items| ==>
      lines[k] == Line(IntOf(items[k].menuItemId), IntOf(items[k].quantity), FindMenuItem(menu, IntOf(items[k].menuItemId)).value.price)
  {
    seq(|items|, k requires 0 <= k < |items| =>
      Line(IntOf(items[k].menuItemId), IntOf(items[k].quantity), FindMenuItem(menu, RequestedIds(items)[k]).value.price))
  }

  /** The reference total: each requested quantity at the current menu price, summed. */
  function CurrentPriceTotal(menu: seq<MenuItem>, items: seq<ItemRequest>): int
    requires WellFormedItems(items)
    requires AllResolve(menu, RequestedIds(items))
  {
    if items == [] then 0
    else
      assert RequestedIds(items[1..]) == RequestedIds(items)[1..];
      FindMenuItem(menu, RequestedIds(items)[0]).value.price * IntOf(items[0].quantity) + CurrentPriceTotal(menu, items[1..])
  }

  lemma {:induction false} LinesTotalIsCurrentPriceTotal(menu: seq<MenuItem>, items: seq<ItemRequest>)
    requires WellFormedItems(items)
    requires AllResolve(menu, RequestedIds(items))
    ensures LinesTotal(PriceLines(menu, items)) == CurrentPriceTotal(menu, items)
  {
    if items != [] {
      var tail := items[1..];
      assert RequestedIds(tail) == RequestedIds(items)[1..];
      LinesTotalIsCurrentPriceTotal(menu, tail);
      var lines := PriceLines(menu, items);
      assert lines == [lines[0]] + PriceLines(menu, tail);
      LinesTotalAppend([lines[0]], PriceLines(menu, tail));
      assert LinesTotal([lines[0]]) == LineAmount(lines[0]);
    }
  }

  /** What a request that passes every check turns into, before anything is written. */
  datatype Plan = Plan(userId: int, pickupLocation: string, lines: seq<Line>, totalAmount: int)

  /** The decision of `POST /api/orders`, as a function of the menu and the body. */
  function PlanOrder(menu: seq<MenuItem>, req: OrderRequest): (r: Result<Plan>)
    requires MenuIdsDistinct(menu)
    ensures RequestError(req).Some? ==> r == Err(RequestError(req).value)
    ensures RequestError(req).None? ==>
      (r.Ok? <==> Distinct(RequestedIds(req.items.value)) && AllResolve(menu, RequestedIds(req.items.value)))
    ensures RequestError(req).None? && r.Err? ==> r.error == MenuItemsNotFound
    ensures r.Ok? ==>
      && req.items.Some? && WellFormedItems(req.items.value)
      && AllResolve(menu, RequestedIds(req.items.value))
      && r.value.userId == IntOf(req.userId)
      && r.value.pickupLocation == req.pickupLocation.value
      && r.value.pickupLocation in VALID_LOCATIONS
      && r.value.lines == PriceLines(menu, req.items.value)
      && r.value.totalAmount == CurrentPriceTotal(menu, req.items.value)
  {
    match RequestError(req)
    case Some(e) => Err(e)
    case None =>
      NoItemError(req.items.value);
      var items := req.items.value;
      var ids := RequestedIds(items);
      BatchCheckPasses(menu, ids);
      if |RowsWithIds(menu, ids)| != |ids| then Err(MenuItemsNotFound)
      else
        var lines := PriceLines(menu, items);
        LinesTotalIsCurrentPriceTotal(menu, items);
        LocationIsTrimmed(req.pickupLocation.value);
        Ok(Plan(IntOf(req.userId), Trim(req.pickupLocation.value), lines, LinesTotal(lines)))
  }

  /** A `menuItemId` repeated in `items` is reported as a missing menu item, even when
      that item exists. */
  lemma RepeatedIdRejected(menu: seq<MenuItem>, req: OrderRequest, i: int, j: int)
    requires MenuIdsDistinct(menu)
    requires RequestError(req).None?
    requires 0 <= i < j < |req.items.value|
    requires req.items.value[i].menuItemId == req.items.value[j].menuItemId
    ensures PlanOrder(menu, req) == Err(MenuItemsNotFound)
  {
    NoItemError(req.items.value);
    var ids := RequestedIds(req.items.value);
    assert ids[i] == ids[j];
  }

  /** A requested id with no menu row rejects the whole order. */
  lemma UnknownIdRejected(menu: seq<MenuItem>, req: OrderRequest, i: int)
    requires MenuIdsDistinct(menu)
    requires RequestError(req).None?
    requires 0 <= i < |req.items.value|
    requires FindMenuItem(menu, IntOf(req.items.value[i].menuItemId)).None?
    ensures PlanOrder(menu, req) == Err(MenuItemsNotFound)
  {
    NoItemError(req.items.value);
    var ids := RequestedIds(req.items.value);
    assert FindMenuItem(menu, ids[i]).None?;
  }

  /** Two menus that agree on everything except the `available` flags. */
  predicate SameButAvailability(a: seq<MenuItem>, b: seq<MenuItem>)
  {
    |a| == |b| && forall k :: 0 <= k < |a| ==> b[k] == a[k].(available := b[k].available)
  }

  lemma {:induction false} FindIgnoresAvailability(a: seq<MenuItem>, b: seq<MenuItem>, id: int)
    requires SameButAvailability(a, b)
    ensures FindMenuItem(a, id).None? <==> FindMenuItem(b, id).None?
    ensures FindMenuItem(a, id).Some? ==> FindMenuItem(b, id).value.price == FindMenuItem(a, id).value.price
  {
    if a != [] {
      FindIgnoresAvailability(a[1..], b[1..], id);
    }
  }

  lemma {:induction false} RowsIgnoreAvailability(a: seq<MenuItem>, b: seq<MenuItem>, ids: seq<int>)
    requires SameButAvailability(a, b)
    ensures |RowsWithIds(a, ids)| == |RowsWithIds(b, ids)|
  {
    if a != [] {
      RowsIgnoreAvailability(a[1..], b[1..], ids);
    }
  }

  lemma PriceLinesIgnoreAvailability(a: seq<MenuItem>, b: seq<MenuItem>, items: seq<ItemRequest>)
    requires SameButAvailability(a, b) && WellFormedItems(items)
    requires AllResolve(a, RequestedIds(items)) && AllResolve(b, RequestedIds(items))
    ensures PriceLines(a, items) == PriceLines(b, items)
  {
    forall k | 0 <= k < |items| ensures PriceLines(a, items)[k] == PriceLines(b, items)[k] {
      FindIgnoresAvailability(a, b, IntOf(items[k].menuItemId));
    }
  }

  /** `available` is never consulted: flipping availability flags changes neither the
      verdict nor the prices nor the total. */
  lemma AvailabilityIgnored(a: seq<MenuItem>, b: seq<MenuItem>, req: OrderRequest)
    requires MenuIdsDistinct(a) && SameButAvailability(a, b)
    ensures MenuIdsDistinct(b)
    ensures PlanOrder(a, req) == PlanOrder(b, req)
  {
    assert forall k :: 0 <= k < |a| ==> b[k].id == a[k].id;
    if RequestError(req).None? {
      NoItemError(req.items.value);
      var items := req.items.value;
      var ids := RequestedIds(items);
      RowsIgnoreAvailability(a, b, ids);
      if PlanOrder(a, req).Ok? {
        forall k | 0 <= k < |ids| ensures FindMenuItem(b, ids[k]).Some? {
          FindIgnoresAvailability(a, b, ids[k]);
        }
        PriceLinesIgnoreAvailability(a, b, items);
      }
    }
  }

  // ---------------------------------------------------------------------------
  // Response shapes
  // ---------------------------------------------------------------------------

  datatype MenuBrief = MenuBrief(id: int, name: string, price: int, imageUrl: Option<string>)

  /** An order item as returned: its own snapshot price, and the menu row's current
      details, or None when that row no longer exists. */
  datatype ItemView = ItemView(id: int, menuItemId: int, quantity: int, price: int, menuItem: Option<MenuBrief>)

  datatype OrderView = OrderView(order: Order, items: seq<ItemView>)

  function Brief(m: MenuItem): MenuBrief
  {
    MenuBrief(m.id, m.name, m.price, m.imageUrl)
  }

  function ItemViewOf(item: OrderItem, menu: seq<MenuItem>): (v: ItemView)
    ensures v.id == item.id && v.menuItemId == item.menuItemId
    ensures v.quantity == item.quantity && v.price == item.price
    ensures v.menuItem.None? <==> FindMenuItem(menu, item.menuItemId).None?
    ensures v.menuItem.Some? ==> v.menuItem.value == Brief(FindMenuItem(menu, item.menuItemId).value)
  {
    var m := FindMenuItem(menu, item.menuItemId);
    ItemView(item.id, item.menuItemId, item.quantity, item.price,
      match m case Some(row) => Some(Brief(row)) case None => None)
  }

  /** Each order item with its menu details, in order. */
  function ItemViews(items: seq<OrderItem>, menu: seq<MenuItem>): (views: seq<ItemView>)
    ensures |views| == |items|
    ensures forall k :: 0 <= k < |items| ==> views[k] == ItemViewOf(items[k], menu)
  {
    seq(|items|, k requires 0 <= k < |items| => ItemViewOf(items[k], menu))
  }

  /** The rows the handler writes for a plan: one order item per line. */
  function OrderItemRows(orderId: int, lines: seq<Line>, firstId: int, now: Timestamp): (rows: seq<OrderItem>)
    ensures |rows| == |lines|
    ensures forall k :: 0 <= k < |lines| ==>
      rows[k] == OrderItem(firstId + k, orderId, lines[k].menuItemId, lines[k].quantity, lines[k].price, now)
  {
    seq(|lines|, k requires 0 <= k < |lines| =>
      OrderItem(firstId + k, orderId, lines[k].menuItemId, lines[k].quantity, lines[k].price, now))
  }

  // ---------------------------------------------------------------------------
  // POST /api/orders
  // ---------------------------------------------------------------------------

  /** The checks of the handler before it reads the store, in source order, ending
      with the loop over `items`; None when the request passes all of them. */
  method Validate(req: OrderRequest) returns (err: Option<ErrorCode>)
    ensures err == RequestError(req)
  {
    if !ValidBodyId(req.userId) {
      return Some(InvalidUserId);
    }
    if req.pickupLocation.None? || Trim(req.pickupLocation.value) == "" {
      return Some(MissingPickupLocation);
    }
    if req.pickupLocation.value !in VALID_LOCATIONS {
      return Some(InvalidPickupLocation);
    }
    if req.items.None? || req.items.value == [] {
      return Some(EmptyCart);
    }
    err := ValidateItems(req.items.value);
  }

  /** The validation loop over `items`: the error of the first malformed item. */
  method ValidateItems(items: seq<ItemRequest>) returns (err: Option<ErrorCode>)
    ensures err == FirstItemError(items)
    ensures err.None? <==> WellFormedItems(items)
  {
    for i := 0 to |items|
      invariant forall k :: 0 <= k < i ==> WellFormedItem(items[k])
    {
      if !ValidBodyId(items[i].menuItemId) {
        FirstItemErrorAt(items, i);
        return Some(InvalidMenuItemId);
      }
      if !ValidQuantity(items[i].quantity) {
        FirstItemErrorAt(items, i);
        return Some(InvalidQuantity);
      }
    }
    NoItemError(items);
    return None;
  }

  /** The price of `id` in a batch of rows, 0 when the batch lacks it. */
  function PriceIn(rows: seq<MenuItem>, id: int): int
  {
    match FindMenuItem(rows, id) case Some(m) => m.price case None => 0
  }

  /** The line the loop builds for `item` from the batch. */
  function BatchLine(found: seq<MenuItem>, item: ItemRequest): Line
    requires ParsedInt(item.menuItemId).Some? && ParsedInt(item.quantity).Some?
  {
    Line(IntOf(item.menuItemId), IntOf(item.quantity), PriceIn(found, IntOf(item.menuItemId)))
  }

  /** Every requested id is in the batch, with its menu row. */
  lemma InBatch(menu: seq<MenuItem>, items: seq<ItemRequest>, found: seq<MenuItem>, i: int)
    requires MenuIdsDistinct(menu) && WellFormedItems(items)
    requires AllResolve(menu, RequestedIds(items))
    requires found == RowsWithIds(menu, RequestedIds(items))
    requires 0 <= i < |items|
    ensures FindMenuItem(found, IntOf(items[i].menuItemId)) == FindMenuItem(menu, IntOf(items[i].menuItemId))
    ensures FindMenuItem(found, IntOf(items[i].menuItemId)).Some?
  {
    var ids := RequestedIds(items);
    assert ids[i] == IntOf(items[i].menuItemId);
    LookupInBatch(menu, ids, ids[i]);
  }

  /** Lines built from the batch are the plan's lines. */
  lemma BatchLinesArePriceLines(menu: seq<MenuItem>, items: seq<ItemRequest>, found: seq<MenuItem>, lines: seq<Line>)
    requires MenuIdsDistinct(menu) && WellFormedItems(items)
    requires AllResolve(menu, RequestedIds(items))
    requires found == RowsWithIds(menu, RequestedIds(items))
    requires |lines| == |items|
    requires forall k :: 0 <= k < |items| ==> lines[k] == BatchLine(found, items[k])
    ensures lines == PriceLines(menu, items)
  {
    forall k | 0 <= k < |items| ensures lines[k] == PriceLines(menu, items)[k] {
      InBatch(menu, items, found, k);
    }
  }

  /** The pricing loop: each requested item at the price of its row among the rows
      found, with the running total. */
  method PriceItems(menu: seq<MenuItem>, items: seq<ItemRequest>, found: seq<MenuItem>)
    returns (lines: seq<Line>, totalAmount: int)
    requires MenuIdsDistinct(menu) && WellFormedItems(items)
    requires AllResolve(menu, RequestedIds(items))
    requires found == RowsWithIds(menu, RequestedIds(items))
    ensures lines == PriceLines(menu, items)
    ensures totalAmount == LinesTotal(lines) == CurrentPriceTotal(menu, items)
  {
    totalAmount := 0;
    lines := [];
    for i := 0 to |items|
      invariant |lines| == i
      invariant forall k :: 0 <= k < i ==> lines[k] == BatchLine(found, items[k])
      invariant totalAmount == LinesTotal(lines)
    {
      var id := IntOf(items[i].menuItemId);
      InBatch(menu, items, found, i);
      var menuItem := FindMenuItem(found, id).value;
      var itemTotal := menuItem.price * IntOf(items[i].quantity);
      totalAmount := totalAmount + itemTotal;
      var line := Line(id, IntOf(items[i].quantity), menuItem.price);
      assert (lines + [line])[..i] == lines;
      lines := lines + [line];
    }
    BatchLinesArePriceLines(menu, items, found, lines);
    LinesTotalIsCurrentPriceTotal(menu, items);
  }

  /** The response items: each created row with its menu row's details, looked up
      among the rows found. */
  function ResponseItems(created: seq<OrderItem>, found: seq<MenuItem>): (views: seq<ItemView>)
    ensures |views| == |created|
  {
    seq(|created|, k requires 0 <= k < |created| =>
      var m := FindMenuItem(found, created[k].menuItemId);
      ItemView(created[k].id, created[k].menuItemId, created[k].quantity, created[k].price,
        match m case Some(row) => Some(Brief(row)) case None => None))
  }

  /** The two inserts of an accepted order: the `orders` row, then its `order_items`
      rows, which reference the new order's id. */
  method Commit(db: Database, userId: int, totalAmount: int, location: string, lines: seq<Line>, now: Timestamp)
    returns (order: Order, created: seq<OrderItem>)
    requires db.Valid()
    modifies db`orders, db`nextOrderId, db`orderItems, db`nextOrderItemId
    ensures db.Valid()
    ensures order == Order(old(db.nextOrderId), userId, totalAmount, PENDING, location, now, now)
    ensures created == OrderItemRows(order.id, lines, old(db.nextOrderItemId), now)
    ensures db.orders == old(db.orders) + [order]
    ensures db.orderItems == old(db.orderItems) + created
    ensures db.nextOrderId == old(db.nextOrderId) + 1
    ensures db.nextOrderItemId == old(db.nextOrderItemId) + |lines|
  {
    order := db.InsertOrder(Order(0, userId, totalAmount, PENDING, location, now, now));
    var toInsert := OrderItemRows(order.id, lines, 0, now);
    created := db.InsertOrderItems(toInsert);
  }

  /** Looking up the rows found gives the same response items as looking up the whole
      menu, since every created row names a requested id. */
  lemma ResponseItemsFromFound(menu: seq<MenuItem>, items: seq<ItemRequest>, orderId: int, firstId: int, now: Timestamp)
    requires MenuIdsDistinct(menu) && WellFormedItems(items)
    requires AllResolve(menu, RequestedIds(items))
    ensures var created := OrderItemRows(orderId, PriceLines(menu, items), firstId, now);
      ResponseItems(created, RowsWithIds(menu, RequestedIds(items)))
        == ItemViews(created, menu)
  {
    var ids := RequestedIds(items);
    var created := OrderItemRows(orderId, PriceLines(menu, items), firstId, now);
    forall k | 0 <= k < |created|
      ensures FindMenuItem(RowsWithIds(menu, ids), created[k].menuItemId) == FindMenuItem(menu, created[k].menuItemId)
    {
      assert created[k].menuItemId == ids[k];
      LookupInBatch(menu, ids, ids[k]);
    }
  }

  /** Place an order. Every rejection happens before any write; an accepted request
      appends one `orders` row and one `order_items` row per requested item. */
  method Post(db: Database, req: OrderRequest, now: Timestamp) returns (r: Result<OrderView>)
    requires db.Valid()
    modifies db`orders, db`nextOrderId, db`orderItems, db`nextOrderItemId
    ensures db.Valid()
    ensures PlanOrder(old(db.menuItems), req).Err? ==>
      && r == Err(PlanOrder(old(db.menuItems), req).error)
      && db.orders == old(db.orders) && db.orderItems == old(db.orderItems)
      && db.nextOrderId == old(db.nextOrderId) && db.nextOrderItemId == old(db.nextOrderItemId)
    ensures PlanOrder(old(db.menuItems), req).Ok? ==>
      var plan := PlanOrder(old(db.menuItems), req).value;
      var order := Order(old(db.nextOrderId), plan.userId, plan.totalAmount, PENDING, plan.pickupLocation, now, now);
      var rows := OrderItemRows(order.id, plan.lines, old(db.nextOrderItemId), now);
      && db.orders == old(db.orders) + [order]
      && db.orderItems == old(db.orderItems) + rows
      && db.nextOrderId == old(db.nextOrderId) + 1
      && db.nextOrderItemId == old(db.nextOrderItemId) + |rows|
      && r == Ok(OrderView(order, ItemViews(rows, old(db.menuItems))))
  {
    var menu := db.menuItems;
    var err := Validate(req);
    if err.Some? {
      return Err(err.value);
    }
    var items := req.items.value;
    NoItemError(items);

    var ids := RequestedIds(items);
    var found := RowsWithIds(menu, ids);
    BatchCheckPasses(menu, ids);
    if |found| != |ids| {
      return Err(MenuItemsNotFound);
    }

    var lines, totalAmount := PriceItems(menu, items, found);
    var location := req.pickupLocation.value;
    LocationIsTrimmed(location);
    assert PlanOrder(menu, req) == Ok(Plan(IntOf(req.userId), location, lines, totalAmount));

    var createdOrder, createdItems := Commit(db, IntOf(req.userId), totalAmount, Trim(location), lines, now);
    ResponseItemsFromFound(menu, items, createdOrder.id, old(db.nextOrderItemId), now);
    r := Ok(OrderView(createdOrder, ResponseItems(createdItems, found)));
  }

  /** Every order item written by an accepted request references the new order, and
      carries the requested id and quantity with the menu price at call time. */
  lemma PlacedItemsSnapshotPrices(menu: seq<MenuItem>, req: OrderRequest, orderId: int, firstId: int, now: Timestamp)
    requires MenuIdsDistinct(menu)
    requires PlanOrder(menu, req).Ok?
    ensures var rows := OrderItemRows(orderId, PlanOrder(menu, req).value.lines, firstId, now);
      && |rows| == |req.items.value|
      && forall k :: 0 <= k < |rows| ==>
        && rows[k].orderId == orderId
        && rows[k].menuItemId == IntOf(req.items.value[k].menuItemId)
        && rows[k].quantity == IntOf(req.items.value[k].quantity)
        && rows[k].price == FindMenuItem(menu, IntOf(req.items.value[k].menuItemId)).value.price
  {
  }

  // ---------------------------------------------------------------------------
  // GET /api/orders?userId=
  // ---------------------------------------------------------------------------

  /** The order items of one order, in table order, with their menu details. */
  function OrderItemViews(orderId: int, orderItems: seq<OrderItem>, menu: seq<MenuItem>): (r: seq<ItemView>)
    ensures var mine := Filter(orderItems, (it: OrderItem) => it.orderId == orderId);
      |r| == |mine| && forall k :: 0 <= k < |r| ==> r[k] == ItemViewOf(mine[k], menu)
  {
    ItemViews(Filter(orderItems, (it: OrderItem) => it.orderId == orderId), menu)
  }

  function OrdersOf(views: seq<OrderView>): (r: seq<Order>)
    ensures |r| == |views| && forall k :: 0 <= k < |r| ==> r[k] == views[k].order
  {
    seq(|views|, k requires 0 <= k < |views| => views[k].order)
  }

  /** `WHERE user_id = ? ORDER BY created_at DESC`: the customer's orders, newest first. */
  function UserOrderRows(orders: seq<Order>, userId: int): (r: seq<Order>)
    ensures NewestFirst(r)
    ensures multiset(r) == multiset(Filter(orders, (o: Order) => o.userId == userId))
    ensures forall k :: 0 <= k < |r| ==> r[k].userId == userId && r[k] in orders
  {
    var mine := Filter(orders, (o: Order) => o.userId == userId);
    SortedFrom(mine);
    SortNewestFirst(mine)
  }

  /** A customer's orders, newest first, each with exactly its own items. */
  function UserOrders(orders: seq<Order>, orderItems: seq<OrderItem>, menu: seq<MenuItem>, userId: int): (r: seq<OrderView>)
    ensures OrdersOf(r) == UserOrderRows(orders, userId)
    ensures forall k :: 0 <= k < |r| ==> r[k].items == OrderItemViews(r[k].order.id, orderItems, menu)
  {
    var rows := UserOrderRows(orders, userId);
    var r := seq(|rows|, k requires 0 <= k < |rows| => OrderView(rows[k], OrderItemViews(rows[k].id, orderItems, menu)));
    assert OrdersOf(r) == rows;
    r
  }

  /** `GET /api/orders?userId=`. */
  function Get(orders: seq<Order>, orderItems: seq<OrderItem>, menu: seq<MenuItem>, userId: Param): (r: Result<seq<OrderView>>)
    ensures r.Err? <==> !ValidQueryNumber(userId)
    ensures r.Err? ==> r.error == InvalidUserId
    ensures r.Ok? ==> r.value == UserOrders(orders, orderItems, menu, userId.n)
  {
    if !ValidQueryNumber(userId) then Err(InvalidUserId)
    else Ok(UserOrders(orders, orderItems, menu, userId.n))
  }
}
