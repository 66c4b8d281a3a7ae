/** The cart page's local state after the quantity buttons and the remove button: the
    request each one sends and how the shown lines change once the server answers. */
module CartPage {
  import opened Api
  import opened Seqs
  import opened CartRoute
  import opened CartTotals

  /** What one quantity change does: the quantity sent by `PUT /api/cart/{id}`, if a
      request is sent at all, and the lines shown afterwards. */
  datatype Update = Update(request: Option<int>, items: seq<CartLine>)

  /** `updateQuantity(itemId, newQuantity)`, where `ok` is whether the server
      accepted the change. */
  function UpdateQuantity(items: seq<CartLine>, itemId: int, newQuantity: int, ok: bool): Update
  {
    if newQuantity < 1 then Update(None, items)
    else if ok then
      Update(Some(newQuantity),
        seq(|items|, k requires 0 <= k < |items| =>
          if items[k].id == itemId then items[k].(quantity := newQuantity) else items[k]))
    else Update(Some(newQuantity), items)
  }

  /** A request is sent exactly when the new quantity is at least 1; the shown lines
      keep their order and every column but the quantity, and only the line with
      that id takes the new quantity, and only when the server accepted it. */
  lemma UpdateQuantityEffect(items: seq<CartLine>, itemId: int, newQuantity: int, ok: bool)
    ensures var u := UpdateQuantity(items, itemId, newQuantity, ok);
      && (u.request.Some? <==> newQuantity >= 1)
      && (u.request.Some? ==> u.request.value == newQuantity)
      && |u.items| == |items|
      && forall k :: 0 <= k < |items| ==>
        && u.items[k].(quantity := items[k].quantity) == items[k]
        && u.items[k].quantity ==
          if newQuantity >= 1 && ok && items[k].id == itemId then newQuantity else items[k].quantity
  {
  }

  predicate LineIdsDistinct(items: seq<CartLine>)
  {
    forall i, j :: 0 <= i < j < |items| ==> items[i].id != items[j].id
  }

  /** With distinct line ids, an accepted change moves the total by the line's price
      times the change in quantity. */
  lemma {:induction false} UpdateChangesTotal(items: seq<CartLine>, i: int, newQuantity: int)
    requires LineIdsDistinct(items) && 0 <= i < |items| && newQuantity >= 1
    ensures CalculateTotal(UpdateQuantity(items, items[i].id, newQuantity, true).items)
      == CalculateTotal(items) + items[i].menuItem.price * (newQuantity - items[i].quantity)
  {
    var line := items[i];
    var after := UpdateQuantity(items, line.id, newQuantity, true).items;
    forall k | 0 <= k < |items| ensures after[k] == items[i := line.(quantity := newQuantity)][k] {
      if k != i {
        assert items[k].id != line.id by {
          if k < i { assert items[k].id != items[i].id; } else { assert items[i].id != items[k].id; }
        }
      }
    }
    assert after == items[i := line.(quantity := newQuantity)];
    CalculateTotalIsSum(after);
    CalculateTotalIsSum(items);
    SumUpdate(items, i, line.(quantity := newQuantity));
  }

  /** `removeItem(itemId)`, where `ok` is whether the server deleted the row. */
  function RemoveItem(items: seq<CartLine>, itemId: int, ok: bool): seq<CartLine>
  {
    if ok then Filter(items, (line: CartLine) => line.id != itemId) else items
  }

  /** Once the server deleted the row, every line with that id and nothing else is
      gone, in the same order; otherwise nothing changes. */
  lemma RemoveItemEffect(items: seq<CartLine>, itemId: int, ok: bool)
    ensures var after := RemoveItem(items, itemId, ok);
      && IsSubsequence(after, items)
      && (forall line :: line in after <==> line in items && (ok ==> line.id != itemId))
      && (!ok ==> after == items)
  {
    if ok {
      FilterIsSubsequence(items, (line: CartLine) => line.id != itemId);
    } else {
      FilterKeepsAll(items, (line: CartLine) => true);
      FilterIsSubsequence(items, (line: CartLine) => true);
    }
  }

  /** With distinct line ids, removing a line takes its cost off the total. */
  lemma RemoveChangesTotal(items: seq<CartLine>, i: int)
    requires LineIdsDistinct(items) && 0 <= i < |items|
    ensures CalculateTotal(RemoveItem(items, items[i].id, true)) == CalculateTotal(items) - LineCost(items[i])
  {
    RemoveLeavesRest(items, i);
    CalculateTotalIsSum(RemoveItem(items, items[i].id, true));
    CalculateTotalIsSum(items);
    SumDrop(items, i);
  }

  /** With distinct line ids, removing line `i` leaves the lines before and after it. */
  lemma RemoveLeavesRest(items: seq<CartLine>, i: int)
    requires LineIdsDistinct(items) && 0 <= i < |items|
    ensures RemoveItem(items, items[i].id, true) == items[..i] + items[i + 1..]
  {
    var id := items[i].id;
    var keep := (line: CartLine) => line.id != id;
    var before, after := items[..i], items[i + 1..];
    assert items == before + ([items[i]] + after);
    FilterAppend(before, [items[i]] + after, keep);
    FilterAppend([items[i]], after, keep);
    forall k | 0 <= k < |before| ensures keep(before[k]) {
      assert before[k] == items[k];
    }
    forall k | 0 <= k < |after| ensures keep(after[k]) {
      assert after[k] == items[i + 1 + k];
    }
    FilterKeepsAll(before, keep);
    FilterKeepsAll(after, keep);
    assert Filter([items[i]], keep) == [];
  }

  /** The minus button: disabled while its line is updating or at quantity 1 or less. */
  predicate DecrementEnabled(line: CartLine, updating: Option<int>)
  {
    updating != Some(line.id) && line.quantity > 1
  }

  /** The plus button: disabled only while its line is updating. */
  predicate IncrementEnabled(line: CartLine, updating: Option<int>)
  {
    updating != Some(line.id)
  }

  /** An enabled minus button always sends a request, and for a quantity of at
      least 1; a quantity can never be lowered to 0 from the page. */
  lemma DecrementSendsPositive(items: seq<CartLine>, line: CartLine, updating: Option<int>, ok: bool)
    requires DecrementEnabled(line, updating)
    ensures var u := UpdateQuantity(items, line.id, line.quantity - 1, ok);
      u.request == Some(line.quantity - 1) && u.request.value >= 1
  {
  }

  /** The plus button on a line of positive quantity always sends one more. */
  lemma IncrementSendsOneMore(items: seq<CartLine>, line: CartLine, updating: Option<int>, ok: bool)
    requires IncrementEnabled(line, updating) && line.quantity >= 1
    ensures UpdateQuantity(items, line.id, line.quantity + 1, ok).request == Some(line.quantity + 1)
  {
  }
}
