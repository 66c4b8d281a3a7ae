/** The order total the cart and checkout pages show beside the cart they fetched. */
module CartTotals {
  import opened CartRoute

  /** One line's share: the joined menu price times the quantity. */
  function LineCost(line: CartLine): int
  {
    line.menuItem.price * line.quantity
  }

  /** `reduce((total, item) => total + price * quantity, total)`, left to right. */
  function Reduce(lines: seq<CartLine>, total: int): int
  {
    if lines == [] then total else Reduce(lines[1..], total + LineCost(lines[0]))
  }

  /** `calculateTotal`: the fold started from 0. */
  function CalculateTotal(lines: seq<CartLine>): int
  {
    Reduce(lines, 0)
  }

  /** The reference total: the sum of the line costs. */
  function Sum(lines: seq<CartLine>): int
  {
    if lines == [] then 0 else LineCost(lines[0]) + Sum(lines[1..])
  }

  /** The fold from `total` adds the sum of the lines to `total`. */
  lemma {:induction false} ReduceIsSum(lines: seq<CartLine>, total: int)
    ensures Reduce(lines, total) == total + Sum(lines)
  {
    if lines != [] {
      ReduceIsSum(lines[1..], total + LineCost(lines[0]));
    }
  }

  lemma CalculateTotalIsSum(lines: seq<CartLine>)
    ensures CalculateTotal(lines) == Sum(lines)
  {
    ReduceIsSum(lines, 0);
  }

  lemma {:induction false} SumAppend(a: seq<CartLine>, b: seq<CartLine>)
    ensures Sum(a + b) == Sum(a) + Sum(b)
  {
    if a == [] {
      assert a + b == b;
    } else {
      assert (a + b)[1..] == a[1..] + b;
      SumAppend(a[1..], b);
    }
  }

  /** Replacing one line replaces its cost in the sum. */
  lemma {:induction false} SumUpdate(lines: seq<CartLine>, i: int, line: CartLine)
    requires 0 <= i < |lines|
    ensures Sum(lines[i := line]) == Sum(lines) - LineCost(lines[i]) + LineCost(line)
  {
    if i == 0 {
      assert lines[0 := line][1..] == lines[1..];
    } else {
      assert lines[i := line][1..] == lines[1..][i - 1 := line];
      SumUpdate(lines[1..], i - 1, line);
    }
  }

  /** Dropping one line drops its cost from the sum. */
  lemma {:induction false} SumDrop(lines: seq<CartLine>, i: int)
    requires 0 <= i < |lines|
    ensures Sum(lines[..i] + lines[i + 1..]) == Sum(lines) - LineCost(lines[i])
  {
    var rest := lines[..i] + lines[i + 1..];
    if i == 0 {
      assert rest == lines[1..];
    } else {
      var tail := lines[1..];
      assert rest[0] == lines[0];
      assert rest[1..] == tail[..i - 1] + tail[i..];
      assert tail[i - 1] == lines[i];
      SumDrop(tail, i - 1);
    }
  }

  /** The total of a cart is the total of any split of it. */
  lemma CalculateTotalAppend(a: seq<CartLine>, b: seq<CartLine>)
    ensures CalculateTotal(a + b) == CalculateTotal(a) + CalculateTotal(b)
  {
    CalculateTotalIsSum(a + b);
    CalculateTotalIsSum(a);
    CalculateTotalIsSum(b);
    SumAppend(a, b);
  }

  /** Prices and quantities that are not negative give a total that is not negative. */
  lemma {:induction false} SumNonNegative(lines: seq<CartLine>)
    requires forall k :: 0 <= k < |lines| ==> lines[k].menuItem.price >= 0 && lines[k].quantity >= 0
    ensures Sum(lines) >= 0
  {
    if lines != [] {
      assert forall k :: 0 <= k < |lines[1..]| ==> lines[1..][k] == lines[k + 1];
      SumNonNegative(lines[1..]);
    }
  }

  lemma CalculateTotalNonNegative(lines: seq<CartLine>)
    requires forall k :: 0 <= k < |lines| ==> lines[k].menuItem.price >= 0 && lines[k].quantity >= 0
    ensures CalculateTotal(lines) >= 0
  {
    CalculateTotalIsSum(lines);
    SumNonNegative(lines);
  }
}
