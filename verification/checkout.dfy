/** Converting a cart into an order (the `checkout` handler and the cart
    total). The handler walks the lines once, copying each into an order line
    and taking its quantity off the item's stock inside the open database
    session; the first stock that drops below zero rolls the whole session
    back. `Drain` is that walk as a function, `CheckoutOf` the outcome of the
    handler, `WalkLines` the loop itself and `PlaceOrder` the handler up to
    the commit. */
module Ordering {
  import opened Base
  import opened Models
  import opened CartLines

  /** Every line names an item that still exists. A deleted item leaves its
      lines behind, and reading `cart_item.item.price` on them raises. */
  predicate Resolved(lines: seq<CartLine>, items: map<int, Item>) {
    forall i :: 0 <= i < |lines| ==> lines[i].itemId in items
  }

  lemma ResolvedPrefix(lines: seq<CartLine>, items: map<int, Item>, k: nat)
    requires Resolved(lines, items) && k <= |lines|
    ensures Resolved(lines[..k], items)
  {
    assert forall i :: 0 <= i < k ==> lines[..k][i] == lines[i];
  }

  /** `sum(item.item.price * item.quantity for item in cart_items)`, at the
      items' current prices. */
  function Total(lines: seq<CartLine>, items: map<int, Item>): (r: int)
    requires Resolved(lines, items)
    ensures (forall i :: 0 <= i < |lines| ==> lines[i].quantity >= 0 && items[lines[i].itemId].price >= 0) ==> r >= 0
    decreases |lines|
  {
    if lines == [] then 0
    else
      var last := lines[|lines| - 1];
      ResolvedPrefix(lines, items, |lines| - 1);
      Total(lines[..|lines| - 1], items) + items[last.itemId].price * last.quantity
  }

  /** The order lines checkout writes: one per cart line, with the line's
      quantity and the item's price at that moment. */
  function Capture(lines: seq<CartLine>, items: map<int, Item>): (r: seq<OrderLine>)
    requires Resolved(lines, items)
    ensures |r| == |lines|
    ensures forall i :: 0 <= i < |lines| ==>
              r[i] == OrderLine(lines[i].itemId, lines[i].quantity, items[lines[i].itemId].price)
    decreases |lines|
  {
    if lines == [] then []
    else
      var last := lines[|lines| - 1];
      ResolvedPrefix(lines, items, |lines| - 1);
      Capture(lines[..|lines| - 1], items) + [OrderLine(last.itemId, last.quantity, items[last.itemId].price)]
  }

  /** The amount an order's own lines add up to. */
  function LinesTotal(lines: seq<OrderLine>): int
    decreases |lines|
  {
    if lines == [] then 0
    else LinesTotal(lines[..|lines| - 1]) + lines[|lines| - 1].price * lines[|lines| - 1].quantity
  }

  /** The total stored on an order equals the sum over the order lines stored
      with it. */
  lemma {:induction false} TotalMatchesOrderLines(lines: seq<CartLine>, items: map<int, Item>)
    requires Resolved(lines, items)
    ensures Total(lines, items) == LinesTotal(Capture(lines, items))
    decreases |lines|
  {
    if lines != [] {
      var n := |lines| - 1;
      ResolvedPrefix(lines, items, n);
      TotalMatchesOrderLines(lines[..n], items);
      var c := Capture(lines, items);
      assert c[..n] == Capture(lines[..n], items);
    }
  }

  /** Result of walking the lines: the item table after every decrement, or
      the index of the first line whose decrement drove a stock negative. */
  datatype DrainResult = Debited(after: map<int, Item>) | Short(index: nat)

  function Drain(items: map<int, Item>, lines: seq<CartLine>): (r: DrainResult)
    requires Resolved(lines, items)
    ensures r.Short? ==> r.index < |lines|
    ensures r.Debited? ==> r.after.Keys == items.Keys
    decreases |lines|
  {
    if lines == [] then Debited(items)
    else
      var last := lines[|lines| - 1];
      ResolvedPrefix(lines, items, |lines| - 1);
      match Drain(items, lines[..|lines| - 1])
      case Short(k) => Short(k)
      case Debited(m) =>
        var left := m[last.itemId].stock - last.quantity;
        if left < 0 then Short(|lines| - 1)
        else Debited(m[last.itemId := m[last.itemId].(stock := left)])
  }

  /** The walk changes stock and nothing else of any item. */
  lemma {:induction false} DrainKeepsOtherFields(items: map<int, Item>, lines: seq<CartLine>)
    requires Resolved(lines, items)
    requires Drain(items, lines).Debited?
    ensures forall id :: id in items ==>
              Drain(items, lines).after[id] == items[id].(stock := Drain(items, lines).after[id].stock)
    decreases |lines|
  {
    if lines != [] {
      var n := |lines| - 1;
      ResolvedPrefix(lines, items, n);
      DrainKeepsOtherFields(items, lines[..n]);
    }
  }

  /** After a complete walk each item has lost exactly its cart holding. */
  lemma {:induction false} DrainStock(items: map<int, Item>, lines: seq<CartLine>)
    requires Resolved(lines, items)
    requires Drain(items, lines).Debited?
    ensures forall id :: id in items ==>
              Drain(items, lines).after[id].stock == items[id].stock - QuantityOf(lines, id)
    decreases |lines|
  {
    if lines != [] {
      var n := |lines| - 1;
      ResolvedPrefix(lines, items, n);
      DrainStock(items, lines[..n]);
    }
  }

  /** After a complete walk every item the cart touched has stock >= 0. */
  lemma {:induction false} DrainLeavesTouchedNonNegative(items: map<int, Item>, lines: seq<CartLine>)
    requires Resolved(lines, items)
    requires Drain(items, lines).Debited?
    ensures forall i :: 0 <= i < |lines| ==> Drain(items, lines).after[lines[i].itemId].stock >= 0
    decreases |lines|
  {
    if lines != [] {
      var n := |lines| - 1;
      var p, last := lines[..n], lines[n];
      ResolvedPrefix(lines, items, n);
      if Drain(items, p).Debited? {
        DrainLeavesTouchedNonNegative(items, p);
        var m := Drain(items, p).after;
        var after := Drain(items, lines).after;
        assert after == m[last.itemId := m[last.itemId].(stock := m[last.itemId].stock - last.quantity)];
        forall i | 0 <= i < |lines| ensures after[lines[i].itemId].stock >= 0 {
          if lines[i].itemId != last.itemId {
            assert i < n && p[i] == lines[i];
          }
        }
      }
    }
  }

  /** Some item is held, across all of the cart's lines, beyond its stock. */
  ghost predicate Oversold(lines: seq<CartLine>, items: map<int, Item>)
    requires Resolved(lines, items)
  {
    exists i :: 0 <= i < |lines| && QuantityOf(lines, lines[i].itemId) > items[lines[i].itemId].stock
  }

  /** The walk stops short exactly when some item's cumulative quantity over
      the cart exceeds its stock (line quantities are never negative). */
  lemma {:induction false} DrainShortIffOversold(items: map<int, Item>, lines: seq<CartLine>)
    requires Resolved(lines, items)
    requires forall i :: 0 <= i < |lines| ==> lines[i].quantity >= 0
    ensures Drain(items, lines).Short? <==> Oversold(lines, items)
    decreases |lines|
  {
    if lines != [] {
      var n := |lines| - 1;
      var p, last := lines[..n], lines[n];
      ResolvedPrefix(lines, items, n);
      assert forall i :: 0 <= i < n ==> p[i] == lines[i];
      DrainShortIffOversold(items, p);
      match Drain(items, p)
      case Short(_) =>
        var i :| 0 <= i < n && QuantityOf(p, p[i].itemId) > items[p[i].itemId].stock;
        assert QuantityOf(lines, lines[i].itemId) >= QuantityOf(p, p[i].itemId);
      case Debited(m) =>
        DrainStock(items, p);
        if Drain(items, lines).Short? {
          assert QuantityOf(lines, last.itemId) > items[last.itemId].stock;
        } else {
          forall i | 0 <= i < |lines|
            ensures QuantityOf(lines, lines[i].itemId) <= items[lines[i].itemId].stock
          {
            if lines[i].itemId != last.itemId {
              assert i < n;
            }
          }
        }
    }
  }

  /** A stopped walk stays stopped when more lines follow. */
  lemma {:induction false} DrainShortPersists(items: map<int, Item>, lines: seq<CartLine>, j: nat)
    requires Resolved(lines, items) && j <= |lines|
    requires Resolved(lines[..j], items) && Drain(items, lines[..j]).Short?
    ensures Drain(items, lines) == Drain(items, lines[..j])
    decreases |lines|
  {
    if j < |lines| {
      var n := |lines| - 1;
      ResolvedPrefix(lines, items, n);
      assert lines[..n][..j] == lines[..j];
      DrainShortPersists(items, lines[..n], j);
    } else {
      assert lines[..j] == lines;
    }
  }

  /** Line `j` is where the walk drives its item's stock negative: that
      item's running quantity over the lines up to and including `j` exceeds
      its stock. */
  ghost predicate FailsAt(lines: seq<CartLine>, items: map<int, Item>, j: int)
    requires Resolved(lines, items)
  {
    0 <= j < |lines| && QuantityOf(lines[..j + 1], lines[j].itemId) > items[lines[j].itemId].stock
  }

  /** Line `k` is the first line where the walk fails. */
  ghost predicate FirstFailure(lines: seq<CartLine>, items: map<int, Item>, k: int)
    requires Resolved(lines, items)
  {
    FailsAt(lines, items, k) && forall j :: 0 <= j < k ==> !FailsAt(lines, items, j)
  }

  /** Whether line `j` fails does not depend on the lines after it. */
  lemma FailsAtPrefix(lines: seq<CartLine>, items: map<int, Item>, n: nat, j: int)
    requires Resolved(lines, items) && n <= |lines| && 0 <= j < n
    requires Resolved(lines[..n], items)
    ensures FailsAt(lines[..n], items, j) <==> FailsAt(lines, items, j)
  {
    assert lines[..n][..j + 1] == lines[..j + 1];
  }

  /** Once the lines before it are debited, the last line stops the walk
      exactly when it fails. */
  lemma DrainLastLine(items: map<int, Item>, lines: seq<CartLine>)
    requires Resolved(lines, items) && lines != []
    requires Resolved(lines[..|lines| - 1], items) && Drain(items, lines[..|lines| - 1]).Debited?
    ensures Drain(items, lines).Short? <==> FailsAt(lines, items, |lines| - 1)
    ensures Drain(items, lines).Short? ==> Drain(items, lines).index == |lines| - 1
  {
    var n := |lines| - 1;
    var p, last := lines[..n], lines[n];
    var m := Drain(items, p).after;
    DrainStock(items, p);
    assert lines[..n + 1] == lines;
    assert m[last.itemId].stock - last.quantity == items[last.itemId].stock - QuantityOf(lines, last.itemId);
  }

  /** The walk stops at the first line whose running decrement drives its
      item's stock negative, and completes exactly when no line does. */
  lemma {:induction false} DrainStopsAtFirstFailure(items: map<int, Item>, lines: seq<CartLine>)
    requires Resolved(lines, items)
    ensures Drain(items, lines).Short? ==> FirstFailure(lines, items, Drain(items, lines).index)
    ensures Drain(items, lines).Debited? ==> forall j :: 0 <= j < |lines| ==> !FailsAt(lines, items, j)
    decreases |lines|
  {
    if lines != [] {
      var n := |lines| - 1;
      var p := lines[..n];
      ResolvedPrefix(lines, items, n);
      DrainStopsAtFirstFailure(items, p);
      forall j | 0 <= j < n
        ensures FailsAt(p, items, j) <==> FailsAt(lines, items, j)
      {
        FailsAtPrefix(lines, items, n, j);
      }
      if Drain(items, p).Short? {
        assert Drain(items, lines) == Drain(items, p);
      } else {
        DrainLastLine(items, lines);
      }
    }
  }

  /** Only one line can be the first failure. */
  lemma FirstFailureUnique(lines: seq<CartLine>, items: map<int, Item>, k1: int, k2: int)
    requires Resolved(lines, items)
    requires FirstFailure(lines, items, k1) && FirstFailure(lines, items, k2)
    ensures k1 == k2
  {
  }

  datatype CheckoutResult =
    | EmptyCart                       // no cart, or a cart without lines
    | ItemGone                        // a line names a deleted item: the handler raises
    | NotEnoughStock(itemId: int)     // rolled back at this line's item
    | Placed(order: Order, after: map<int, Item>)

  /** What `checkout` does to the item table and which order it writes. */
  function CheckoutOf(items: map<int, Item>, lines: seq<CartLine>, user: nat): (r: CheckoutResult)
    ensures r.EmptyCart? <==> lines == []
    ensures r.ItemGone? <==> lines != [] && !Resolved(lines, items)
    ensures r.NotEnoughStock? ==>
              Resolved(lines, items) && exists k :: FirstFailure(lines, items, k) && lines[k].itemId == r.itemId
    ensures r.Placed? ==>
              && r.order.userId == user && r.order.status == DefaultStatus
              && |r.order.lines| == |lines|
              && r.order.total == LinesTotal(r.order.lines)
              && r.after.Keys == items.Keys
  {
    if lines == [] then EmptyCart
    else if !Resolved(lines, items) then ItemGone
    else match Drain(items, lines)
      case Short(k) =>
        DrainStopsAtFirstFailure(items, lines);
        NotEnoughStock(lines[k].itemId)
      case Debited(m) =>
        TotalMatchesOrderLines(lines, items);
        Placed(Order(user, Capture(lines, items), Total(lines, items), DefaultStatus), m)
  }

  /** Checkout commits exactly when the cart is non-empty, names live items
      and holds no item beyond its stock; the per-customer cap plays no part. */
  lemma CheckoutCommitsIff(items: map<int, Item>, lines: seq<CartLine>, user: nat)
    requires forall i :: 0 <= i < |lines| ==> lines[i].quantity >= 0
    ensures CheckoutOf(items, lines, user).Placed? <==>
              lines != [] && Resolved(lines, items) && !Oversold(lines, items)
    ensures CheckoutOf(items, lines, user).NotEnoughStock? <==>
              lines != [] && Resolved(lines, items) && Oversold(lines, items)
  {
    if lines != [] && Resolved(lines, items) {
      DrainShortIffOversold(items, lines);
    }
  }

  /** A committed checkout writes one order for `user` with status
      Processing, one order line per cart line at the current price, a total
      equal to the sum of those lines, and takes each item's cart holding off
      its stock, leaving every touched stock non-negative and every other
      field of every item as it was. */
  lemma CheckoutCommitEffects(items: map<int, Item>, lines: seq<CartLine>, user: nat)
    requires CheckoutOf(items, lines, user).Placed?
    ensures var r := CheckoutOf(items, lines, user);
      && r.order.userId == user
      && r.order.status == "Processing"
      && |r.order.lines| == |lines|
      && (forall i :: 0 <= i < |lines| ==>
            r.order.lines[i] == OrderLine(lines[i].itemId, lines[i].quantity, items[lines[i].itemId].price))
      && r.order.total == LinesTotal(r.order.lines)
      && r.after.Keys == items.Keys
      && (forall id :: id in items ==>
            r.after[id] == items[id].(stock := items[id].stock - QuantityOf(lines, id)))
      && (forall i :: 0 <= i < |lines| ==> r.after[lines[i].itemId].stock >= 0)
  {
    TotalMatchesOrderLines(lines, items);
    DrainKeepsOtherFields(items, lines);
    DrainStock(items, lines);
    DrainLeavesTouchedNonNegative(items, lines);
  }

  /** Two item tables with the same item ids and the same price for each. */
  ghost predicate SamePrices(a: map<int, Item>, b: map<int, Item>) {
    && a.Keys == b.Keys
    && forall id :: id in a ==> a[id].price == b[id].price
  }

  /** Two item tables with the same item ids and the same stock for each. */
  ghost predicate SameStocks(a: map<int, Item>, b: map<int, Item>) {
    && a.Keys == b.Keys
    && forall id :: id in a ==> a[id].stock == b[id].stock
  }

  /** The order lines and the total read prices only. */
  lemma {:induction false} CaptureReadsPriceOnly(a: map<int, Item>, b: map<int, Item>, lines: seq<CartLine>)
    requires SamePrices(a, b) && Resolved(lines, a)
    ensures Resolved(lines, b)
    ensures Capture(lines, a) == Capture(lines, b)
    ensures Total(lines, a) == Total(lines, b)
    decreases |lines|
  {
    if lines != [] {
      var n := |lines| - 1;
      ResolvedPrefix(lines, a, n);
      CaptureReadsPriceOnly(a, b, lines[..n]);
    }
  }

  /** The walk reads stocks only: two catalogues with the same stocks both
      refuse at the same line, or both complete with the same stocks. */
  lemma {:induction false} DrainStopsAlike(a: map<int, Item>, b: map<int, Item>, lines: seq<CartLine>)
    requires SameStocks(a, b) && Resolved(lines, a)
    ensures Resolved(lines, b)
    ensures Drain(a, lines).Short? <==> Drain(b, lines).Short?
    ensures Drain(a, lines).Short? ==> Drain(a, lines) == Drain(b, lines)
    ensures Drain(a, lines).Debited? ==>
              forall id :: id in a ==> Drain(a, lines).after[id].stock == Drain(b, lines).after[id].stock
    decreases |lines|
  {
    if lines != [] {
      var n := |lines| - 1;
      var p, last := lines[..n], lines[n];
      ResolvedPrefix(lines, a, n);
      DrainStopsAlike(a, b, p);
      assert Resolved(lines, b);
      if Drain(a, p).Short? {
        assert Drain(a, lines) == Drain(a, p) && Drain(b, lines) == Drain(b, p);
      } else {
        assert lines[..n + 1] == lines;
        DrainStep(a, lines, n, Drain(a, p).after);
        DrainStep(b, lines, n, Drain(b, p).after);
      }
    }
  }

  /** Checkout reads only stock and price: changing an item's
      `max_per_customer` cannot change whether checkout commits or is refused
      for stock, the item a refusal names, the order it writes, or the stocks
      it leaves. */
  lemma CheckoutIgnoresCap(items: map<int, Item>, lines: seq<CartLine>, user: nat, id: int, cap: Option<int>)
    requires id in items
    ensures var capped := items[id := items[id].(maxPerCustomer := cap)];
      && (CheckoutOf(capped, lines, user).Placed? <==> CheckoutOf(items, lines, user).Placed?)
      && (CheckoutOf(capped, lines, user).NotEnoughStock? <==> CheckoutOf(items, lines, user).NotEnoughStock?)
      && (CheckoutOf(items, lines, user).NotEnoughStock? ==>
            CheckoutOf(capped, lines, user) == CheckoutOf(items, lines, user))
      && (CheckoutOf(items, lines, user).Placed? ==>
            && CheckoutOf(capped, lines, user).order == CheckoutOf(items, lines, user).order
            && forall x :: x in items ==>
                 CheckoutOf(capped, lines, user).after[x].stock == CheckoutOf(items, lines, user).after[x].stock)
  {
    var capped := items[id := items[id].(maxPerCustomer := cap)];
    assert SamePrices(items, capped) && SameStocks(items, capped);
    if lines != [] && Resolved(lines, items) {
      CaptureReadsPriceOnly(items, capped, lines);
      DrainStopsAlike(items, capped, lines);
    }
  }

  /** One more line of the walk: its item's stock is decremented, and the
      walk stops there when the result is negative. */
  lemma DrainStep(items: map<int, Item>, lines: seq<CartLine>, k: nat, session: map<int, Item>)
    requires Resolved(lines, items) && k < |lines|
    requires Resolved(lines[..k], items) && Drain(items, lines[..k]) == Debited(session)
    ensures Resolved(lines[..k + 1], items)
    ensures lines[k].itemId in session
    ensures var line := lines[k];
            var left := session[line.itemId].stock - line.quantity;
            Drain(items, lines[..k + 1]) ==
              if left < 0 then Short(k)
              else Debited(session[line.itemId := session[line.itemId].(stock := left)])
  {
    ResolvedPrefix(lines, items, k + 1);
    assert lines[..k + 1][..k] == lines[..k];
  }

  /** One more line of the capture: its order line is appended. */
  lemma CaptureStep(items: map<int, Item>, lines: seq<CartLine>, k: nat)
    requires Resolved(lines, items) && k < |lines|
    requires Resolved(lines[..k], items)
    ensures Resolved(lines[..k + 1], items)
    ensures Capture(lines[..k + 1], items) ==
            Capture(lines[..k], items) + [OrderLine(lines[k].itemId, lines[k].quantity, items[lines[k].itemId].price)]
  {
    ResolvedPrefix(lines, items, k + 1);
    assert lines[..k + 1][..k] == lines[..k];
  }

  /** The `checkout` handler's loop over the cart lines, run on a copy of
      the item table that stands for the uncommitted session: each line is
      copied into an order line at the session's price and its quantity is
      taken off the item's stock; the first stock below zero stops it. */
  method WalkLines(items: map<int, Item>, lines: seq<CartLine>) returns (r: DrainResult, captured: seq<OrderLine>)
    requires Resolved(lines, items)
    ensures r == Drain(items, lines)
    ensures r.Debited? ==> captured == Capture(lines, items)
  {
    var session := items;
    captured := [];
    for k := 0 to |lines|
      invariant Resolved(lines[..k], items)
      invariant Drain(items, lines[..k]) == Debited(session)
      invariant captured == Capture(lines[..k], items)
    {
      DrainStep(items, lines, k, session);
      CaptureStep(items, lines, k);
      DrainKeepsOtherFields(items, lines[..k]);
      var line := lines[k];
      var item := session[line.itemId];
      captured := captured + [OrderLine(line.itemId, line.quantity, item.price)];
      session := session[line.itemId := item.(stock := item.stock - line.quantity)];
      if session[line.itemId].stock < 0 {
        DrainShortPersists(items, lines, k + 1);
        return Short(k), captured;
      }
    }
    assert lines[..|lines|] == lines;
    r := Debited(session);
  }

  /** `checkout` up to the commit: the empty-cart check, the total, the
      walk, and the order it builds. */
  method PlaceOrder(items: map<int, Item>, lines: seq<CartLine>, user: nat) returns (r: CheckoutResult)
    ensures r == CheckoutOf(items, lines, user)
  {
    if lines == [] {
      return EmptyCart;
    }
    if !Resolved(lines, items) {
      return ItemGone;
    }
    var total := Total(lines, items);
    var walk, captured := WalkLines(items, lines);
    if walk.Short? {
      return NotEnoughStock(lines[walk.index].itemId);
    }
    r := Placed(Order(user, captured, total, DefaultStatus), walk.after);
  }
}
