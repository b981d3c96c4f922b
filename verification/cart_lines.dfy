/** The lines of one cart and the three ways the cart handlers change them:
    add to (or create) the line of an item, overwrite one line's quantity,
    delete one line. Lookups follow `.first()`: the earliest matching line. */
module CartLines {
  import opened Base
  import opened Models

  /** Index of the first line holding `id`, as `CartItem.query.filter_by(...).first()`. */
  function FindLine(lines: seq<CartLine>, id: int): (r: Option<nat>)
    ensures r.Some? ==> r.value < |lines| && lines[r.value].itemId == id
    ensures r.Some? ==> forall j :: 0 <= j < r.value ==> lines[j].itemId != id
    ensures r.None? <==> forall j :: 0 <= j < |lines| ==> lines[j].itemId != id
  {
    if lines == [] then None
    else if lines[0].itemId == id then Some(0)
    else match FindLine(lines[1..], id)
      case None => None
      case Some(k) => Some(k + 1)
  }

  /** The quantity on the line `FindLine` picks, 0 when there is none. */
  function Held(lines: seq<CartLine>, id: int): (r: int)
    ensures r != 0 ==> FindLine(lines, id).Some?
    ensures WellFormedCart(lines) ==> r >= 0
  {
    match FindLine(lines, id)
    case Some(k) => lines[k].quantity
    case None => 0
  }

  /** What one line contributes to the holding of `id`. */
  function Share(line: CartLine, id: int): int {
    if line.itemId == id then line.quantity else 0
  }

  /** Sum of the quantities of all lines holding `id`
      (`sum(ci.quantity for ci in cart.items if ci.item_id == item_id)`). */
  function QuantityOf(lines: seq<CartLine>, id: int): (r: int)
    ensures (forall i :: 0 <= i < |lines| ==> lines[i].quantity >= 0) ==> r >= 0
    decreases |lines|
  {
    if lines == [] then 0
    else QuantityOf(lines[..|lines| - 1], id) + Share(lines[|lines| - 1], id)
  }

  lemma {:induction false} QuantityOfConcat(a: seq<CartLine>, b: seq<CartLine>, id: int)
    ensures QuantityOf(a + b, id) == QuantityOf(a, id) + QuantityOf(b, id)
    decreases |b|
  {
    if b == [] {
      assert a + b == a;
    } else {
      var b' := b[..|b| - 1];
      assert (a + b)[..|a + b| - 1] == a + b';
      QuantityOfConcat(a, b', id);
    }
  }

  lemma {:induction false} QuantityOfAbsent(lines: seq<CartLine>, id: int)
    requires forall j :: 0 <= j < |lines| ==> lines[j].itemId != id
    ensures QuantityOf(lines, id) == 0
    decreases |lines|
  {
    if lines != [] {
      QuantityOfAbsent(lines[..|lines| - 1], id);
    }
  }

  /** The holding of any item splits around line `k`. */
  lemma QuantityOfAround(lines: seq<CartLine>, k: nat, id: int)
    requires k < |lines|
    ensures QuantityOf(lines, id) ==
            QuantityOf(lines[..k], id) + Share(lines[k], id) + QuantityOf(lines[k + 1..], id)
  {
    assert lines == lines[..k] + [lines[k]] + lines[k + 1..];
    QuantityOfConcat(lines[..k] + [lines[k]], lines[k + 1..], id);
    QuantityOfConcat(lines[..k], [lines[k]], id);
    assert [lines[k]][..0] == [];
  }

  /** In a well-formed cart the line found is the whole holding of its item,
      so the sum `update_cart` computes equals that line's quantity. */
  lemma HeldIsWholeHolding(lines: seq<CartLine>, id: int)
    requires WellFormedCart(lines)
    ensures Held(lines, id) == QuantityOf(lines, id)
  {
    match FindLine(lines, id)
    case None =>
      QuantityOfAbsent(lines, id);
    case Some(k) =>
      QuantityOfAround(lines, k, id);
      QuantityOfAbsent(lines[..k], id);
      QuantityOfAbsent(lines[k + 1..], id);
  }

  lemma QuantityOfReplace(lines: seq<CartLine>, k: nat, line: CartLine)
    requires k < |lines|
    ensures forall id :: QuantityOf(lines[k := line], id) ==
                         QuantityOf(lines, id) - Share(lines[k], id) + Share(line, id)
  {
    var r := lines[k := line];
    assert r[..k] == lines[..k] && r[k + 1..] == lines[k + 1..];
    forall id ensures QuantityOf(r, id) == QuantityOf(lines, id) - Share(lines[k], id) + Share(line, id) {
      QuantityOfAround(lines, k, id);
      QuantityOfAround(r, k, id);
    }
  }

  lemma QuantityOfAppend(lines: seq<CartLine>, line: CartLine)
    ensures forall id :: QuantityOf(lines + [line], id) == QuantityOf(lines, id) + Share(line, id)
  {
    assert (lines + [line])[..|lines|] == lines;
  }

  lemma QuantityOfRemove(lines: seq<CartLine>, k: nat)
    requires k < |lines|
    ensures forall id :: QuantityOf(lines[..k] + lines[k + 1..], id) ==
                         QuantityOf(lines, id) - Share(lines[k], id)
  {
    forall id ensures QuantityOf(lines[..k] + lines[k + 1..], id) == QuantityOf(lines, id) - Share(lines[k], id) {
      QuantityOfAround(lines, k, id);
      QuantityOfConcat(lines[..k], lines[k + 1..], id);
    }
  }

  /** `FindLine` reports `k` when line `k` holds `id` and no earlier line does. */
  lemma FindLineAt(lines: seq<CartLine>, k: nat, id: int)
    requires k < |lines| && lines[k].itemId == id
    requires forall j :: 0 <= j < k ==> lines[j].itemId != id
    ensures FindLine(lines, id) == Some(k)
  {
  }

  /** Replacing line `k` by a line of the same item keeps `FindLine`'s answer. */
  lemma FindLineKept(lines: seq<CartLine>, k: nat, line: CartLine)
    requires k < |lines| && line.itemId == lines[k].itemId
    ensures FindLine(lines[k := line], line.itemId) == FindLine(lines, line.itemId)
  {
    var id := line.itemId;
    match FindLine(lines, id)
    case Some(j) =>
      FindLineAt(lines[k := line], j, id);
    case None =>
  }

  /** Add `n` to the line of `id`, or append a line of `n` when there is
      none (`cart_item.quantity += n`, or a new `CartItem`). */
  function Increment(lines: seq<CartLine>, id: int, n: int): (r: seq<CartLine>)
    ensures |lines| <= |r| <= |lines| + 1
    ensures forall i :: 0 <= i < |lines| && lines[i].itemId != id ==> r[i] == lines[i]
    ensures Held(r, id) == Held(lines, id) + n
    ensures QuantityOf(r, id) == QuantityOf(lines, id) + n
    ensures forall other :: other != id ==> QuantityOf(r, other) == QuantityOf(lines, other)
    ensures WellFormedCart(lines) && n >= 1 ==> WellFormedCart(r)
  {
    match FindLine(lines, id)
    case Some(k) =>
      var line := CartLine(id, lines[k].quantity + n);
      QuantityOfReplace(lines, k, line);
      FindLineAt(lines[k := line], k, id);
      lines[k := line]
    case None =>
      var line := CartLine(id, n);
      QuantityOfAppend(lines, line);
      FindLineAt(lines + [line], |lines|, id);
      lines + [line]
  }

  /** Overwrite the quantity of line `k` (`cart_item.quantity = q`). */
  function SetQuantity(lines: seq<CartLine>, k: nat, q: int): (r: seq<CartLine>)
    requires k < |lines|
    ensures |r| == |lines| && r[k].itemId == lines[k].itemId
    ensures forall i :: 0 <= i < |lines| && i != k ==> r[i] == lines[i]
    ensures QuantityOf(r, lines[k].itemId) == QuantityOf(lines, lines[k].itemId) - lines[k].quantity + q
    ensures forall other :: other != lines[k].itemId ==> QuantityOf(r, other) == QuantityOf(lines, other)
    ensures FindLine(lines, lines[k].itemId) == Some(k) ==> Held(r, lines[k].itemId) == q
    ensures WellFormedCart(lines) && q >= 1 ==> WellFormedCart(r)
  {
    var line := CartLine(lines[k].itemId, q);
    QuantityOfReplace(lines, k, line);
    FindLineKept(lines, k, line);
    lines[k := line]
  }

  /** Delete line `k` (`db.session.delete(cart_item)`); the other lines keep
      their order. */
  function RemoveAt(lines: seq<CartLine>, k: nat): (r: seq<CartLine>)
    requires k < |lines|
    ensures |r| == |lines| - 1
    ensures forall i :: 0 <= i < |r| ==> r[i] == lines[if i < k then i else i + 1]
    ensures QuantityOf(r, lines[k].itemId) == QuantityOf(lines, lines[k].itemId) - lines[k].quantity
    ensures forall other :: other != lines[k].itemId ==> QuantityOf(r, other) == QuantityOf(lines, other)
    ensures WellFormedCart(lines) ==> WellFormedCart(r) && FindLine(r, lines[k].itemId).None?
  {
    QuantityOfRemove(lines, k);
    lines[..k] + lines[k + 1..]
  }
}
