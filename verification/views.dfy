/** The shop's cart and checkout handlers (app/views.py) as operations on
    the store. Each handler becomes a method over `Store` that returns the
    outcome the handler reports; flash messages, redirects and JSON bodies
    are reduced to that outcome. */
module Views {
  import opened Base
  import opened Models
  import opened CartLines
  import opened Ordering

  // ---------------------------------------------------------------------
  // allowed_file

  const AllowedExtensions: set<string> := {"png", "jpg", "jpeg", "gif"}

  /** Lowering of the ASCII letters A-Z only. `str.lower()` also lowers
      every other cased letter, and a few characters (U+0130) lower to two;
      none of those lowers to text that could complete an allowed
      extension. */
  function AsciiLower(c: char): char {
    if 'A' <= c <= 'Z' then (c as int + 32) as char else c
  }

  function Lower(s: string): (r: string)
    ensures |r| == |s|
    ensures forall i :: 0 <= i < |s| ==> r[i] == AsciiLower(s[i])
  {
    if s == [] then [] else [AsciiLower(s[0])] + Lower(s[1..])
  }

  /** Position of the last dot, where `rsplit('.', 1)` cuts. */
  function LastDot(s: string): (r: Option<nat>)
    ensures r.None? <==> '.' !in s
    ensures r.Some? ==> r.value < |s| && s[r.value] == '.' && '.' !in s[r.value + 1..]
    decreases |s|
  {
    if s == [] then None
    else if s[|s| - 1] == '.' then Some(|s| - 1)
    else
      var p := s[..|s| - 1];
      match LastDot(p)
      case None =>
        assert s == p + [s[|s| - 1]];
        None
      case Some(i) =>
        assert s[i + 1..] == p[i + 1..] + [s[|s| - 1]];
        Some(i)
  }

  /** `allowed_file`: the name has a dot and the lower-cased text after the
      last dot is an allowed extension. */
  function AllowedFile(filename: string): (ok: bool)
    ensures ok ==> '.' in filename
  {
    match LastDot(filename)
    case None => false
    case Some(i) => Lower(filename[i + 1..]) in AllowedExtensions
  }

  /** `s[i]` is a dot with no dot after it. */
  predicate IsLastDot(s: string, i: int) {
    0 <= i < |s| && s[i] == '.' && '.' !in s[i + 1..]
  }

  /** Only one dot can have no dot after it. */
  lemma LastDotUnique(s: string, i: nat, j: nat)
    requires IsLastDot(s, i) && IsLastDot(s, j)
    ensures i == j
  {
  }

  /** Any dot with no dot after it is where `allowed_file` cuts. */
  lemma AllowedFileAt(filename: string, j: int)
    requires IsLastDot(filename, j)
    ensures AllowedFile(filename) <==> Lower(filename[j + 1..]) in AllowedExtensions
  {
    assert filename[j] in filename;
    LastDotUnique(filename, LastDot(filename).value, j);
  }

  lemma AllowedFileIff(filename: string)
    ensures AllowedFile(filename) <==>
      exists i :: IsLastDot(filename, i) && Lower(filename[i + 1..]) in AllowedExtensions
  {
    var d := LastDot(filename);
    if d.Some? {
      AllowedFileAt(filename, d.value);
      assert IsLastDot(filename, d.value);
      forall j | IsLastDot(filename, j)
        ensures AllowedFile(filename) <==> Lower(filename[j + 1..]) in AllowedExtensions
      {
        AllowedFileAt(filename, j);
      }
    } else {
      forall j | 0 <= j < |filename|
        ensures filename[j] != '.'
      {
      }
    }
  }

  // ---------------------------------------------------------------------
  // add_to_cart

  /** `if item.max_per_customer and ...`: Python truthiness, so a cap of None
      and a cap of 0 both mean no limit. */
  predicate CapApplies(cap: Option<int>): (b: bool)
    ensures !b <==> cap.None? || cap == Some(0)
  {
    cap.Some? && cap.value != 0
  }

  datatype AddResult =
    | ItemNotFound                 // 404 from get_or_404
    | InvalidQuantity              // int() raised
    | QuantityBelowOne
    | CapReached(cap: int)         // already at the per-customer maximum
    | OutOfStock                   // the cart already holds all the stock
    | CapClamped(adjusted: int)    // AJAX: reported, nothing written
    | StockClamped(adjusted: int)  // AJAX: reported, nothing written
    | Added(amount: int)

  /** What `add_to_cart` decides for a validated request of `q` units of an
      item of which the cart already holds `held`: room under the cap and
      room in stock are taken in that order; a non-AJAX request adds the
      smallest of `q` and the two rooms, an AJAX request stops at the first
      adjustment. */
  function AddAllowance(held: int, q: int, stock: int, cap: Option<int>, ajax: bool): (r: AddResult)
    requires q >= 1
    ensures r.CapReached? || r.OutOfStock? || r.CapClamped? || r.StockClamped? || r.Added?
    ensures r.CapReached? <==> CapApplies(cap) && cap.value <= held
    ensures r.CapReached? ==> r.cap == cap.value
    ensures !ajax ==> !r.CapClamped? && !r.StockClamped?
    ensures !ajax ==> (r.OutOfStock? <==> !(CapApplies(cap) && cap.value <= held) && stock <= held)
    ensures ajax ==> (r.CapClamped? <==> CapApplies(cap) && held < cap.value && cap.value - held < q)
    ensures ajax ==> (r.OutOfStock? <==> !(CapApplies(cap) && cap.value - held < q) && stock <= held)
    ensures ajax ==> (r.StockClamped? <==> !(CapApplies(cap) && cap.value - held < q) && held < stock && stock - held < q)
    ensures ajax ==> (r.Added? <==> !(CapApplies(cap) && cap.value - held < q) && q <= stock - held)
    ensures r.Added? ==> 1 <= r.amount <= q && held + r.amount <= stock
    ensures r.Added? && CapApplies(cap) ==> held + r.amount <= cap.value
    ensures r.Added? ==> r.amount == q || held + r.amount == stock || (CapApplies(cap) && held + r.amount == cap.value)
    ensures ajax && r.Added? ==> r.amount == q
    ensures r.CapClamped? ==> ajax && CapApplies(cap) && 1 <= r.adjusted < q && held + r.adjusted == cap.value
    ensures r.StockClamped? ==> ajax && 1 <= r.adjusted < q && held + r.adjusted == stock
    ensures r.StockClamped? && CapApplies(cap) ==> held + r.adjusted < cap.value
  {
    var capRoom := if CapApplies(cap) then cap.value - held else q;
    var stockRoom := stock - held;
    if CapApplies(cap) && capRoom <= 0 then CapReached(cap.value)
    else if ajax && capRoom < q then CapClamped(capRoom)
    else if stockRoom <= 0 then OutOfStock
    else if ajax && stockRoom < q then StockClamped(stockRoom)
    else Added(Min(Min(q, capRoom), stockRoom))
  }

  /** After a non-AJAX add that succeeds, the item's line has grown by at
      least one and stays within the stock and, when set, the cap; the
      other items' holdings are untouched. */
  lemma AddedWithinBounds(lines: seq<CartLine>, itemId: int, q: int, stock: int, cap: Option<int>)
    requires WellFormedCart(lines) && q >= 1
    ensures var r := AddAllowance(Held(lines, itemId), q, stock, cap, false);
            r.Added? ==>
              var after := Increment(lines, itemId, r.amount);
              && WellFormedCart(after)
              && Held(lines, itemId) + 1 <= Held(after, itemId) <= stock
              && (CapApplies(cap) ==> Held(after, itemId) <= cap.value)
              && QuantityOf(after, itemId) == Held(after, itemId)
              && (forall other :: other != itemId ==> QuantityOf(after, other) == QuantityOf(lines, other))
  {
    var r := AddAllowance(Held(lines, itemId), q, stock, cap, false);
    if r.Added? {
      HeldIsWholeHolding(Increment(lines, itemId, r.amount), itemId);
    }
  }

  /** The checks of `add_to_cart` in the handler's own order, on a request
      already known to ask for at least one unit: clamp to the cap, then to
      the stock; an AJAX request reports the first clamp instead of
      applying it. */
  method DecideAdd(held: int, quantity: int, stock: int, cap: Option<int>, ajax: bool) returns (r: AddResult)
    requires quantity >= 1
    ensures r == AddAllowance(held, quantity, stock, cap, ajax)
  {
    var q := quantity;
    var requested := held + q;
    if CapApplies(cap) && requested > cap.value {
      var adjusted := cap.value - held;
      if adjusted <= 0 {
        return CapReached(cap.value);
      }
      q := adjusted;
      if ajax {
        return CapClamped(q);
      }
    }
    var available := stock - held;
    if q > available {
      if available <= 0 {
        return OutOfStock;
      }
      q := available;
      if ajax {
        return StockClamped(q);
      }
    }
    r := Added(q);
  }

  /** `add_to_cart`. The item is looked up first, then the quantity is read
      (absent means 1); from there on the user's cart exists, even when the
      request is then refused. Only an `Added` outcome writes a line. */
  method AddToCart(db: Store, user: nat, itemId: int, form: NumField, ajax: bool) returns (r: AddResult)
    requires db.Valid() && user < |db.users|
    modifies db
    ensures db.Valid()
    ensures db.users == old(db.users) && db.items == old(db.items)
    ensures db.orders == old(db.orders) && db.settings == old(db.settings)
    ensures itemId !in old(db.items) ==> r == ItemNotFound && db.carts == old(db.carts)
    ensures itemId in old(db.items) && form.NotNumeric? ==> r == InvalidQuantity && db.carts == old(db.carts)
    ensures itemId in old(db.items) && form.Num? && form.n < 1 ==> r == QuantityBelowOne && db.carts == old(db.carts)
    ensures itemId in old(db.items) && ParseStrict(form, 1).Some? && ParseStrict(form, 1).value >= 1 ==>
      var lines := CartOf(old(db.carts), user);
      var item := old(db.items)[itemId];
      && r == AddAllowance(Held(lines, itemId), ParseStrict(form, 1).value, item.stock, item.maxPerCustomer, ajax)
      && db.carts == old(db.carts)[user := if r.Added? then Increment(lines, itemId, r.amount) else lines]
  {
    if itemId !in db.items {
      return ItemNotFound;
    }
    var parsed := ParseStrict(form, 1);
    if parsed.None? {
      return InvalidQuantity;
    }
    if parsed.value < 1 {
      return QuantityBelowOne;
    }
    r := AddValidated(db, user, itemId, parsed.value, ajax);
  }

  /** The part of `add_to_cart` after the item was found and the quantity
      read: the cap and stock decision, then the cart write (an empty cart
      when nothing is added). */
  method AddValidated(db: Store, user: nat, itemId: int, quantity: int, ajax: bool) returns (r: AddResult)
    requires db.Valid() && user < |db.users| && itemId in db.items && quantity >= 1
    modifies db
    ensures db.Valid()
    ensures db.users == old(db.users) && db.items == old(db.items)
    ensures db.orders == old(db.orders) && db.settings == old(db.settings)
    ensures var lines := CartOf(old(db.carts), user);
      var item := old(db.items)[itemId];
      && r == AddAllowance(Held(lines, itemId), quantity, item.stock, item.maxPerCustomer, ajax)
      && db.carts == old(db.carts)[user := if r.Added? then Increment(lines, itemId, r.amount) else lines]
  {
    var item := db.items[itemId];
    var lines := CartOf(db.carts, user);
    assert WellFormedCart(lines);
    r := DecideAdd(Held(lines, itemId), quantity, item.stock, item.maxPerCustomer, ajax);
    var written := lines;
    if r.Added? {
      written := Increment(lines, itemId, r.amount);
    }
    db.SetCart(user, written);
  }

  // ---------------------------------------------------------------------
  // update_cart

  datatype UpdateResult =
    | UpdateNoCart
    | UpdateBelowOne
    | UpdateNotInCart               // 404
    | UpdateItemGone                // the line's item was deleted: the handler raises
    | CapExceeded(maxAdditional: int)
    | OverStock(available: int)
    | Updated

  /** `update_cart`. The quantity is read with a fallback of 1 for absent and
      malformed values alike. The cap check compares the item's holding over
      all lines, with this line's quantity replaced by the new one, against
      the cap; the stock check lets the line grow up to the stock plus what
      the line already holds. Only `Updated` writes, and only that line. */
  method UpdateCart(db: Store, user: nat, itemId: int, form: NumField) returns (r: UpdateResult)
    requires db.Valid() && user < |db.users|
    modifies db
    ensures db.Valid()
    ensures db.users == old(db.users) && db.items == old(db.items)
    ensures db.orders == old(db.orders) && db.settings == old(db.settings)
    ensures !r.Updated? ==> db.carts == old(db.carts)
    ensures r == UpdateNoCart <==> user !in old(db.carts)
    ensures user in old(db.carts) && ParseLenient(form, 1) < 1 ==> r == UpdateBelowOne
    ensures user in old(db.carts) && ParseLenient(form, 1) >= 1 && FindLine(old(db.carts)[user], itemId).None? ==>
              r == UpdateNotInCart
    ensures user in old(db.carts) && ParseLenient(form, 1) >= 1 && FindLine(old(db.carts)[user], itemId).Some? ==>
      var lines := old(db.carts)[user];
      var k := FindLine(lines, itemId).value;
      var q := ParseLenient(form, 1);
      var others := QuantityOf(lines, itemId) - lines[k].quantity;
      && (itemId !in old(db.items) ==> r == UpdateItemGone)
      && (itemId in old(db.items) ==>
            var item := old(db.items)[itemId];
            var overCap := CapApplies(item.maxPerCustomer) && others + q > item.maxPerCustomer.value;
            && (overCap ==> r == CapExceeded(Max(0, item.maxPerCustomer.value - others)))
            && (!overCap && q > item.stock + lines[k].quantity ==> r == OverStock(item.stock + lines[k].quantity))
            && (!overCap && q <= item.stock + lines[k].quantity ==>
                  && r == Updated
                  && db.carts == old(db.carts)[user := SetQuantity(lines, k, q)]
                  && Held(db.carts[user], itemId) == q
                  && (CapApplies(item.maxPerCustomer) ==> QuantityOf(db.carts[user], itemId) <= item.maxPerCustomer.value)))
  {
    if user !in db.carts {
      return UpdateNoCart;
    }
    var quantity := ParseLenient(form, 1);
    if quantity < 1 {
      return UpdateBelowOne;
    }
    var lines := db.carts[user];
    var found := FindLine(lines, itemId);
    if found.None? {
      return UpdateNotInCart;
    }
    var k := found.value;
    var line := lines[k];
    if line.itemId !in db.items {
      return UpdateItemGone;
    }
    var item := db.items[line.itemId];
    if CapApplies(item.maxPerCustomer) {
      var totalInCart := QuantityOf(lines, itemId);
      var newTotal := totalInCart - line.quantity + quantity;
      if newTotal > item.maxPerCustomer.value {
        return CapExceeded(Max(0, item.maxPerCustomer.value - (totalInCart - line.quantity)));
      }
    }
    if quantity > item.stock + line.quantity {
      return OverStock(item.stock + line.quantity);
    }
    db.carts := db.carts[user := SetQuantity(lines, k, quantity)];
    r := Updated;
  }

  /** In a well-formed cart the cap check of `update_cart` reduces to
      comparing the new quantity itself with the cap, and `max_additional`
      is then the cap (or 0). */
  lemma UpdateCapCheckIsLineCheck(lines: seq<CartLine>, itemId: int)
    requires WellFormedCart(lines) && FindLine(lines, itemId).Some?
    ensures QuantityOf(lines, itemId) - lines[FindLine(lines, itemId).value].quantity == 0
  {
    HeldIsWholeHolding(lines, itemId);
  }

  // ---------------------------------------------------------------------
  // remove_from_cart

  datatype RemoveResult = RemoveNoCart | Removed | RemoveNotInCart

  /** `remove_from_cart`: delete the item's line if there is one. */
  method RemoveFromCart(db: Store, user: nat, itemId: int) returns (r: RemoveResult)
    requires db.Valid() && user < |db.users|
    modifies db
    ensures db.Valid()
    ensures db.users == old(db.users) && db.items == old(db.items)
    ensures db.orders == old(db.orders) && db.settings == old(db.settings)
    ensures r == RemoveNoCart <==> user !in old(db.carts)
    ensures r == Removed <==> user in old(db.carts) && FindLine(old(db.carts)[user], itemId).Some?
    ensures r == Removed ==>
              db.carts == old(db.carts)[user := RemoveAt(old(db.carts)[user], FindLine(old(db.carts)[user], itemId).value)]
              && FindLine(db.carts[user], itemId).None?
    ensures r != Removed ==> db.carts == old(db.carts)
  {
    if user !in db.carts {
      return RemoveNoCart;
    }
    var lines := db.carts[user];
    var found := FindLine(lines, itemId);
    if found.Some? {
      db.carts := db.carts[user := RemoveAt(lines, found.value)];
      return Removed;
    }
    return RemoveNotInCart;
  }

  // ---------------------------------------------------------------------
  // cart (the cart page)

  /** `cart`: create the user's cart if missing, then total the lines at
      current prices. A line whose item was deleted makes the handler raise
      (None here), after the cart was created. */
  method ViewCart(db: Store, user: nat) returns (total: Option<int>)
    requires db.Valid() && user < |db.users|
    modifies db
    ensures db.Valid()
    ensures db.users == old(db.users) && db.items == old(db.items) && db.orders == old(db.orders)
    ensures db.carts == if user in old(db.carts) then old(db.carts) else old(db.carts)[user := []]
    ensures var lines := CartOf(old(db.carts), user);
      total == if Resolved(lines, old(db.items)) then Some(Total(lines, old(db.items))) else None
    ensures total.Some? ==> db.settings == EnsureSettings(old(db.settings))
    ensures total.None? ==> db.settings == old(db.settings)
  {
    if user !in db.carts {
      db.carts := db.carts[user := []];
    }
    var lines := db.carts[user];
    if !Resolved(lines, db.items) {
      return None;
    }
    total := Some(Total(lines, db.items));
    var _ := db.GetSettings();
  }

  // ---------------------------------------------------------------------
  // checkout

  /** `checkout`: run the order loop on the session; commit the order, the
      decremented stocks and the emptied cart together, or nothing. */
  method Checkout(db: Store, user: nat) returns (r: CheckoutResult)
    requires db.Valid() && user < |db.users|
    modifies db
    ensures db.Valid()
    ensures db.users == old(db.users) && db.settings == old(db.settings)
    ensures r == CheckoutOf(old(db.items), CartOf(old(db.carts), user), user)
    ensures r.Placed? ==>
              && db.items == r.after
              && db.orders == old(db.orders) + [r.order]
              && db.carts == old(db.carts)[user := []]
    ensures !r.Placed? ==>
              db.items == old(db.items) && db.orders == old(db.orders) && db.carts == old(db.carts)
  {
    var lines := CartOf(db.carts, user);
    r := PlaceOrder(db.items, lines, user);
    if r.Placed? {
      CheckoutCommitEffects(db.items, lines, user);
      db.items := r.after;
      db.orders := db.orders + [r.order];
      db.carts := db.carts[user := []];
    }
  }

  // ---------------------------------------------------------------------
  // scan_barcode (after the image has been decoded to a string)

  method Pick<T>(s: set<T>) returns (x: T)
    requires s != {}
    ensures x in s
  {
    x :| x in s;
  }

  /** `Item.query.filter_by(barcode=code).first()`. */
  method LookupBarcode(items: map<int, Item>, code: string) returns (r: Option<int>)
    ensures r.Some? ==> r.value in items && items[r.value].barcode == Some(code)
    ensures r.None? <==> forall id :: id in items ==> items[id].barcode != Some(code)
  {
    var rest := items.Keys;
    while rest != {}
      invariant rest <= items.Keys
      invariant forall id :: id in items && id !in rest ==> items[id].barcode != Some(code)
      decreases rest
    {
      var id := Pick(rest);
      if items[id].barcode == Some(code) {
        return Some(id);
      }
      rest := rest - {id};
    }
    return None;
  }

  datatype ScanResult = UnknownBarcode | Scanned(itemId: int)

  /** One more unit of `id` in the user's cart, creating the cart and the
      line when missing, with no cap or stock check. The handler commits the
      new cart and the line separately; only the final state is kept here. */
  method AddOne(db: Store, user: nat, id: int)
    requires db.Valid() && user < |db.users|
    modifies db
    ensures db.Valid()
    ensures db.users == old(db.users) && db.items == old(db.items)
    ensures db.orders == old(db.orders) && db.settings == old(db.settings)
    ensures db.carts == old(db.carts)[user := Increment(CartOf(old(db.carts), user), id, 1)]
  {
    db.SetCart(user, Increment(CartOf(db.carts, user), id, 1));
  }

  /** The cart branch of `scan_barcode`: the item carrying the code (there is
      at most one) gets one more unit in the cart, with no cap or stock check;
      an unknown code changes nothing. */
  method ScanBarcode(db: Store, user: nat, code: string) returns (r: ScanResult)
    requires db.Valid() && user < |db.users|
    modifies db
    ensures db.Valid()
    ensures db.users == old(db.users) && db.items == old(db.items)
    ensures db.orders == old(db.orders) && db.settings == old(db.settings)
    ensures r.UnknownBarcode? <==> forall id :: id in db.items ==> db.items[id].barcode != Some(code)
    ensures r.UnknownBarcode? ==> db.carts == old(db.carts)
    ensures r.Scanned? ==> r.itemId in db.items && db.items[r.itemId].barcode == Some(code)
    ensures r.Scanned? ==> forall id :: id in db.items && db.items[id].barcode == Some(code) ==> id == r.itemId
    ensures r.Scanned? ==>
              && db.carts == old(db.carts)[user := Increment(CartOf(old(db.carts), user), r.itemId, 1)]
              && Held(db.carts[user], r.itemId) == Held(CartOf(old(db.carts), user), r.itemId) + 1
  {
    var found := LookupBarcode(db.items, code);
    if found.None? {
      return UnknownBarcode;
    }
    var id := found.value;
    BarcodeOwner(db.items, code, id);
    AddOne(db, user, id);
    r := Scanned(id);
  }
}
