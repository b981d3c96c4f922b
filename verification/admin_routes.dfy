/** The admin handlers that change the catalog and the orders
    (app/admin/routes.py), and the dashboard's list of recent orders. */
module AdminRoutes {
  import opened Base
  import opened Models

  // ---------------------------------------------------------------------
  // new_item

  datatype NewItemResult =
    | NewBadNumber        // float()/int() raised before the insert was tried
    | NewCommitFailed     // name missing, barcode taken or stock beyond 64 bits: rolled back
    | Created(id: int)

  /** The row `new_item` inserts: absent description and barcode become
      the empty string, and no per-customer cap is set. */
  function NewRow(name: string, price: int, description: Option<string>, stock: int, barcode: Option<string>): (it: Item)
    ensures it.name == name && it.price == price && it.stock == stock
    ensures it.maxPerCustomer.None? && it.barcode.Some?
    ensures description.Some? ==> it.description == description.value
    ensures description.None? ==> it.description == ""
    ensures barcode.Some? ==> it.barcode == barcode
    ensures barcode.None? ==> it.barcode == Some("")
  {
    Item(name, price, if description.Some? then description.value else "",
         stock, None, Some(if barcode.Some? then barcode.value else ""))
  }

  /** `new_item` (POST). Absent price and stock become 0. The database
      chooses the new id; it is passed in as `freshId`. */
  method NewItem(db: Store, freshId: int, name: Option<string>, price: NumField,
                 description: Option<string>, stock: NumField, barcode: Option<string>)
    returns (r: NewItemResult)
    requires db.Valid() && freshId !in db.items
    modifies db
    ensures db.Valid()
    ensures db.users == old(db.users) && db.carts == old(db.carts)
    ensures db.orders == old(db.orders) && db.settings == old(db.settings)
    ensures !r.Created? ==> db.items == old(db.items)
    ensures r.NewBadNumber? <==> price.NotNumeric? || stock.NotNumeric?
    ensures r.Created? <==>
              && !price.NotNumeric? && !stock.NotNumeric?
              && name.Some?
              && BarcodeFree(old(db.items), Some(if barcode.Some? then barcode.value else ""), None)
              && FitsInteger(ParseStrict(stock, DefaultStock).value)
    ensures r.Created? ==>
              && r.id == freshId
              && db.items == old(db.items)[freshId := NewRow(name.value, ParseStrict(price, 0).value,
                                                             description, ParseStrict(stock, DefaultStock).value, barcode)]
  {
    var p := ParseStrict(price, 0);
    if p.None? {
      return NewBadNumber;
    }
    var s := ParseStrict(stock, DefaultStock);
    if s.None? {
      return NewBadNumber;
    }
    var code := if barcode.Some? then barcode.value else "";
    if name.None? || !BarcodeFree(db.items, Some(code), None) || !FitsInteger(s.value) {
      return NewCommitFailed;
    }
    var row := NewRow(name.value, p.value, description, s.value, barcode);
    db.items := db.items[freshId := row];
    r := Created(freshId);
  }

  // ---------------------------------------------------------------------
  // edit_item

  datatype EditResult =
    | EditNotFound        // 404
    | EditBadNumber       // float()/int() raised: nothing is committed
    | EditCommitFailed    // barcode of another item, or stock beyond 64 bits: rolled back
    | Edited

  /** The item after `edit_item` applies a form: each field that the form
      carries replaces the stored one, the others are kept. */
  function Edit(it: Item, name: Option<string>, price: Option<int>, description: Option<string>,
                stock: Option<int>, barcode: Option<string>): (r: Item)
    ensures r.name == (if name.Some? then name.value else it.name)
    ensures r.price == (if price.Some? then price.value else it.price)
    ensures r.description == (if description.Some? then description.value else it.description)
    ensures r.stock == (if stock.Some? then stock.value else it.stock)
    ensures barcode.Some? ==> r.barcode == barcode
    ensures barcode.None? ==> r.barcode == it.barcode
    ensures r.maxPerCustomer == it.maxPerCustomer
  {
    it.(name := if name.Some? then name.value else it.name,
        price := if price.Some? then price.value else it.price,
        description := if description.Some? then description.value else it.description,
        stock := if stock.Some? then stock.value else it.stock,
        barcode := if barcode.Some? then barcode else it.barcode)
  }

  /** An empty form leaves the item as it was. */
  lemma EditNothingIsIdentity(it: Item)
    ensures Edit(it, None, None, None, None, None) == it
  {
  }

  /** Applying the same form twice is the same as applying it once. */
  lemma EditIdempotent(it: Item, name: Option<string>, price: Option<int>, description: Option<string>,
                       stock: Option<int>, barcode: Option<string>)
    ensures var once := Edit(it, name, price, description, stock, barcode);
            Edit(once, name, price, description, stock, barcode) == once
  {
  }

  /** A form field as `edit_item` reads it: `ParseStrict` with the stored
      value as the default, keeping apart whether the field was submitted
      (`Some(Some(n))`) or left out (`Some(None)`), which `Edit` needs; a
      malformed number raises (None). */
  function FieldOrKeep(f: NumField): (r: Option<Option<int>>)
    ensures r.None? <==> f.NotNumeric?
    ensures f.Absent? ==> r == Some(None)
    ensures f.Num? ==> r == Some(Some(f.n))
    ensures forall stored :: ParseStrict(f, stored) ==
              if r.None? then None else Some(if r.value.Some? then r.value.value else stored)
  {
    match f
    case Absent => Some(None)
    case Num(n) => Some(Some(n))
    case NotNumeric => None
  }

  /** `edit_item` (POST). Stock takes any integer, negative ones included;
      a barcode field replaces the stored one, the empty string included. */
  method EditItem(db: Store, id: int, name: Option<string>, price: NumField,
                  description: Option<string>, stock: NumField, barcode: Option<string>)
    returns (r: EditResult)
    requires db.Valid()
    modifies db
    ensures db.Valid()
    ensures db.users == old(db.users) && db.carts == old(db.carts)
    ensures db.orders == old(db.orders) && db.settings == old(db.settings)
    ensures !r.Edited? ==> db.items == old(db.items)
    ensures r.EditNotFound? <==> id !in old(db.items)
    ensures id in old(db.items) ==>
              (r.EditBadNumber? <==> price.NotNumeric? || stock.NotNumeric?)
    ensures r.Edited? <==>
              && id in old(db.items) && !price.NotNumeric? && !stock.NotNumeric?
              && BarcodeFree(old(db.items), barcode, Some(id))
              && FitsInteger(if stock.Num? then stock.n else old(db.items)[id].stock)
    ensures r.Edited? ==>
              db.items == old(db.items)[id := Edit(old(db.items)[id], name, FieldOrKeep(price).value,
                                                   description, FieldOrKeep(stock).value, barcode)]
  {
    if id !in db.items {
      return EditNotFound;
    }
    var p := FieldOrKeep(price);
    if p.None? {
      return EditBadNumber;
    }
    var s := FieldOrKeep(stock);
    if s.None? {
      return EditBadNumber;
    }
    var edited := Edit(db.items[id], name, p.value, description, s.value, barcode);
    if !BarcodeFree(db.items, barcode, Some(id)) || !FitsInteger(edited.stock) {
      return EditCommitFailed;
    }
    db.items := db.items[id := edited];
    r := Edited;
  }

  // ---------------------------------------------------------------------
  // delete_item

  /** `delete_item`: the row goes; cart lines and order lines that name the
      item are left as they are. */
  method DeleteItem(db: Store, id: int) returns (found: bool)
    requires db.Valid()
    modifies db
    ensures db.Valid()
    ensures found <==> id in old(db.items)
    ensures db.items == old(db.items) - {id}
    ensures id !in db.items
    ensures db.users == old(db.users) && db.carts == old(db.carts)
    ensures db.orders == old(db.orders) && db.settings == old(db.settings)
  {
    if id !in db.items {
      return false;
    }
    db.items := db.items - {id};
    found := true;
  }

  // ---------------------------------------------------------------------
  // update_order_status

  const Statuses: seq<string> := ["Processing", "Shipped", "Delivered", "Cancelled"]

  datatype StatusResult = OrderNotFound | InvalidStatus | StatusSet

  /** `update_order_status`: any of the four statuses may follow any other;
      anything else, a missing field included, is refused. */
  method UpdateOrderStatus(db: Store, orderId: nat, status: Option<string>) returns (r: StatusResult)
    requires db.Valid()
    modifies db
    ensures db.Valid()
    ensures db.users == old(db.users) && db.items == old(db.items)
    ensures db.carts == old(db.carts) && db.settings == old(db.settings)
    ensures r.OrderNotFound? <==> orderId >= |old(db.orders)|
    ensures r.StatusSet? <==> orderId < |old(db.orders)| && status.Some? && status.value in Statuses
    ensures r.StatusSet? ==> db.orders == old(db.orders)[orderId := old(db.orders)[orderId].(status := status.value)]
    ensures !r.StatusSet? ==> db.orders == old(db.orders)
    ensures |db.orders| == |old(db.orders)|
    ensures forall i :: 0 <= i < |db.orders| ==> db.orders[i].status in Statuses || db.orders[i] == old(db.orders)[i]
  {
    if orderId >= |db.orders| {
      return OrderNotFound;
    }
    if status.None? || status.value !in Statuses {
      return InvalidStatus;
    }
    db.orders := db.orders[orderId := db.orders[orderId].(status := status.value)];
    r := StatusSet;
  }

  /** The status a new order is placed with is one of the accepted ones. */
  lemma DefaultStatusListed()
    ensures DefaultStatus in Statuses
  {
  }

  // ---------------------------------------------------------------------
  // dashboard

  /** The `limit` most recent orders, newest first. Orders are appended as
      they are placed, so position stands for `date_ordered`. */
  function Newest(orders: seq<Order>, limit: nat): (r: seq<Order>)
    ensures |r| == Min(limit, |orders|)
    ensures forall i :: 0 <= i < |r| ==> r[i] == orders[|orders| - 1 - i]
    decreases limit
  {
    if limit == 0 || orders == [] then []
    else [orders[|orders| - 1]] + Newest(orders[..|orders| - 1], limit - 1)
  }

  /** A shorter list is the head of a longer one. */
  lemma NewestPrefix(orders: seq<Order>, a: nat, b: nat)
    requires a <= b
    ensures Newest(orders, a) == Newest(orders, b)[..Min(a, |orders|)]
  {
  }

  /** The order placed last heads the list, followed by what the list
      showed before, one shorter. */
  lemma NewestAfterPlacing(orders: seq<Order>, o: Order, limit: nat)
    requires limit >= 1
    ensures Newest(orders + [o], limit) == [o] + Newest(orders, limit - 1)
  {
    assert (orders + [o])[..|orders|] == orders;
  }

  const RecentLimit: nat := 5

  /** `dashboard`: the item and order counts, the five newest orders, and
      the settings row (created on first use). */
  method Dashboard(db: Store) returns (itemCount: nat, orderCount: nat, recent: seq<Order>)
    requires db.Valid()
    modifies db
    ensures db.Valid()
    ensures itemCount == |old(db.items)| && orderCount == |old(db.orders)|
    ensures recent == Newest(old(db.orders), RecentLimit)
    ensures |recent| <= RecentLimit
    ensures db.settings == EnsureSettings(old(db.settings))
    ensures db.users == old(db.users) && db.items == old(db.items)
    ensures db.carts == old(db.carts) && db.orders == old(db.orders)
  {
    itemCount := |db.items|;
    orderCount := |db.orders|;
    recent := Newest(db.orders, RecentLimit);
    var _ := db.GetSettings();
  }
}
