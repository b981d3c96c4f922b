/** The store's tables (users, items, carts with their lines, orders with
    their lines, settings) and the invariant they keep: unique e-mails and
    barcodes, which the schema enforces, and one line per item with a
    quantity of at least 1 in each cart, which the handlers maintain. */
module Models {
  import opened Base

  datatype User = User(email: string, firstName: string, password: string, isAdmin: bool)

  /** A catalog entry. `price` is in the smallest currency unit. `stock` has
      no range constraint in the schema. `maxPerCustomer` may be absent; the
      cart code treats absent and 0 alike as "no limit". `barcode` is unique
      among the items that have one. */
  datatype Item = Item(
    name: string,
    price: int,
    description: string,
    stock: int,
    maxPerCustomer: Option<int>,
    barcode: Option<string>)

  /** One row of a cart: an item and how many of it. */
  datatype CartLine = CartLine(itemId: int, quantity: int)

  /** One row of an order: quantity and unit price are copied at checkout, so
      later edits of the item do not reach them. */
  datatype OrderLine = OrderLine(itemId: int, quantity: int, price: int)

  datatype Order = Order(userId: nat, lines: seq<OrderLine>, total: int, status: string)

  datatype Settings = Settings(
    currency: string,
    currencyPosition: string,
    showAddresses: bool,
    showPrices: bool,
    pricesAsFree: bool)

  /** Column defaults. */
  const DefaultStock: int := 0
  const DefaultStatus: string := "Processing"
  const DefaultSettings: Settings := Settings("\U{00A5}", "left", true, true, false)

  /** Lines of one cart: each item at most once (every write path looks the
      line up first), and every quantity at least 1. */
  ghost predicate WellFormedCart(lines: seq<CartLine>) {
    && (forall i, j :: 0 <= i < j < |lines| ==> lines[i].itemId != lines[j].itemId)
    && (forall i :: 0 <= i < |lines| ==> lines[i].quantity >= 1)
  }

  /** Every cart belongs to an existing user and is well formed. */
  ghost predicate CartsOwned(carts: map<nat, seq<CartLine>>, userCount: nat) {
    forall u :: u in carts ==> u < userCount && WellFormedCart(carts[u])
  }

  lemma CartsOwnedUpdate(carts: map<nat, seq<CartLine>>, userCount: nat, user: nat, lines: seq<CartLine>)
    requires CartsOwned(carts, userCount) && user < userCount && WellFormedCart(lines)
    ensures CartsOwned(carts[user := lines], userCount)
  {
  }

  /** The unique constraint on `Item.barcode` (NULLs do not collide). */
  ghost predicate UniqueBarcodes(items: map<int, Item>) {
    forall a, b :: a in items && b in items && a != b && items[a].barcode.Some? ==>
      items[a].barcode != items[b].barcode
  }

  /** Under the unique constraint a barcode names at most one item. */
  lemma BarcodeOwner(items: map<int, Item>, code: string, id: int)
    requires UniqueBarcodes(items) && id in items && items[id].barcode == Some(code)
    ensures forall other :: other in items && items[other].barcode == Some(code) ==> other == id
  {
  }

  /** The unique constraint on `User.email`. */
  ghost predicate UniqueEmails(users: seq<User>) {
    forall i, j :: 0 <= i < j < |users| ==> users[i].email != users[j].email
  }

  /** True when no item other than `except` carries `code`, so that storing
      `code` on a new or edited item passes the unique constraint. */
  predicate BarcodeFree(items: map<int, Item>, code: Option<string>, except: Option<int>) {
    code.None? || forall id :: id in items && Some(id) != except ==> items[id].barcode != code
  }

  /** An INTEGER column holds a signed 64-bit value; a larger Python int
      makes the commit raise, and the handler rolls back. */
  predicate FitsInteger(n: int) {
    -0x8000_0000_0000_0000 <= n < 0x8000_0000_0000_0000
  }

  /** The settings table after `get_settings`: the first row is kept as it
      is, and a default row is inserted only into an empty table. */
  function EnsureSettings(rows: seq<Settings>): (r: seq<Settings>)
    ensures |r| >= 1
    ensures rows != [] ==> r == rows
    ensures rows == [] ==> r == [DefaultSettings]
  {
    if rows == [] then [DefaultSettings] else rows
  }

  /** Running `get_settings` twice inserts no second row. */
  lemma EnsureSettingsIdempotent(rows: seq<Settings>)
    ensures EnsureSettings(EnsureSettings(rows)) == EnsureSettings(rows)
    ensures |EnsureSettings(rows)| == if rows == [] then 1 else |rows|
  {
  }

  /** The lines of `user`'s cart; a user without a cart holds nothing. */
  function CartOf(carts: map<nat, seq<CartLine>>, user: nat): seq<CartLine> {
    if user in carts then carts[user] else []
  }

  /** The database, as the request handlers see it. User and order ids are
      positions in their tables; item ids are keys. A user's cart is keyed by
      its owner's id, so a user has at most one cart. */
  class Store {
    var users: seq<User>
    var items: map<int, Item>
    var carts: map<nat, seq<CartLine>>
    var orders: seq<Order>
    var settings: seq<Settings>

    ghost predicate Valid()
      reads this
    {
      && UniqueEmails(users)
      && UniqueBarcodes(items)
      && CartsOwned(carts, |users|)
    }

    constructor ()
      ensures Valid()
      ensures users == [] && items == map[] && carts == map[] && orders == [] && settings == []
    {
      users, items, carts, orders, settings := [], map[], map[], [], [];
    }

    /** `StoreSettings.get_settings`: return the first row, inserting a
        default one when the table is empty. */
    method GetSettings() returns (s: Settings)
      requires Valid()
      modifies this
      ensures Valid()
      ensures settings == EnsureSettings(old(settings)) && s == settings[0]
      ensures old(settings) != [] ==> s == old(settings)[0]
      ensures users == old(users) && items == old(items) && carts == old(carts) && orders == old(orders)
    {
      if settings == [] {
        settings := settings + [DefaultSettings];
      }
      s := settings[0];
    }

    /** Write one existing user's cart lines; the session commit of a cart
        handler. Every other table and every other cart is kept. */
    method SetCart(user: nat, lines: seq<CartLine>)
      requires Valid() && user < |users| && WellFormedCart(lines)
      modifies this
      ensures Valid()
      ensures carts == old(carts)[user := lines]
      ensures users == old(users) && items == old(items)
      ensures orders == old(orders) && settings == old(settings)
    {
      CartsOwnedUpdate(carts, |users|, user, lines);
      carts := carts[user := lines];
    }
  }
}
