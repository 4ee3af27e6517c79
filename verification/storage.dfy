/** Orders and the browser's local storage, seen as a map from key to the
    value stored under it (the JSON text itself is left out). */
module Storage {
  import opened Wrappers
  import opened Cart

  /** The shipping address written into every order. */
  datatype Customer = Customer(
    firstName: string, lastName: string, address: string,
    city: string, postalCode: string, country: string)

  /** An order as checkout stores it; `id` and `date` come from the clock. */
  datatype Order = Order(id: string, date: string, customer: Customer, items: seq<Line>, total: int)

  /** What a key can hold: a cart (an array of lines) or an order. */
  datatype Blob = CartBlob(lines: seq<Line>) | OrderBlob(order: Order)

  type Store = map<string, Blob>

  const CartKey: string := "cart"
  const LastOrderKey: string := "lastOrder"

  /** `localStorage.setItem` and `localStorage.removeItem`. */
  datatype Op = SetItem(key: string, blob: Blob) | RemoveItem(key: string)

  function Apply(st: Store, op: Op): (r: Store)
    ensures op.SetItem? ==> op.key in r && r[op.key] == op.blob
    ensures op.RemoveItem? ==> op.key !in r
    ensures forall k :: k != op.key ==> (k in r <==> k in st) && (k in r ==> r[k] == st[k])
  {
    match op
    case SetItem(k, b) => st[k := b]
    case RemoveItem(k) => st - {k}
  }

  /** Performs the operations in order. */
  function ApplyAll(st: Store, ops: seq<Op>): Store
    decreases |ops|
  {
    if |ops| == 0 then st else ApplyAll(Apply(st, ops[0]), ops[1..])
  }

  lemma ApplyOne(st: Store, a: Op)
    ensures ApplyAll(st, [a]) == Apply(st, a)
  {
    assert [a][1..] == [];
  }

  lemma ApplyTwo(st: Store, a: Op, b: Op)
    ensures ApplyAll(st, [a, b]) == Apply(Apply(st, a), b)
  {
    assert [a, b][1..] == [b];
    ApplyOne(Apply(st, a), b);
  }

  /** The cart stored under "cart", if a cart is stored there. */
  function GetCart(st: Store): (r: Option<seq<Line>>)
    ensures r.Some? <==> CartKey in st && st[CartKey].CartBlob?
    ensures r.Some? ==> r.value == st[CartKey].lines
  {
    if CartKey in st && st[CartKey].CartBlob? then Some(st[CartKey].lines) else None
  }

  /** The order stored under "lastOrder", if an order is stored there. */
  function GetOrder(st: Store): (r: Option<Order>)
    ensures r.Some? <==> LastOrderKey in st && st[LastOrderKey].OrderBlob?
    ensures r.Some? ==> r.value == st[LastOrderKey].order
  {
    if LastOrderKey in st && st[LastOrderKey].OrderBlob? then Some(st[LastOrderKey].order) else None
  }

  /** Storing a cart and reading it back gives the same cart. */
  lemma SaveLoadCart(st: Store, cart: seq<Line>)
    ensures GetCart(Apply(st, SetItem(CartKey, CartBlob(cart)))) == Some(cart)
    ensures GetOrder(Apply(st, SetItem(CartKey, CartBlob(cart)))) == GetOrder(st)
  {
  }

  /** Two stores agree on every key but `key`. */
  ghost predicate SameExcept(a: Store, b: Store, key: string) {
    forall k :: k != key ==> (k in a <==> k in b) && (k in a ==> a[k] == b[k])
  }
}
