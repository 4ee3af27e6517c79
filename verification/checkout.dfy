/** The checkout page (`checkout/checkout.js`): the order summary and the
    submit handler that turns the stored cart into the stored last order. */
module Checkout {
  import opened Wrappers
  import opened Cart
  import opened Storage

  /** The fixed shipping cost, 10.00, in cents. */
  const Shipping: int := 1000

  /** The customer fields every order gets. */
  const DefaultCustomer := Customer("Guest", "User", "123 Main St", "Anytown", "12345", "NO")

  /** `JSON.parse(localStorage.getItem("cart")) || []`. */
  function StoredCart(st: Store): (r: seq<Line>)
    ensures CartKey in st && st[CartKey].CartBlob? ==> r == st[CartKey].lines
    ensures !(CartKey in st && st[CartKey].CartBlob?) ==> r == []
  {
    GetCart(st).GetOr([])
  }

  datatype SummaryPage =
    | RedirectToProducts
    | Summary(lines: seq<Line>, subtotal: int, shipping: int, total: int)

  /** `displayOrderSummary()`: an empty or missing cart sends the visitor back
      to the products; otherwise subtotal, shipping and total are shown. */
  function OrderSummary(st: Store): (r: SummaryPage)
    ensures r.RedirectToProducts? <==> StoredCart(st) == []
    ensures r.Summary? ==> r.lines == StoredCart(st) && r.subtotal == Total(r.lines)
    ensures r.Summary? ==> r.shipping == Shipping && r.total == r.subtotal + Shipping
  {
    var cart := StoredCart(st);
    if |cart| == 0 then RedirectToProducts
    else
      var subtotal := Total(cart);
      Summary(cart, subtotal, Shipping, subtotal + Shipping)
  }

  /** The order the submit handler builds from a cart. */
  function DraftOrder(cart: seq<Line>, id: string, date: string): (o: Order)
    ensures o.items == cart && o.customer == DefaultCustomer
    ensures o.total - Shipping == Total(cart)
  {
    Order(id, date, DefaultCustomer, cart, Total(cart) + Shipping)
  }

  /** The two storage writes of a submission, in source order. */
  function SubmitOps(order: Order): seq<Op> {
    [SetItem(LastOrderKey, OrderBlob(order)), RemoveItem(CartKey)]
  }

  /** The submit handler. The order id and date come from the clock and are
      passed in. There is no guard against an empty cart. */
  method Submit(st: Store, id: string, date: string) returns (order: Order, st': Store)
    ensures order.items == StoredCart(st)
    ensures order.total == Total(StoredCart(st)) + Shipping
    ensures order.customer == DefaultCustomer && order.id == id && order.date == date
    ensures GetOrder(st') == Some(order)
    ensures CartKey !in st'
    ensures forall k :: k != CartKey && k != LastOrderKey ==> (k in st' <==> k in st) && (k in st' ==> st'[k] == st[k])
    ensures st' == ApplyAll(st, SubmitOps(order))
  {
    var cart := StoredCart(st);
    var subtotal := ReduceTotal(cart);
    order := Order(id, date, DefaultCustomer, cart, subtotal + Shipping);
    var written := Apply(st, SetItem(LastOrderKey, OrderBlob(order)));
    st' := Apply(written, RemoveItem(CartKey));
    ApplyTwo(st, SetItem(LastOrderKey, OrderBlob(order)), RemoveItem(CartKey));
  }

  /** The total the summary shows is the total the order records. */
  lemma SummaryMatchesOrder(st: Store, id: string, date: string)
    requires OrderSummary(st).Summary?
    ensures DraftOrder(StoredCart(st), id, date).total == OrderSummary(st).total
    ensures DraftOrder(StoredCart(st), id, date).items == OrderSummary(st).lines
  {
  }

  /** Submitting with no cart stored still records an order, for 10.00. */
  lemma EmptySubmitChargesShipping(st: Store, id: string, date: string)
    requires GetCart(st).None? || GetCart(st) == Some([])
    ensures DraftOrder(StoredCart(st), id, date).total == Shipping
  {
  }

  /** The order is written before the cart is removed, so whatever prefix of
      the two writes has happened, either the cart is still stored as before
      or the order is: an interruption never loses both. */
  lemma SubmitNeverLosesCart(st: Store, id: string, date: string, n: nat)
    requires n <= 2
    ensures var order := DraftOrder(StoredCart(st), id, date);
            var mid := ApplyAll(st, SubmitOps(order)[..n]);
            GetOrder(mid) == Some(order) || GetCart(mid) == GetCart(st)
  {
    var order := DraftOrder(StoredCart(st), id, date);
    var ops := SubmitOps(order);
    if n == 0 {
      assert ops[..0] == [];
    } else if n == 1 {
      assert ops[..1] == [ops[0]];
      ApplyOne(st, ops[0]);
    } else {
      assert ops[..2] == ops;
      ApplyTwo(st, ops[0], ops[1]);
    }
  }

  /** Had the cart been removed first, an interruption after the first write
      would lose it with no order recorded. */
  lemma ReversedOrderLosesCart(st: Store, id: string, date: string)
    requires GetCart(st).Some? && GetOrder(st).None?
    ensures var order := DraftOrder(StoredCart(st), id, date);
            var mid := Apply(st, RemoveItem(CartKey));
            GetOrder(mid).None? && GetCart(mid).None?
  {
  }
}
