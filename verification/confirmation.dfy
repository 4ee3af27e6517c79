/** The confirmation page (`checkout/confirmation/confirmation.js`): it
    shows the last order once and then deletes it. */
module Confirmation {
  import opened Wrappers
  import opened Cart
  import opened Storage
  import Checkout

  /** What the page shows for an order. */
  datatype Shown = Shown(
    orderId: string, customer: Customer, quantities: seq<int>, linePrices: seq<int>,
    subtotal: int, shipping: int, total: int)

  datatype Page =
    | RedirectHome       // no stored order
    | Displayed(shown: Shown)
    | ErrorMessage       // rendering threw

  datatype Outcome = Outcome(page: Page, store: Store)

  /** The page shown for an order: per-line price `unit price * quantity`,
      the subtotal recomputed from the lines, and the stored total as is. */
  function Render(order: Order): (v: Shown)
    ensures v.orderId == order.id && v.customer == order.customer
    ensures |v.linePrices| == |order.items| == |v.quantities|
    ensures forall i :: 0 <= i < |order.items| ==>
      v.linePrices[i] == LineTotal(order.items[i]) && v.quantities[i] == order.items[i].quantity
    ensures v.subtotal == Total(order.items) && v.shipping == Checkout.Shipping
    ensures v.total == order.total
  {
    Shown(order.id, order.customer,
      seq(|order.items|, i requires 0 <= i < |order.items| => order.items[i].quantity),
      seq(|order.items|, i requires 0 <= i < |order.items| => LineTotal(order.items[i])),
      Total(order.items), Checkout.Shipping, order.total)
  }

  /** The page script. `renderThrows` stands for an exception while filling
      in the page (a missing element or field); the order then stays stored. */
  function Confirm(st: Store, renderThrows: bool): (r: Outcome)
    ensures GetOrder(st).None? ==> r == Outcome(RedirectHome, st)
    ensures GetOrder(st).Some? && renderThrows ==> r == Outcome(ErrorMessage, st)
    ensures GetOrder(st).Some? && !renderThrows ==>
      r == Outcome(Displayed(Render(GetOrder(st).value)), Apply(st, RemoveItem(LastOrderKey)))
    ensures r.page.Displayed? ==> GetOrder(st).Some? && r.page.shown == Render(GetOrder(st).value)
    ensures r.page.Displayed? ==> LastOrderKey !in r.store && SameExcept(r.store, st, LastOrderKey)
    ensures !r.page.Displayed? ==> r.store == st
  {
    match GetOrder(st)
    case None => Outcome(RedirectHome, st)
    case Some(order) =>
      if renderThrows then Outcome(ErrorMessage, st)
      else Outcome(Displayed(Render(order)), Apply(st, RemoveItem(LastOrderKey)))
  }

  /** The order is read once: after it has been displayed, loading the page
      again redirects. */
  lemma ReadOnce(st: Store, renderThrows: bool, again: bool)
    requires Confirm(st, renderThrows).page.Displayed?
    ensures Confirm(Confirm(st, renderThrows).store, again).page == RedirectHome
  {
  }

  /** An order written by checkout displays a subtotal that with shipping
      makes up its stored total, for the lines of the cart that was stored. */
  lemma CheckoutThenConfirm(st: Store, id: string, date: string)
    ensures var order := Checkout.DraftOrder(Checkout.StoredCart(st), id, date);
            var after := ApplyAll(st, Checkout.SubmitOps(order));
            var shown := Confirm(after, false).page;
            && shown.Displayed?
            && shown.shown.subtotal == Total(Checkout.StoredCart(st))
            && shown.shown.subtotal + shown.shown.shipping == shown.shown.total
            && CartKey !in Confirm(after, false).store
            && LastOrderKey !in Confirm(after, false).store
  {
    var order := Checkout.DraftOrder(Checkout.StoredCart(st), id, date);
    var ops := Checkout.SubmitOps(order);
    ApplyTwo(st, ops[0], ops[1]);
  }

  /** The displayed total is the stored one, not recomputed: an order whose
      stored total disagrees with its lines still shows that total. */
  lemma StoredTotalIsShown()
    ensures var order := Order("ORD1", "", Checkout.DefaultCustomer, [], 5);
            var st := map[LastOrderKey := OrderBlob(order)];
            var v := Confirm(st, false).page.shown;
            v.total == 5 && v.subtotal + v.shipping != v.total
  {
    var order := Order("ORD1", "", Checkout.DefaultCustomer, [], 5);
    var st := map[LastOrderKey := OrderBlob(order)];
    assert GetOrder(st) == Some(order);
  }
}
