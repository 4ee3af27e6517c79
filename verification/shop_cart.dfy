/** The in-memory cart of the listing page (`script.js`): it is never
    persisted, adds one unit per click and lets the cart modal set or remove
    quantities. */
module ShopCart {
  import opened Wrappers
  import opened Catalog
  import opened Seqs
  import opened Cart

  /** `addToCart(productId)`: unknown ids are ignored; a known id raises its
      line by one or appends a new line with quantity 1. */
  function AddToCart(products: seq<Product>, cart: seq<Line>, id: string): (r: seq<Line>)
    ensures FindProduct(products, id).None? ==> r == cart
    ensures FindProduct(products, id).Some? && HasId(cart, id) ==>
      |r| == |cart| && r[FirstIndex(cart, id).value].quantity == cart[FirstIndex(cart, id).value].quantity + 1
    ensures FindProduct(products, id).Some? && !HasId(cart, id) ==>
      r == cart + [Line(FindProduct(products, id).value, None, 1)]
    ensures FindProduct(products, id).Some? && HasId(cart, id) ==>
      r[FirstIndex(cart, id).value].item == cart[FirstIndex(cart, id).value].item &&
      r[FirstIndex(cart, id).value].productType == cart[FirstIndex(cart, id).value].productType
    ensures forall i :: 0 <= i < |cart| && Some(i) != FirstIndex(cart, id) ==> r[i] == cart[i]
  {
    match FindProduct(products, id)
    case None => cart
    case Some(p) => Merge(cart, p, None, 1)
  }

  /** `removeFromCart(productId)`: drops every line with that id. */
  function RemoveFromCart(cart: seq<Line>, id: string): (r: seq<Line>)
    ensures !HasId(r, id)
    ensures forall l :: l in r <==> l in cart && l.item.id != id
    ensures IsSubseq(r, cart)
    ensures forall l :: multiset(r)[l] == if l.item.id != id then multiset(cart)[l] else 0
  {
    RemoveId(cart, id)
  }

  /** `updateItemQuantity(productId, newQuantity)`. */
  function UpdateItemQuantity(cart: seq<Line>, id: string, newQuantity: int): (r: seq<Line>)
    ensures newQuantity <= 0 ==> r == RemoveFromCart(cart, id)
    ensures newQuantity > 0 ==> |r| == |cart|
    ensures newQuantity > 0 && !HasId(cart, id) ==> r == cart
    ensures newQuantity > 0 && HasId(cart, id) ==> r[FirstIndex(cart, id).value].quantity == newQuantity
    ensures newQuantity > 0 ==> forall i :: 0 <= i < |cart| ==>
      r[i].item == cart[i].item && r[i].productType == cart[i].productType
    ensures newQuantity > 0 ==> forall i :: 0 <= i < |cart| && Some(i) != FirstIndex(cart, id) ==> r[i] == cart[i]
  {
    if newQuantity <= 0 then RemoveFromCart(cart, id)
    else SetQuantity(cart, id, newQuantity)
  }

  /** What `updateCartCount` and `updateCartDisplay` show. */
  datatype Counter = Counter(count: int, checkoutDisabled: bool, total: int)

  function Display(cart: seq<Line>): (r: Counter)
    ensures r.count == ItemCount(cart)
    ensures r.total == Total(cart)
    ensures r.checkoutDisabled <==> r.count == 0
  {
    var count := ItemCount(cart);
    Counter(count, count == 0, if |cart| == 0 then 0 else Total(cart))
  }

  /** A cart this page can produce: one line per id, every quantity at least 1. */
  predicate WellFormed(cart: seq<Line>) {
    NoDupIds(cart) && AllPositive(cart)
  }

  /** Every operation of the page keeps the cart well formed. */
  lemma AddPreservesWellFormed(products: seq<Product>, cart: seq<Line>, id: string)
    requires WellFormed(cart)
    ensures WellFormed(AddToCart(products, cart, id))
  {
    match FindProduct(products, id)
    case None =>
    case Some(p) => MergePreserves(cart, p, None, 1);
  }

  lemma RemovePreservesWellFormed(cart: seq<Line>, id: string)
    requires WellFormed(cart)
    ensures WellFormed(RemoveFromCart(cart, id))
  {
    RemovePreserves(cart, id);
  }

  lemma UpdatePreservesWellFormed(cart: seq<Line>, id: string, q: int)
    requires WellFormed(cart)
    ensures WellFormed(UpdateItemQuantity(cart, id, q))
  {
    if q <= 0 {
      RemovePreserves(cart, id);
    } else {
      var r := UpdateItemQuantity(cart, id, q);
      assert forall i :: 0 <= i < |r| ==> r[i].item == cart[i].item;
    }
  }

  /** A click on "Add to Cart" for a known product adds exactly one item and
      its unit price to the total. */
  lemma AddToCartCountsOne(products: seq<Product>, cart: seq<Line>, id: string)
    requires FindProduct(products, id).Some?
    ensures ItemCount(AddToCart(products, cart, id)) == ItemCount(cart) + 1
    ensures !HasId(cart, id) ==>
      Total(AddToCart(products, cart, id)) == Total(cart) + UnitPrice(FindProduct(products, id).value)
  {
    var p := FindProduct(products, id).value;
    MergeCount(cart, p, None, 1);
    MergeTotal(cart, p, None, 1);
  }

  /** Setting a positive quantity on a line and setting it back restores the
      cart. */
  lemma UpdateRoundTrip(cart: seq<Line>, id: string, q: int)
    requires q > 0 && HasId(cart, id)
    ensures var old_q := cart[FirstIndex(cart, id).value].quantity;
            old_q > 0 ==> UpdateItemQuantity(UpdateItemQuantity(cart, id, q), id, old_q) == cart
  {
    var i := FirstIndex(cart, id).value;
    var c1 := UpdateItemQuantity(cart, id, q);
    assert FirstIndex(c1, id) == Some(i) by {
      assert c1[i].item.id == id;
      forall j | 0 <= j < i ensures c1[j].item.id != id {
        assert c1[j] == cart[j];
      }
      FirstIndexCharacterized(c1, id, i);
    }
  }

  lemma FirstIndexCharacterized(cart: seq<Line>, id: string, i: nat)
    requires i < |cart| && cart[i].item.id == id
    requires forall j :: 0 <= j < i ==> cart[j].item.id != id
    ensures FirstIndex(cart, id) == Some(i)
  {
  }

  /** The modal total equals the cart total also for an empty cart, and the
      checkout button is disabled exactly when the cart has no lines. */
  lemma DisplayAgrees(cart: seq<Line>)
    requires WellFormed(cart)
    ensures Display(cart).total == Total(cart)
    ensures Display(cart).checkoutDisabled <==> |cart| == 0
  {
    CountPositiveIffLines(cart);
  }
}
