/** Cart lines and the operations both cart implementations share: lines are
    keyed by product id alone, whatever collection the product came from. */
module Cart {
  import opened Wrappers
  import opened Seqs
  import opened Catalog

  /** `{...product, productType?, quantity}`: a snapshot of the product taken
      when it was added, the collection name (only the persisted cart records
      it) and the quantity. */
  datatype Line = Line(item: Product, productType: Option<string>, quantity: int)

  function Quantity(l: Line): int {
    l.quantity
  }

  /** `(onSale ? discountedPrice : price) * quantity`. */
  function LineTotal(l: Line): int {
    UnitPrice(l.item) * l.quantity
  }

  /** The badge count: the sum of the quantities. */
  function ItemCount(cart: seq<Line>): int {
    Sum(Quantity, cart)
  }

  /** The cart total in cents, before any display rounding. */
  function Total(cart: seq<Line>): int {
    Sum(LineTotal, cart)
  }

  predicate HasId(cart: seq<Line>, id: string) {
    exists i :: 0 <= i < |cart| && cart[i].item.id == id
  }

  /** No two lines carry the same product id. */
  predicate NoDupIds(cart: seq<Line>) {
    forall i, j :: 0 <= i < j < |cart| ==> cart[i].item.id != cart[j].item.id
  }

  predicate AllPositive(cart: seq<Line>) {
    forall i :: 0 <= i < |cart| ==> cart[i].quantity >= 1
  }

  /** `cart.find(item => item.id === id)`, as the index of the first match. */
  function FirstIndex(cart: seq<Line>, id: string): (r: Option<nat>)
    ensures r.Some? <==> HasId(cart, id)
    ensures r.Some? ==> r.value < |cart| && cart[r.value].item.id == id
    ensures r.Some? ==> forall j :: 0 <= j < r.value ==> cart[j].item.id != id
    decreases |cart|
  {
    if |cart| == 0 then None
    else if cart[0].item.id == id then Some(0)
    else
      match FirstIndex(cart[1..], id)
      case None =>
        assert forall i :: 0 < i < |cart| ==> cart[i] == cart[1..][i - 1];
        None
      case Some(k) => Some(k + 1)
  }

  /** In a cart without duplicate ids the first match is the only one. */
  lemma FirstIndexUnique(cart: seq<Line>, id: string, i: nat)
    requires NoDupIds(cart)
    requires i < |cart| && cart[i].item.id == id
    ensures FirstIndex(cart, id) == Some(i)
  {
  }

  /** The filter predicate `item => item.id !== id`. */
  function OtherThan(id: string): Line -> bool {
    (l: Line) => l.item.id != id
  }

  /** `cart.filter(item => item.id !== id)`. */
  function RemoveId(cart: seq<Line>, id: string): (r: seq<Line>)
    ensures !HasId(r, id)
    ensures forall l :: l in r <==> l in cart && l.item.id != id
    ensures IsSubseq(r, cart)
    ensures forall l :: multiset(r)[l] == if l.item.id != id then multiset(cart)[l] else 0
  {
    FilterSubseq(OtherThan(id), cart);
    forall l
      ensures multiset(Filter(OtherThan(id), cart))[l] == if l.item.id != id then multiset(cart)[l] else 0
    {
      FilterCount(OtherThan(id), cart, l);
    }
    Filter(OtherThan(id), cart)
  }

  /** Removing twice is removing once. */
  lemma RemoveIdIdempotent(cart: seq<Line>, id: string)
    ensures RemoveId(RemoveId(cart, id), id) == RemoveId(cart, id)
  {
    var r := RemoveId(cart, id);
    FilterAll(OtherThan(id), r);
  }

  /** Removing an id that no line carries leaves the cart as it was. */
  lemma RemoveAbsentId(cart: seq<Line>, id: string)
    requires !HasId(cart, id)
    ensures RemoveId(cart, id) == cart
  {
    FilterAll(OtherThan(id), cart);
  }

  /** Removing lines keeps the cart free of duplicates and of non-positive
      quantities. */
  lemma RemovePreserves(cart: seq<Line>, id: string)
    ensures NoDupIds(cart) ==> NoDupIds(RemoveId(cart, id))
    ensures AllPositive(cart) ==> AllPositive(RemoveId(cart, id))
  {
    var r := RemoveId(cart, id);
    if NoDupIds(cart) {
      SubseqNoDupIds(r, cart);
    }
    if AllPositive(cart) {
      forall i | 0 <= i < |r|
        ensures r[i].quantity >= 1
      {
        assert r[i] in cart;
      }
    }
  }

  lemma {:induction false} SubseqNoDupIds(s: seq<Line>, t: seq<Line>)
    requires IsSubseq(s, t) && NoDupIds(t)
    ensures NoDupIds(s)
    decreases |t|
  {
    if |s| > 0 && |t| > 0 {
      if s[0] == t[0] && IsSubseq(s[1..], t[1..]) {
        SubseqNoDupIds(s[1..], t[1..]);
        SubseqMembers(s[1..], t[1..]);
        forall j | 0 < j < |s|
          ensures s[0].item.id != s[j].item.id
        {
          assert s[j] == s[1..][j - 1];
          var m :| 0 <= m < |t[1..]| && t[1..][m] == s[j];
          assert t[m + 1] == s[j];
        }
      } else {
        SubseqNoDupIds(s, t[1..]);
      }
    }
  }

  /** Adds `quantity` of product `p`: the first line with `p`'s id grows by
      `quantity`, otherwise a new line is appended at the end. */
  function Merge(cart: seq<Line>, p: Product, productType: Option<string>, quantity: int): (r: seq<Line>)
    ensures !HasId(cart, p.id) ==> r == cart + [Line(p, productType, quantity)]
    ensures HasId(cart, p.id) ==> |r| == |cart|
    ensures forall i :: 0 <= i < |cart| && Some(i) != FirstIndex(cart, p.id) ==> r[i] == cart[i]
  {
    match FirstIndex(cart, p.id)
    case None => cart + [Line(p, productType, quantity)]
    case Some(i) => cart[i := cart[i].(quantity := cart[i].quantity + quantity)]
  }

  /** The merged line keeps its snapshot and collection, and only its
      quantity grows. */
  lemma MergeExisting(cart: seq<Line>, p: Product, productType: Option<string>, quantity: int, i: nat)
    requires FirstIndex(cart, p.id) == Some(i)
    ensures Merge(cart, p, productType, quantity)[i]
         == Line(cart[i].item, cart[i].productType, cart[i].quantity + quantity)
  {
  }

  /** Adding raises the item count by exactly the quantity added. */
  lemma MergeCount(cart: seq<Line>, p: Product, productType: Option<string>, quantity: int)
    ensures ItemCount(Merge(cart, p, productType, quantity)) == ItemCount(cart) + quantity
  {
    var l := Line(p, productType, quantity);
    match FirstIndex(cart, p.id)
    case None =>
      SumConcat(Quantity, cart, [l]);
      assert [l][1..] == [];
    case Some(i) =>
      SumUpdate(Quantity, cart, i, cart[i].(quantity := cart[i].quantity + quantity));
  }

  /** Adding raises the total by the quantity times the unit price of the line
      that absorbs it: the stored snapshot when the id was already present,
      the fetched product otherwise. */
  lemma MergeTotal(cart: seq<Line>, p: Product, productType: Option<string>, quantity: int)
    ensures var snapshot := if HasId(cart, p.id) then cart[FirstIndex(cart, p.id).value].item else p;
            Total(Merge(cart, p, productType, quantity)) == Total(cart) + UnitPrice(snapshot) * quantity
  {
    var l := Line(p, productType, quantity);
    match FirstIndex(cart, p.id)
    case None =>
      SumConcat(LineTotal, cart, [l]);
      assert [l][1..] == [];
    case Some(i) =>
      var l' := cart[i].(quantity := cart[i].quantity + quantity);
      SumUpdate(LineTotal, cart, i, l');
      assert LineTotal(l') == LineTotal(cart[i]) + UnitPrice(cart[i].item) * quantity by {
        var u := UnitPrice(cart[i].item);
        assert u * (cart[i].quantity + quantity) == u * cart[i].quantity + u * quantity;
      }
  }

  /** Adding keeps ids unique, and keeps quantities positive when the added
      quantity is. */
  lemma MergePreserves(cart: seq<Line>, p: Product, productType: Option<string>, quantity: int)
    ensures NoDupIds(cart) ==> NoDupIds(Merge(cart, p, productType, quantity))
    ensures AllPositive(cart) && quantity >= 1 ==> AllPositive(Merge(cart, p, productType, quantity))
  {
  }

  /** `item.quantity = quantity` on the first line with that id, if any. */
  function SetQuantity(cart: seq<Line>, id: string, quantity: int): (r: seq<Line>)
    ensures |r| == |cart|
    ensures forall i :: 0 <= i < |cart| ==> r[i].item == cart[i].item && r[i].productType == cart[i].productType
    ensures forall i :: 0 <= i < |cart| && Some(i) != FirstIndex(cart, id) ==> r[i] == cart[i]
    ensures HasId(cart, id) ==> r[FirstIndex(cart, id).value].quantity == quantity
  {
    match FirstIndex(cart, id)
    case None => cart
    case Some(i) => cart[i := cart[i].(quantity := quantity)]
  }

  /** Setting a quantity changes the count by the difference to the old one. */
  lemma SetQuantityCount(cart: seq<Line>, id: string, quantity: int)
    ensures HasId(cart, id) ==>
      ItemCount(SetQuantity(cart, id, quantity))
        == ItemCount(cart) - cart[FirstIndex(cart, id).value].quantity + quantity
    ensures !HasId(cart, id) ==> SetQuantity(cart, id, quantity) == cart
  {
    if HasId(cart, id) {
      var i := FirstIndex(cart, id).value;
      SumUpdate(Quantity, cart, i, cart[i].(quantity := quantity));
    }
  }

  /** The left-to-right `reduce` that every page uses for the subtotal. */
  method ReduceTotal(items: seq<Line>) returns (sum: int)
    ensures sum == Total(items)
    ensures AllPositive(items) && |items| > 0 ==> sum >= 0
  {
    sum := 0;
    var i := 0;
    while i < |items|
      invariant 0 <= i <= |items|
      invariant sum == Total(items[..i])
    {
      SumConcat(LineTotal, items[..i], [items[i]]);
      assert items[..i + 1] == items[..i] + [items[i]];
      assert [items[i]][1..] == [];
      sum := sum + LineTotal(items[i]);
      i := i + 1;
    }
    assert items[..i] == items;
    if AllPositive(items) {
      forall j | 0 <= j < |items|
        ensures LineTotal(items[j]) >= 0
      {
        assert UnitPrice(items[j].item) >= 0;
      }
      SumNonNegative(LineTotal, items);
    }
  }

  /** Totals are never negative while every quantity is positive. */
  lemma TotalNonNegative(cart: seq<Line>)
    requires AllPositive(cart)
    ensures Total(cart) >= 0
  {
    forall j | 0 <= j < |cart|
      ensures LineTotal(cart[j]) >= 0
    {
    }
    SumNonNegative(LineTotal, cart);
  }

  /** With positive quantities the count is positive exactly when the cart
      has lines, so "no items" and "no lines" agree. */
  lemma CountPositiveIffLines(cart: seq<Line>)
    requires AllPositive(cart)
    ensures ItemCount(cart) > 0 <==> |cart| > 0
  {
    SumPositive(Quantity, cart);
  }
}
