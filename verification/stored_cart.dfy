/** The persisted cart shared by the product and checkout pages
    (`js/cart.js`): every change is written to the "cart" key, and each page
    starts from what is stored there. */
module StoredCart {
  import opened Wrappers
  import opened Catalog
  import opened Seqs
  import opened Cart
  import opened Storage

  /** The module-level `cart` array together with local storage. */
  datatype Session = Session(cart: seq<Line>, store: Store)

  /** `getApiEndpoint(type)`: the collection's URL, or the thrown error. */
  function Endpoint(productType: string): (r: Result<string, string>)
    ensures r.Success? <==> productType in {"jackets", "movies", "games"}
  {
    match productType
    case "jackets" => Success("https://v2.api.noroff.dev/rainy-days")
    case "movies" => Success("https://v2.api.noroff.dev/square-eyes")
    case "games" => Success("https://v2.api.noroff.dev/gamehub")
    case _ => Failure("Invalid product type")
  }

  /** Different collections are fetched from different endpoints. */
  lemma EndpointsDistinct(a: string, b: string)
    requires Endpoint(a).Success? && Endpoint(b).Success? && a != b
    ensures Endpoint(a).value != Endpoint(b).value
  {
  }

  /** `localStorage.setItem("cart", JSON.stringify(cart))`. */
  function Save(cart: seq<Line>, st: Store): (r: Store)
    ensures GetCart(r) == Some(cart)
    ensures GetOrder(r) == GetOrder(st)
    ensures SameExcept(r, st, CartKey)
  {
    Apply(st, SetItem(CartKey, CartBlob(cart)))
  }

  /** `addToCart(productId, productType, quantity)`. `fetched` is the
      collection the endpoint returned, or None when the request or the JSON
      decoding failed; failures and unknown ids change nothing. */
  function AddToCart(s: Session, productId: string, productType: string, quantity: int,
                     fetched: Option<seq<Product>>): (r: Session)
    ensures Endpoint(productType).Failure? || fetched.None? ==> r == s
    ensures fetched.Some? && FindProduct(fetched.value, productId).None? ==> r == s
    ensures Endpoint(productType).Success? && fetched.Some? && FindProduct(fetched.value, productId).Some? ==>
      GetCart(r.store) == Some(r.cart) && SameExcept(r.store, s.store, CartKey)
  {
    if Endpoint(productType).Failure? || fetched.None? then s
    else match FindProduct(fetched.value, productId)
      case None => s
      case Some(p) =>
        var cart := Merge(s.cart, p, Some(productType), quantity);
        Session(cart, Save(cart, s.store))
  }

  /** When the product is found, the cart grows exactly as `Merge` says: the
      line with the same id (whatever its collection) grows by `quantity`,
      otherwise one line with the collection name is appended. */
  lemma AddToCartFound(s: Session, productId: string, productType: string, quantity: int,
                       fetched: seq<Product>)
    requires Endpoint(productType).Success?
    requires FindProduct(fetched, productId).Some?
    ensures var p := FindProduct(fetched, productId).value;
            var r := AddToCart(s, productId, productType, quantity, Some(fetched));
            && (HasId(s.cart, productId) ==>
                  var i := FirstIndex(s.cart, productId).value;
                  && |r.cart| == |s.cart|
                  && r.cart[i] == Line(s.cart[i].item, s.cart[i].productType, s.cart[i].quantity + quantity)
                  && forall j :: 0 <= j < |s.cart| && j != i ==> r.cart[j] == s.cart[j])
            && (!HasId(s.cart, productId) ==> r.cart == s.cart + [Line(p, Some(productType), quantity)])
            && ItemCount(r.cart) == ItemCount(s.cart) + quantity
            && GetCart(r.store) == Some(r.cart)
  {
    var p := FindProduct(fetched, productId).value;
    MergeCount(s.cart, p, Some(productType), quantity);
    if HasId(s.cart, productId) {
      MergeExisting(s.cart, p, Some(productType), quantity, FirstIndex(s.cart, productId).value);
    }
  }

  /** `removeFromCart(productId)`: drop the lines and store the result. */
  function RemoveFromCart(s: Session, productId: string): (r: Session)
    ensures !HasId(r.cart, productId)
    ensures forall l :: l in r.cart <==> l in s.cart && l.item.id != productId
    ensures IsSubseq(r.cart, s.cart)
    ensures forall l :: multiset(r.cart)[l] == if l.item.id != productId then multiset(s.cart)[l] else 0
    ensures GetCart(r.store) == Some(r.cart) && SameExcept(r.store, s.store, CartKey)
  {
    var cart := RemoveId(s.cart, productId);
    Session(cart, Save(cart, s.store))
  }

  /** Removing twice is removing once. */
  lemma RemoveIdempotent(s: Session, productId: string)
    ensures RemoveFromCart(RemoveFromCart(s, productId), productId) == RemoveFromCart(s, productId)
  {
    RemoveIdIdempotent(s.cart, productId);
  }

  /** `initializeCart()`: a stored cart replaces the in-memory one; without
      one the in-memory cart is kept. */
  function InitializeCart(s: Session): (r: Session)
    ensures r.store == s.store
    ensures GetCart(s.store).Some? ==> r.cart == GetCart(s.store).value
    ensures GetCart(s.store).None? ==> r.cart == s.cart
  {
    match GetCart(s.store)
    case Some(saved) => Session(saved, s.store)
    case None => s
  }

  /** A page load: the module starts with `let cart = []` and then runs
      `initializeCart`. */
  function PageLoad(st: Store): (r: Session)
    ensures r.store == st
    ensures r.cart == GetCart(st).GetOr([])
  {
    InitializeCart(Session([], st))
  }

  /** The in-memory cart and the stored one agree, or nothing is stored and
      the cart is empty. */
  predicate Synced(s: Session) {
    GetCart(s.store) == Some(s.cart) || (GetCart(s.store).None? && s.cart == [])
  }

  /** Loading a page, adding and removing all keep the two copies in step. */
  lemma SyncedPreserved(s: Session, st: Store, productId: string, productType: string, quantity: int,
                        fetched: Option<seq<Product>>)
    ensures Synced(PageLoad(st))
    ensures Synced(s) ==> Synced(AddToCart(s, productId, productType, quantity, fetched))
    ensures Synced(RemoveFromCart(s, productId))
  {
  }

  /** What a save followed by a page load sees is the cart that was saved,
      with the same lines, count and total. */
  lemma SaveThenLoad(cart: seq<Line>, st: Store)
    ensures PageLoad(Save(cart, st)).cart == cart
  {
    SaveLoadCart(st, cart);
  }

  /** What `updateCartDisplay` shows. */
  datatype View = View(count: int, badgeShown: bool, showsEmpty: bool, total: int, checkoutEnabled: bool)

  function Display(cart: seq<Line>): (v: View)
    ensures v.badgeShown <==> v.count > 0
    ensures v.count == ItemCount(cart)
    ensures v.total == Total(cart)
    ensures v.checkoutEnabled <==> |cart| > 0
    ensures v.showsEmpty <==> |cart| == 0
  {
    var count := ItemCount(cart);
    if |cart| == 0 then View(count, count > 0, true, 0, false)
    else View(count, count > 0, false, Total(cart), true)
  }

  /** With positive quantities the badge shows exactly when checkout is
      enabled. */
  lemma BadgeMatchesCheckout(cart: seq<Line>)
    requires AllPositive(cart)
    ensures Display(cart).badgeShown <==> Display(cart).checkoutEnabled
  {
    CountPositiveIffLines(cart);
  }

  /** A worked example: a jacket at 100.00 on sale for 80.00 once and a
      jacket at 50.00 twice cost 180.00. */
  lemma ExampleTotal()
    ensures var a := Product("A", "A", None, 10000, 8000, true, None, "Male", "", "");
            var b := Product("B", "B", None, 5000, 5000, false, None, "Female", "", "");
            var s1 := AddToCart(Session([], map[]), "A", "jackets", 1, Some([a, b]));
            var s2 := AddToCart(s1, "B", "jackets", 2, Some([a, b]));
            Display(s2.cart).total == 18000 && Display(s2.cart).count == 3
  {
    var a := Product("A", "A", None, 10000, 8000, true, None, "Male", "", "");
    var b := Product("B", "B", None, 5000, 5000, false, None, "Female", "", "");
    var s1 := AddToCart(Session([], map[]), "A", "jackets", 1, Some([a, b]));
    assert FindProduct([a, b], "A") == Some(a);
    assert s1.cart == [Line(a, Some("jackets"), 1)];
    assert FindProduct([a, b], "B") == Some(b);
    assert FirstIndex(s1.cart, "B") == None by {
      assert s1.cart[0].item.id != "B";
    }
    var s2 := AddToCart(s1, "B", "jackets", 2, Some([a, b]));
    assert s2.cart == [Line(a, Some("jackets"), 1), Line(b, Some("jackets"), 2)];
  }

  /** Lines are keyed by id alone: adding product "X" from the jackets and
      then a product "X" from the movies gives one line of quantity 2, which
      keeps the jacket snapshot and the collection name "jackets". */
  lemma SameIdAcrossCollectionsMerges()
    ensures var jacket := Product("X", "Shell", None, 5000, 5000, false, None, "Male", "Blue", "");
            var movie := Product("X", "Film", None, 1500, 1500, false, None, "", "", "Drama");
            var s1 := AddToCart(Session([], map[]), "X", "jackets", 1, Some([jacket]));
            var s2 := AddToCart(s1, "X", "movies", 1, Some([movie]));
            s2.cart == [Line(jacket, Some("jackets"), 2)] && Display(s2.cart).total == 10000
  {
    var jacket := Product("X", "Shell", None, 5000, 5000, false, None, "Male", "Blue", "");
    var movie := Product("X", "Film", None, 1500, 1500, false, None, "", "", "Drama");
    assert FindProduct([jacket], "X") == Some(jacket);
    assert FindProduct([movie], "X") == Some(movie);
    var s1 := AddToCart(Session([], map[]), "X", "jackets", 1, Some([jacket]));
    assert s1.cart == [Line(jacket, Some("jackets"), 1)];
    assert FirstIndex(s1.cart, "X") == Some(0);
  }
}
