/** The product detail page (`product/product.js`): related products, the
    quantity input and the sale price display. */
module ProductPage {
  import opened Wrappers
  import opened Seqs
  import opened Sorting
  import opened Catalog

  /** How related `p` is to `current`: for jackets 2 for the same gender
      plus 1 for the same base colour, for movies and games 2 for the same
      genre. Other types are not sorted, so every product scores 0. */
  function Score(productType: string, current: Product, p: Product): int {
    if productType == "jackets" then
      (if p.gender == current.gender then 2 else 0) + (if p.baseColor == current.baseColor then 1 else 0)
    else if productType == "movies" || productType == "games" then
      (if p.genre == current.genre then 2 else 0)
    else 0
  }

  function ScoreKey(productType: string, current: Product): Product -> int {
    p => Score(productType, current, p)
  }

  function NotCurrent(current: Product): Product -> bool {
    (p: Product) => p.id != current.id
  }

  /** `allProducts.filter(product => product.id !== currentProduct.id)`. */
  function Candidates(all: seq<Product>, current: Product): seq<Product> {
    Filter(NotCurrent(current), all)
  }

  predicate IsSorted(productType: string) {
    productType in {"jackets", "movies", "games"}
  }

  /** The candidates after the relevance sort (only the three known types
      are sorted). */
  function Ranked(productType: string, all: seq<Product>, current: Product): (r: seq<Product>)
    ensures multiset(r) == multiset(Candidates(all, current))
  {
    if IsSorted(productType) then SortDesc(ScoreKey(productType, current), Candidates(all, current))
    else Candidates(all, current)
  }

  const MaxRelated := 4

  /** `relatedProducts.slice(0, 4)` after filtering and sorting. */
  function RelatedProducts(productType: string, all: seq<Product>, current: Product): (r: seq<Product>)
    ensures |r| <= MaxRelated
    ensures forall i :: 0 <= i < |r| ==> r[i].id != current.id && r[i] in all
    ensures |r| == if |Candidates(all, current)| < MaxRelated then |Candidates(all, current)| else MaxRelated
  {
    var ranked := Ranked(productType, all, current);
    var r := if |ranked| <= MaxRelated then ranked else ranked[..MaxRelated];
    forall i | 0 <= i < |r|
      ensures r[i].id != current.id && r[i] in all
    {
      assert r[i] in multiset(ranked);
      assert r[i] in Candidates(all, current);
    }
    assert |ranked| == |multiset(ranked)| == |Candidates(all, current)|;
    r
  }

  /** The result is the start of the ranked candidates, in non-increasing
      score order, and no candidate left out scores above one shown. */
  lemma RelatedIsBestPrefix(productType: string, all: seq<Product>, current: Product)
    requires IsSorted(productType)
    ensures var r := RelatedProducts(productType, all, current);
            var ranked := Ranked(productType, all, current);
            && r == ranked[..|r|]
            && (forall i, j :: 0 <= i < j < |r| ==> Score(productType, current, r[i]) >= Score(productType, current, r[j]))
            && (forall i, j :: 0 <= i < |r| <= j < |ranked| ==>
                  Score(productType, current, ranked[j]) <= Score(productType, current, r[i]))
  {
    var ranked := Ranked(productType, all, current);
    assert SortedDesc(ScoreKey(productType, current), ranked);
  }

  /** Ties keep catalogue order: the candidates of any one score appear in
      the ranking in the order they had in the collection. */
  lemma RankingIsStable(productType: string, all: seq<Product>, current: Product, k: int)
    ensures WithKey(ScoreKey(productType, current), k, Ranked(productType, all, current))
         == WithKey(ScoreKey(productType, current), k, Candidates(all, current))
  {
    if IsSorted(productType) {
      SortStable(ScoreKey(productType, current), Candidates(all, current), k);
    }
  }

  /** For an unknown type nothing is reordered: the first four candidates
      in catalogue order are shown. The page itself never reaches this case,
      since the page's own `getApiEndpoint` (product/product.js:122-133,
      called at product/product.js:28) throws for such a type
      before the product is fetched; the lemma describes the ranking
      function on its own. */
  lemma UnsortedTypeKeepsOrder(productType: string, all: seq<Product>, current: Product)
    requires !IsSorted(productType)
    ensures RelatedProducts(productType, all, current) == Candidates(all, current)[..|RelatedProducts(productType, all, current)|]
  {
  }

  /** Jacket scores range over 0..3, media scores over {0, 2}. */
  lemma ScoreRange(productType: string, current: Product, p: Product)
    ensures 0 <= Score(productType, current, p) <= 3
    ensures productType != "jackets" ==> Score(productType, current, p) in {0, 2}
  {
  }

  /** The smallest and largest quantity the input accepts. */
  const MinQuantity := 1
  const MaxQuantity := 99

  function Max(a: int, b: int): int {
    if a >= b then a else b
  }

  function Min(a: int, b: int): int {
    if a <= b then a else b
  }

  /** The minus button: `Math.max(1, parseInt(value) - 1)`; a value that
      does not parse stays NaN (None). */
  function Minus(value: Option<int>): (r: Option<int>)
    ensures r.Some? <==> value.Some?
    ensures r.Some? ==> r.value >= MinQuantity
    ensures r.Some? && value.value > MinQuantity ==> r.value == value.value - 1
    ensures r.Some? && value.value <= MinQuantity ==> r.value == MinQuantity
  {
    match value
    case None => None
    case Some(q) => Some(Max(MinQuantity, q - 1))
  }

  /** The plus button: `Math.min(99, parseInt(value) + 1)`. */
  function Plus(value: Option<int>): (r: Option<int>)
    ensures r.Some? <==> value.Some?
    ensures r.Some? ==> r.value <= MaxQuantity
    ensures r.Some? && value.value < MaxQuantity ==> r.value == value.value + 1
    ensures r.Some? && value.value >= MaxQuantity ==> r.value == MaxQuantity
  {
    match value
    case None => None
    case Some(q) => Some(Min(MaxQuantity, q + 1))
  }

  /** The change handler: `Math.max(1, Math.min(99, parseInt(value) || 1))`,
      where NaN and 0 both fall back to 1. */
  function Clamp(value: Option<int>): (r: int)
    ensures MinQuantity <= r <= MaxQuantity
    ensures value.Some? && MinQuantity <= value.value <= MaxQuantity ==> r == value.value
    ensures value.None? || value.value <= MinQuantity ==> r == MinQuantity
    ensures value.Some? && value.value >= MaxQuantity ==> r == MaxQuantity
  {
    var v := match value case Some(q) => (if q == 0 then 1 else q) case None => 1;
    Max(MinQuantity, Min(MaxQuantity, v))
  }

  /** Clamping an already clamped value changes nothing. */
  lemma ClampIdempotent(value: Option<int>)
    ensures Clamp(Some(Clamp(value))) == Clamp(value)
  {
  }

  /** The buttons never take a value in [1, 99] outside it. */
  lemma ButtonsStayInRange(q: int)
    requires MinQuantity <= q <= MaxQuantity
    ensures MinQuantity <= Minus(Some(q)).value <= MaxQuantity
    ensures MinQuantity <= Plus(Some(q)).value <= MaxQuantity
  {
  }

  /** Minus undoes plus below the ceiling, and plus undoes minus above the
      floor. */
  lemma ButtonsInverse(q: int)
    ensures MinQuantity <= q < MaxQuantity ==> Minus(Plus(Some(q))) == Some(q)
    ensures MinQuantity < q <= MaxQuantity ==> Plus(Minus(Some(q))) == Some(q)
  {
  }

  /** The sale layout (struck-through price and badge) is used only when the
      product is on sale and the discounted price is really lower. */
  predicate ShowsSale(p: Product) {
    p.onSale && p.discountedPrice < p.price
  }

  /** The price the page shows as current. */
  function ShownPrice(p: Product): (r: nat)
    ensures ShowsSale(p) ==> r == p.discountedPrice
    ensures !ShowsSale(p) ==> r == p.price
    ensures r <= p.price
    ensures r < p.price <==> ShowsSale(p)
  {
    if ShowsSale(p) then p.discountedPrice else p.price
  }

  /** The page shows the price the cart charges except for a product on sale
      whose discounted price is above its price: the page shows `price`, the
      cart charges `discountedPrice`. */
  lemma ShownPriceMatchesCharged(p: Product)
    ensures ShownPrice(p) == UnitPrice(p) <==> !(p.onSale && p.discountedPrice > p.price)
  {
  }
}
