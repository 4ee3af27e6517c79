/** Product records as the catalogue endpoints return them. */
module Catalog {
  import opened Wrappers

  /** One product of any of the three collections (jackets, movies, games).
      Prices are integer cents; fields a collection does not carry are the
      empty string (gender and base colour for media, genre for jackets).
      Images, sizes and release data are display-only and left out. */
  datatype Product = Product(
    id: string,
    title: string,
    description: Option<string>,
    price: nat,
    discountedPrice: nat,
    onSale: bool,
    tags: Option<seq<string>>,
    gender: string,
    baseColor: string,
    genre: string)

  /** The price charged per unit: `onSale ? discountedPrice : price`. */
  function UnitPrice(p: Product): nat {
    if p.onSale then p.discountedPrice else p.price
  }

  /** `products.find(p => p.id === id)`: the first product with that id. */
  function FindProduct(products: seq<Product>, id: string): (r: Option<Product>)
    ensures r.Some? <==> exists i :: 0 <= i < |products| && products[i].id == id
    ensures r.Some? ==> r.value in products && r.value.id == id
    ensures r.Some? ==> exists i :: 0 <= i < |products| && products[i] == r.value
                          && forall j :: 0 <= j < i ==> products[j].id != id
    decreases |products|
  {
    if |products| == 0 then None
    else if products[0].id == id then Some(products[0])
    else
      var r := FindProduct(products[1..], id);
      assert forall i :: 0 < i < |products| ==> products[i] == products[1..][i - 1];
      r
  }
}
