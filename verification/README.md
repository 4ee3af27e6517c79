# Storefront decision logic in Dafny

This project models the pure decision logic of a small multi-category storefront
(jackets, movies and games served by three catalogue endpoints). The model covers:

- the listing page's filter engine, with its search, category, gender and genre
  predicates, and the option lists of its drop-downs;
- the listing page's in-memory cart;
- the persisted cart shared by the product and checkout pages, stored under the
  `"cart"` key of local storage;
- the product page's related-products ranking, quantity input and sale display;
- the checkout and confirmation pages, which hand an order over through the
  `"lastOrder"` key.

Everything is a pure function over immutable values:

- products are `Catalog.Product` records;
- cart lines are `Cart.Line` (a product snapshot, an optional collection name and
  a quantity);
- local storage is `Storage.Store`, a map from key to a stored cart or order;
- prices are integer cents, so the fixed shipping of 10.00 is `Checkout.Shipping == 1000`.

Modules follow the source files:

| module | source |
|---|---|
| `Filters`, `FilterOptions`, `ShopCart` | `script.js` |
| `StoredCart` | `js/cart.js` |
| `ProductPage` | `product/product.js` |
| `Checkout` | `checkout/checkout.js` |
| `Confirmation` | `checkout/confirmation/confirmation.js` |

Shared helpers:

- `Cart` holds the line operations both carts share: merge by id, remove by id,
  count, total and the `reduce` loop.
- `Storage` holds the order record and the key-value store.
- `Text`, `Seqs` and `Sorting` hold lower-casing, `includes`, `filter`, `Set`
  de-duplication, summing, the string sort order and a stable sort.

Some behaviour of the code is easy to assume differently. The model follows the code as written:

- Cart lines are keyed by product id alone (`js/cart.js:22`, `script.js:408`). A line
  with the same id merges whatever collection it came from
  (`StoredCart.SameIdAcrossCollectionsMerges`).
- Checkout submission has no empty-cart guard. An empty or missing cart yields an
  order whose total is the shipping alone (`Checkout.EmptySubmitChargesShipping`).
- The filter has one genre predicate for every product: a substring match on title,
  description and tags, in both directions for tags. There is no exact-match variant
  for movies and games. The gender predicate applies to every product, so a product
  without a gender fails any gender other than "all".
- There is no pagination, no rating or age facet and no category scope in the
  filter.

## Model

| member | source | states |
|---|---|---|
| Filters.FilterProducts | script.js:205-276 | the result holds exactly the products that pass all four predicates, and it is a subsequence of the product list (catalogue order kept) |
| Filters.FilterIsSublistOfMatches | script.js:219-227 | the all-defaults shortcut agrees with the general filter, so the result is always the order-preserving sub-list of matching products |
| Filters.DefaultsShowAll | script.js:220-225 | with an empty search and category, gender and genre all "all", the full product list comes back unchanged |
| Filters.ResetFilters | script.js:285-293 | reset yields the default criteria and the full list, which equals filtering with those criteria |
| Filters.FilterIdempotent | script.js:227-272 | filtering the filtered list again with the same criteria changes nothing |
| Filters.FacetsCompose | script.js:227-271 | filtering by all four predicates at once equals filtering by genre, then gender, then category, then search |
| Filters.SearchOkIff | script.js:229-232 | search passes iff the lower-cased term is empty or occurs at some position of the lower-cased title, or of the lower-cased description when present |
| Filters.CaseInsensitiveFacets | script.js:206-209 | search, category and genre values that agree after lower-casing give the same result; gender is compared as typed |
| Filters.UnknownGenderRejectsAll | script.js:242-246 | a gender value other than all/men/women/unisex rejects every product |
| Filters.GenderSelectsExactly | script.js:242-246 | men, women and unisex pass exactly the products whose gender is Male, Female and Unisex |
| Filters.UntaggedFailsCategory | script.js:235-239 | with a category other than "all", a product without tags is never in the result |
| Filters.CategoryTagMatchesGenre | script.js:235-264 | a product passing a category word also passes that word as a genre, since the equal tag contains it |
| Filters.GenreOkIff | script.js:249-264 | the genre predicate passes iff the lower-cased term is "all", occurs in the lower-cased title, occurs in the lower-cased description when present, occurs in some lower-cased tag, or has some lower-cased tag occurring in it |
| Filters.GenreMatchesBothWays | script.js:258-261 | an example: a product tagged "rain" passes the genre "rain jacket" (the tag inside the term) and "ai" (the term inside the tag), but not "snow" |
| FilterOptions.AllTags | script.js:142 | a tag is in the flattened list iff some product carries it; products without tags contribute nothing |
| FilterOptions.CategoryOptions | script.js:141-146 | the category options are duplicate-free, contain exactly the tags that are not mens/womens/unisex, never those three, and list the tags in the order of their first appearance across the products |
| FilterOptions.GenreOptions | script.js:167-195 | the genre options are strictly sorted, lower case, never jacket/womens/mens/unisex, and are exactly the words some product contributes |
| FilterOptions.GenreOptionsDistinct | script.js:195 | the genre options never repeat a word |
| FilterOptions.GenreWordsIn | script.js:170-190 | a word is collected iff some product contributes it |
| FilterOptions.ProductGenresIn | script.js:172-189 | a product contributes a word iff it is a keyword found in its lower-cased title and description, or a lower-cased tag that is not excluded |
| FilterOptions.KeywordsAreGenres | script.js:175-185 | every keyword is lower case and none is an excluded tag |
| FilterOptions.ContributedIsGenre | script.js:183-187 | every contributed word is lower case and not excluded |
| Text.ContainsIff | script.js:231 | the left-to-right `includes` scan succeeds iff the term occurs at some position |
| Text.Lower | script.js:206 | lower-casing keeps the length, turns each upper-case letter into its own lower-case letter (code + 32), leaves every other character as it is, and leaves no upper-case letter |
| Text.SortUnique | script.js:195 | the sorted set of words is strictly increasing and holds exactly the input words |
| Text.InsertUnique | script.js:195 | inserting into a strictly sorted list keeps it strictly sorted and adds exactly the new word |
| Seqs.Filter | script.js:227 | filter keeps exactly the elements that satisfy the predicate |
| Seqs.FilterSubseq | script.js:227 | what filter keeps is a subsequence of its input |
| Seqs.FilterFirstOccurrence | script.js:144-146 | filtering a list that is in first-occurrence order keeps it in that order |
| Seqs.FilterCount | script.js:504 | filter keeps every copy of an element that passes and no copy of one that fails |
| Seqs.Dedupe | script.js:144 | de-duplication through a Set is duplicate-free, keeps every element, is a subsequence of the input, and lists the elements in the order of their first occurrence |
| Catalog.FindProduct | script.js:405 | find returns the first product with the id, and returns nothing iff no product has it |
| ShopCart.AddToCart | script.js:404-417 | an unknown id leaves the cart unchanged; a known id already in the cart raises that line by 1 and keeps the length; the merged line keeps its product snapshot and collection; otherwise one line with quantity 1 is appended; other lines are untouched |
| ShopCart.AddToCartCountsOne | script.js:404-417 | adding a known product raises the item count by exactly 1, and a new line adds its unit price to the total |
| ShopCart.UpdateItemQuantity | script.js:488-500 | a quantity of 0 or less is removal; otherwise the matching line's quantity is set, every line keeps its product snapshot and collection, every other line is unchanged, and an absent id changes nothing |
| ShopCart.RemoveFromCart | script.js:503-507 | every line with the id is dropped, every other line is kept with all its copies, and the kept lines stay in their order |
| ShopCart.AddPreservesWellFormed | script.js:404-417 | adding keeps ids unique and quantities at least 1 |
| ShopCart.RemovePreservesWellFormed | script.js:503-507 | removing keeps ids unique and quantities at least 1 |
| ShopCart.UpdatePreservesWellFormed | script.js:488-500 | updating keeps ids unique and quantities at least 1 |
| ShopCart.UpdateRoundTrip | script.js:488-500 | setting a line's quantity and then setting back its old quantity restores the cart |
| ShopCart.Display | script.js:433-484 | the badge shows the sum of the quantities, the modal total is the cart total (0 for an empty cart), and checkout is disabled iff the count is 0 |
| ShopCart.DisplayAgrees | script.js:433-484 | for a cart the page can produce, the shown total equals the cart total (0 when empty), and checkout is disabled iff the cart has no lines |
| Cart.FirstIndex | js/cart.js:22 | the lookup finds the first line with the id, and finds nothing iff no line has it |
| Cart.FirstIndexUnique | js/cart.js:22 | in a cart without duplicate ids the line found is the only one with that id |
| Cart.Merge | js/cart.js:22-32 | a new id is appended at the end; an existing id keeps the length and leaves every other line unchanged |
| Cart.MergeExisting | js/cart.js:24-25 | the merged line keeps its snapshot and its collection, whatever collection the new add names; only the quantity grows |
| Cart.MergeCount | js/cart.js:22-32 | adding raises the item count by exactly the quantity added |
| Cart.MergeTotal | js/cart.js:22-32 | adding raises the total by the quantity times the unit price of the absorbing line's snapshot |
| Cart.MergePreserves | js/cart.js:22-32 | adding keeps ids unique, and keeps quantities positive when the added quantity is |
| Cart.RemoveId | js/cart.js:120-121 | no line with the id remains; every other line remains with the same number of copies, in order |
| Cart.RemoveIdIdempotent | js/cart.js:120-121 | removing the same id twice is removing it once |
| Cart.RemoveAbsentId | js/cart.js:120-121 | removing an id no line carries leaves the cart as it was |
| Cart.RemovePreserves | js/cart.js:120-121 | removal keeps ids unique and quantities positive |
| Cart.SetQuantity | script.js:494-499 | only the first matching line's quantity changes; snapshots, collections and length stay |
| Cart.SetQuantityCount | script.js:494-499 | setting a quantity changes the count by the difference to the old quantity; an absent id changes nothing |
| Cart.ReduceTotal | checkout/confirmation/confirmation.js:142-145 | the left-to-right reduce equals the sum of unit price times quantity over all lines |
| Cart.TotalNonNegative | js/cart.js:108-111 | with positive quantities the total is never negative |
| Cart.CountPositiveIffLines | js/cart.js:64-69 | with positive quantities the item count is positive iff the cart has lines |
| StoredCart.Endpoint | js/cart.js:127-138 | exactly jackets, movies and games have an endpoint; any other type fails |
| StoredCart.EndpointsDistinct | js/cart.js:127-138 | the three collections map to three different endpoints |
| StoredCart.AddToCart | js/cart.js:12-35 | an invalid type, a failed fetch or an unknown id changes neither the cart nor storage; a found product stores the new cart under "cart" and no other key changes |
| StoredCart.AddToCartFound | js/cart.js:16-35 | a found id present in the cart grows that line by the quantity, keeps the length and leaves other lines alone; otherwise one line with the collection and quantity is appended; the count grows by the quantity and the stored cart is the new one |
| StoredCart.Save | js/cart.js:35 | after saving, "cart" reads back as the saved cart, the stored order is unchanged and no other key changes |
| StoredCart.RemoveFromCart | js/cart.js:120-124 | all lines with the id go, the others stay with the same number of copies and in their order, and the result is stored under "cart" with no other key changed |
| StoredCart.RemoveIdempotent | js/cart.js:120-121 | removing the same id twice is removing it once |
| StoredCart.InitializeCart | js/cart.js:3-9 | a stored cart replaces the in-memory one; an absent key leaves it unchanged; storage is not written |
| StoredCart.PageLoad | js/cart.js:1-9 | a page starts from the stored cart, or from an empty cart when none is stored |
| StoredCart.SyncedPreserved | js/cart.js:3-35 | after a page load, an add and a remove, the in-memory cart equals the stored one, or nothing is stored and the cart is empty |
| StoredCart.SaveThenLoad | js/cart.js:4-6 | a cart saved under "cart" is the cart the next page load starts with |
| StoredCart.Display | js/cart.js:61-117 | the badge shows iff the count is positive; the total shown is the cart total, 0 when empty; checkout is enabled iff there are lines |
| StoredCart.BadgeMatchesCheckout | js/cart.js:64-84 | with positive quantities the badge shows iff checkout is enabled |
| StoredCart.SameIdAcrossCollectionsMerges | js/cart.js:22-25 | a jacket and a movie sharing an id end up as one line of quantity 2 that keeps the jacket's snapshot and price |
| StoredCart.ExampleTotal | js/cart.js:22-35 | one jacket at 100.00 on sale for 80.00 and two at 50.00 cost 180.00 for 3 items |
| Storage.Apply | checkout/checkout.js:79-82 | setItem stores the value under its key, removeItem deletes the key, and no other key changes |
| Storage.GetCart | checkout/checkout.js:10 | a cart is read iff one is stored under "cart", and what is read is that stored cart |
| Storage.GetOrder | checkout/confirmation/confirmation.js:103 | an order is read iff one is stored under "lastOrder", and what is read is that stored order |
| Storage.SaveLoadCart | js/cart.js:35 | a cart written under "cart" reads back as the same cart and leaves the stored order alone |
| ProductPage.Ranked | product/product.js:58-77 | the ranking is a permutation of the candidates that differ from the current product |
| ProductPage.RelatedProducts | product/product.js:55-80 | at most 4 products, none with the current id, all from the collection, and as many as possible up to 4 |
| ProductPage.RelatedIsBestPrefix | product/product.js:61-80 | for the three known types the result is a prefix of the ranking, in non-increasing score, and no omitted candidate scores above an included one |
| ProductPage.RankingIsStable | product/product.js:63-76 | candidates with equal scores keep their catalogue order |
| ProductPage.UnsortedTypeKeepsOrder | product/product.js:70-80 | for any other type the result is the first candidates in catalogue order |
| ProductPage.ScoreRange | product/product.js:64-74 | jacket scores lie in 0..3 and media scores are 0 or 2 |
| Sorting.SortDesc | product/product.js:63-69 | the sort is a permutation of its input in non-increasing key order |
| Sorting.SortStable | product/product.js:63-69 | among elements of equal key, the sort keeps input order |
| Sorting.SortConstantKey | product/product.js:72-76 | when every key is equal the sort changes nothing |
| ProductPage.Minus | product/product.js:254-257 | minus yields q-1 above 1 and 1 otherwise, never below 1, and NaN stays NaN |
| ProductPage.Plus | product/product.js:259-262 | plus yields q+1 below 99 and 99 otherwise, never above 99, and NaN stays NaN |
| ProductPage.Clamp | product/product.js:264-268 | the value ends in [1, 99]; values inside are kept; NaN, 0 and anything at most 1 become 1; anything at least 99 becomes 99 |
| ProductPage.ClampIdempotent | product/product.js:264-268 | clamping a clamped value changes nothing |
| ProductPage.ButtonsStayInRange | product/product.js:254-262 | from a value in [1, 99] neither button leaves [1, 99] |
| ProductPage.ButtonsInverse | product/product.js:254-262 | minus undoes plus below 99, and plus undoes minus above 1 |
| ProductPage.ShownPrice | product/product.js:104-113 | the sale layout (on sale and discounted price lower) shows the discounted price, otherwise the list price is shown; the shown price never exceeds the list price and is below it iff the sale layout is used |
| ProductPage.ShownPriceMatchesCharged | product/product.js:104 | the page shows the price the cart charges unless a product on sale has a discounted price above its price |
| Checkout.StoredCart | checkout/checkout.js:10 | the cart stored under "cart", or the empty cart when none is stored |
| Checkout.OrderSummary | checkout/checkout.js:9-30 | a missing or empty cart redirects; otherwise the summary lists the stored lines with subtotal = cart total, shipping 10.00 and total = subtotal + 10.00 |
| Checkout.DraftOrder | checkout/checkout.js:63-76 | the order's items are the cart, its customer is the fixed default, and its total less shipping is the cart total |
| Checkout.Submit | checkout/checkout.js:48-82 | the order holds the stored cart, total = reduce subtotal + 10.00 and the default customer; afterwards "lastOrder" holds it, "cart" is gone and no other key changes |
| Checkout.SummaryMatchesOrder | checkout/checkout.js:18-24 | the summary's total and lines equal those of the order that submission records |
| Checkout.EmptySubmitChargesShipping | checkout/checkout.js:52-60 | with no cart, or an empty one, submission still records an order of 10.00 |
| Checkout.SubmitNeverLosesCart | checkout/checkout.js:79-82 | after any prefix of the two writes, either the order is stored or the cart is still as before |
| Checkout.ReversedOrderLosesCart | checkout/checkout.js:79-82 | removing the cart first would, if interrupted, leave neither cart nor order |
| Confirmation.Render | checkout/confirmation/confirmation.js:122-151 | the order id and customer are shown as stored; each line shows unit price times quantity; the subtotal is the lines' total, shipping is 10.00, and the total is the stored one |
| Confirmation.Confirm | checkout/confirmation/confirmation.js:102-174 | with no order the page redirects and nothing is removed; if rendering throws, the order stays; otherwise the order is displayed as rendered and "lastOrder" is removed; only a displayed order is removed, and no other key changes |
| Confirmation.ReadOnce | checkout/confirmation/confirmation.js:154 | after an order has been displayed, loading the page again redirects |
| Confirmation.CheckoutThenConfirm | checkout/confirmation/confirmation.js:142-151 | an order written by checkout displays the stored cart's total as subtotal, which with shipping equals the shown total, and leaves neither key behind |
| Confirmation.StoredTotalIsShown | checkout/confirmation/confirmation.js:151 | the shown total is the stored one even when it disagrees with subtotal + shipping |

## Left out

- DOM querying, HTML templating, CSS injection, the mobile menu, the cart modal, the newsletter form and smooth scrolling are interface plumbing with no decision logic.
- `fetch` and the promise flow are network I/O. The fetched collection is a parameter, and a failed request or decoding is `None`.
- `JSON.stringify`/`JSON.parse` and the raw text in local storage are not modelled. A key holds a decoded cart or order, and a key holding the wrong kind of value reads as absent. Behaviour on malformed JSON is not modelled.
- Floating-point prices and `toFixed(2)` are not modelled. Prices are integer cents, and rounding affects display only.
- `Date.now()` and `new Date().toISOString()` are not modelled. The order id and date are parameters.
- `setTimeout` button feedback, console logging and the listing page's use of the global `event` are left out.
- Storage shared between browser tabs is concurrency, so it is left out.
- `fetchProducts` (loading one collection and the "no products" message) is network I/O. `displayProducts` and `displayRelatedProducts` are rendering only.
- `updateProductAttributes` and `showErrorMessage` are rendering only.
- StoredCart.AddToCart: the default `quantity = 1` (js/cart.js:12) is not modelled, so callers pass the quantity explicitly. For an invalid type, `getApiEndpoint` throws before `fetch` is called, so the error escapes `addToCart` uncaught instead of reaching `.catch`. The model returns the session unchanged, which matches the cart and storage, but it does not model the exception reaching the caller.
- The product page's own copy of `getApiEndpoint` (product/product.js:122-133) is identical to `StoredCart.Endpoint`, so it is not modelled twice.
- Text.Lower: lower-cases ASCII letters only. JavaScript's `toLowerCase` covers all of Unicode.
- Text.Below: compares Dafny characters. JavaScript's default sort compares UTF-16 code units, and the two orders agree outside surrogate pairs.
- `parseInt` is not modelled. The quantity buttons and the change handler receive its result as an `Option<int>`, with `None` standing for NaN.
- ShopCart.AddToCart: the "Added!" label and colour change are left out.
- Confirmation.Confirm: the cause of a rendering exception is not modelled. It is a boolean parameter, because it comes from missing page elements or malformed stored data.
