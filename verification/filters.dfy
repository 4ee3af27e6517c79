/** The listing page's filter engine (`filterProducts` and `resetFilters` in
    `script.js`): four independent predicates combined with AND over the
    loaded products, keeping their order. */
module Filters {
  import opened Wrappers
  import opened Text
  import opened Seqs
  import opened Catalog

  /** The raw values of the search box and the three drop-downs. */
  datatype Criteria = Criteria(search: string, category: string, gender: string, genre: string)

  /** The values `resetFilters` puts back. */
  const Defaults := Criteria("", "all", "all", "all")

  /** Search: the lower-cased term is empty or occurs in the lower-cased
      title, or in the lower-cased description when there is one. */
  predicate SearchOk(p: Product, term: string) {
    || term == ""
    || Contains(Lower(p.title), term)
    || (p.description.Some? && Contains(Lower(p.description.value), term))
  }

  /** Category: "all", or some tag equals the lower-cased category once it
      is lower-cased itself; a product without tags never passes. */
  predicate CategoryOk(p: Product, category: string) {
    || category == "all"
    || (p.tags.Some? && exists i :: 0 <= i < |p.tags.value| && Lower(p.tags.value[i]) == category)
  }

  /** Gender: compared exactly, without lower-casing, against the API's
      Male/Female/Unisex. */
  predicate GenderOk(p: Product, gender: string) {
    || gender == "all"
    || (gender == "men" && p.gender == "Male")
    || (gender == "women" && p.gender == "Female")
    || (gender == "unisex" && p.gender == "Unisex")
  }

  /** A tag and a genre match when either contains the other. */
  predicate TagMatches(tag: string, genre: string) {
    Contains(Lower(tag), genre) || Contains(genre, Lower(tag))
  }

  /** Genre: "all", or the term occurs in the title or description, or some
      tag partially matches it in either direction. */
  predicate GenreOk(p: Product, genre: string) {
    || genre == "all"
    || Contains(Lower(p.title), genre)
    || (p.description.Some? && Contains(Lower(p.description.value), genre))
    || (p.tags.Some? && exists i :: 0 <= i < |p.tags.value| && TagMatches(p.tags.value[i], genre))
  }

  /** All four predicates, with search, category and genre lower-cased first. */
  predicate Matches(c: Criteria, p: Product) {
    && SearchOk(p, Lower(c.search))
    && CategoryOk(p, Lower(c.category))
    && GenderOk(p, c.gender)
    && GenreOk(p, Lower(c.genre))
  }

  function MatchesFn(c: Criteria): Product -> bool {
    p => Matches(c, p)
  }

  predicate AtDefaults(c: Criteria) {
    Lower(c.search) == "" && Lower(c.category) == "all" && c.gender == "all" && Lower(c.genre) == "all"
  }

  /** `filterProducts()`: all products when every filter is at its default,
      otherwise those matching all four predicates, in catalogue order. */
  function FilterProducts(products: seq<Product>, c: Criteria): (r: seq<Product>)
    ensures forall p :: p in r <==> p in products && Matches(c, p)
    ensures IsSubseq(r, products)
  {
    if AtDefaults(c) then
      SubseqRefl(products);
      products
    else
      FilterSubseq(MatchesFn(c), products);
      Filter(MatchesFn(c), products)
  }

  /** The shortcut for default filters agrees with the general path, so the
      result is always the sub-list of matching products. */
  lemma FilterIsSublistOfMatches(products: seq<Product>, c: Criteria)
    ensures FilterProducts(products, c) == Filter(MatchesFn(c), products)
  {
    if AtDefaults(c) {
      FilterAll(MatchesFn(c), products);
    }
  }

  /** With the default criteria every product is shown, in order. */
  lemma DefaultsShowAll(products: seq<Product>)
    ensures FilterProducts(products, Defaults) == products
  {
    assert Lower("") == "";
    assert Lower("all") == "all";
  }

  /** `resetFilters()`: the default criteria and the full product list, which
      is what filtering with those criteria yields. */
  function ResetFilters(products: seq<Product>): (r: (Criteria, seq<Product>))
    ensures r.0 == Defaults
    ensures r.1 == FilterProducts(products, r.0)
  {
    DefaultsShowAll(products);
    (Defaults, products)
  }

  /** Filtering the result again changes nothing. */
  lemma FilterIdempotent(products: seq<Product>, c: Criteria)
    ensures FilterProducts(FilterProducts(products, c), c) == FilterProducts(products, c)
  {
    var r := FilterProducts(products, c);
    FilterIsSublistOfMatches(products, c);
    FilterIsSublistOfMatches(r, c);
    FilterAll(MatchesFn(c), r);
  }

  function SearchFn(c: Criteria): Product -> bool {
    p => SearchOk(p, Lower(c.search))
  }

  function CategoryFn(c: Criteria): Product -> bool {
    p => CategoryOk(p, Lower(c.category))
  }

  function GenderFn(c: Criteria): Product -> bool {
    p => GenderOk(p, c.gender)
  }

  function GenreFn(c: Criteria): Product -> bool {
    p => GenreOk(p, Lower(c.genre))
  }

  /** The four facets are independent: filtering by each in turn gives the
      same list as filtering by all of them at once. */
  lemma FacetsCompose(products: seq<Product>, c: Criteria)
    ensures FilterProducts(products, c)
         == Filter(SearchFn(c), Filter(CategoryFn(c), Filter(GenderFn(c), Filter(GenreFn(c), products))))
  {
    FilterIsSublistOfMatches(products, c);
    MatchesComposes(products, c);
  }

  lemma MatchesComposes(products: seq<Product>, c: Criteria)
    ensures Filter(MatchesFn(c), products)
         == Filter(SearchFn(c), Filter(CategoryFn(c), Filter(GenderFn(c), Filter(GenreFn(c), products))))
  {
    var gg := p => GenderFn(c)(p) && GenreFn(c)(p);
    var cgg := p => CategoryFn(c)(p) && gg(p);
    FilterFilter(GenderFn(c), GenreFn(c), gg, products);
    FilterFilter(CategoryFn(c), gg, cgg, products);
    assert forall p :: MatchesFn(c)(p) == (SearchFn(c)(p) && cgg(p));
    FilterFilter(SearchFn(c), cgg, MatchesFn(c), products);
  }

  /** Search passes exactly when the lower-cased term is empty or occurs at
      some position of the lower-cased title or description. */
  lemma SearchOkIff(p: Product, search: string)
    ensures SearchOk(p, Lower(search)) <==>
      || Lower(search) == ""
      || (exists k :: OccursAt(Lower(p.title), Lower(search), k))
      || (p.description.Some? && exists k :: OccursAt(Lower(p.description.value), Lower(search), k))
  {
    ContainsIff(Lower(p.title), Lower(search));
    if p.description.Some? {
      ContainsIff(Lower(p.description.value), Lower(search));
    }
  }

  /** The genre predicate in terms of occurrences: the lower-cased term is
      "all", or occurs in the lower-cased title, or in the lower-cased
      description when there is one, or occurs in some lower-cased tag, or
      some lower-cased tag occurs in it. */
  lemma GenreOkIff(p: Product, genre: string)
    ensures GenreOk(p, Lower(genre)) <==>
      || Lower(genre) == "all"
      || (exists k :: OccursAt(Lower(p.title), Lower(genre), k))
      || (p.description.Some? && exists k :: OccursAt(Lower(p.description.value), Lower(genre), k))
      || (p.tags.Some? &&
          exists i, k :: 0 <= i < |p.tags.value| &&
            (OccursAt(Lower(p.tags.value[i]), Lower(genre), k) || OccursAt(Lower(genre), Lower(p.tags.value[i]), k)))
  {
    var g := Lower(genre);
    ContainsIff(Lower(p.title), g);
    if p.description.Some? {
      ContainsIff(Lower(p.description.value), g);
    }
    if p.tags.Some? {
      var tags := p.tags.value;
      forall i | 0 <= i < |tags|
        ensures TagMatches(tags[i], g) <==>
          exists k :: OccursAt(Lower(tags[i]), g, k) || OccursAt(g, Lower(tags[i]), k)
      {
        ContainsIff(Lower(tags[i]), g);
        ContainsIff(g, Lower(tags[i]));
      }
    }
  }

  /** Search, category and genre ignore the case of what was typed or
      chosen; gender does not. */
  lemma CaseInsensitiveFacets(products: seq<Product>, c: Criteria, d: Criteria)
    requires Lower(c.search) == Lower(d.search)
    requires Lower(c.category) == Lower(d.category)
    requires Lower(c.genre) == Lower(d.genre)
    requires c.gender == d.gender
    ensures FilterProducts(products, c) == FilterProducts(products, d)
  {
    FilterIsSublistOfMatches(products, c);
    FilterIsSublistOfMatches(products, d);
    assert forall p :: Matches(c, p) == Matches(d, p);
    FilterSameFn(MatchesFn(c), MatchesFn(d), products);
  }

  lemma {:induction false} FilterSameFn(f: Product -> bool, g: Product -> bool, s: seq<Product>)
    requires forall x :: f(x) == g(x)
    ensures Filter(f, s) == Filter(g, s)
    decreases |s|
  {
    if |s| > 0 {
      FilterSameFn(f, g, s[1..]);
    }
  }

  /** A gender value other than all/men/women/unisex (for example "Men")
      rejects every product. */
  lemma UnknownGenderRejectsAll(products: seq<Product>, c: Criteria)
    requires c.gender !in {"all", "men", "women", "unisex"}
    ensures FilterProducts(products, c) == []
  {
  }

  /** men/women/unisex keep exactly the Male/Female/Unisex products. */
  lemma GenderSelectsExactly(p: Product, gender: string)
    requires gender in {"men", "women", "unisex"}
    ensures GenderOk(p, gender) <==>
      p.gender == (if gender == "men" then "Male" else if gender == "women" then "Female" else "Unisex")
  {
  }

  /** A category other than "all" rejects every product that has no tags. */
  lemma UntaggedFailsCategory(products: seq<Product>, c: Criteria, p: Product)
    requires Lower(c.category) != "all"
    requires p.tags.None?
    ensures p !in FilterProducts(products, c)
  {
  }

  /** A chosen category is also a matching genre: the tag that equals it
      contains it. */
  lemma CategoryTagMatchesGenre(p: Product, word: string)
    requires CategoryOk(p, word)
    ensures GenreOk(p, word)
  {
    if word != "all" {
      var i :| 0 <= i < |p.tags.value| && Lower(p.tags.value[i]) == word;
      ContainsSelf(word);
      assert TagMatches(p.tags.value[i], word);
    }
  }

  /** An example of the two-way tag match: a product tagged "rain" passes
      the genre "rain jacket" (the tag inside the term) and the genre "ai"
      (the term inside the tag), but not "snow". */
  lemma GenreMatchesBothWays()
    ensures var p := Product("1", "Shell", None, 100, 100, false, Some(["rain"]), "Male", "Blue", "");
            GenreOk(p, "rain jacket") && GenreOk(p, "ai") && !GenreOk(p, "snow")
  {
    var p := Product("1", "Shell", None, 100, 100, false, Some(["rain"]), "Male", "Blue", "");
    assert Lower("rain") == "rain";
    assert Lower("Shell") == "shell";
    assert Contains("rain jacket", "rain") by {
      assert IsPrefix("rain", "rain jacket");
    }
    assert TagMatches(p.tags.value[0], "rain jacket");
    assert Contains("rain", "ai") by {
      assert Contains("ain", "ai") by { assert IsPrefix("ai", "ain"); }
    }
    assert TagMatches(p.tags.value[0], "ai");
    NoSnow();
  }

  lemma NoSnow()
    ensures !Contains("shell", "snow") && !Contains("rain", "snow") && !Contains("snow", "rain")
  {
    assert "shell"[..4][1] != "snow"[1];
    assert "hell"[..4][0] != "snow"[0];
    assert "snow"[..4][0] != "rain"[0];
  }
}
