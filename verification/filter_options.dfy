/** The option lists of the category and genre drop-downs
    (`populateCategories` and `populateGenreFilter` in `script.js`). */
module FilterOptions {
  import opened Text
  import opened Seqs
  import opened Catalog

  /** `products.flatMap(product => product.tags || [])`. */
  function AllTags(products: seq<Product>): (r: seq<string>)
    ensures forall t :: t in r <==>
      exists i :: 0 <= i < |products| && products[i].tags.Some? && t in products[i].tags.value
    decreases |products|
  {
    if |products| == 0 then []
    else
      var rest := AllTags(products[1..]);
      assert forall i :: 0 < i < |products| ==> products[i] == products[1..][i - 1];
      assert forall i :: 0 <= i < |products| - 1 ==> products[1..][i] == products[i + 1];
      (if products[0].tags.Some? then products[0].tags.value else []) + rest
  }

  /** The tags that would duplicate the gender filter; compared exactly. */
  predicate IsCategory(tag: string) {
    tag != "mens" && tag != "womens" && tag != "unisex"
  }

  /** The category options: each distinct tag once, in order of first
      appearance, without the gender tags. */
  function CategoryOptions(products: seq<Product>): (r: seq<string>)
    ensures NoDup(r)
    ensures forall t :: t in r <==> t in AllTags(products) && IsCategory(t)
    ensures "mens" !in r && "womens" !in r && "unisex" !in r
    ensures FirstOccurrenceOrder(r, AllTags(products))
  {
    var unique := Dedupe(AllTags(products));
    FilterFirstOccurrence(IsCategory, unique, AllTags(products));
    FilterSubseq(IsCategory, unique);
    SubseqNoDup(Filter(IsCategory, unique), unique);
    Filter(IsCategory, unique)
  }

  /** The keywords looked for in titles and descriptions. */
  const Keywords: seq<string> := ["casual", "sports", "hiking", "outdoor", "winter", "rain", "mountain"]

  /** Lower-cased tags never offered as genres. */
  const NotGenres: seq<string> := ["jacket", "womens", "mens", "unisex"]

  /** `(title + " " + description).toLowerCase()`; a missing description
      concatenates as the text "undefined". */
  function SearchText(p: Product): string {
    Lower(p.title + " " + (if p.description.Some? then p.description.value else "undefined"))
  }

  function FoundIn(text: string): string -> bool {
    kw => Contains(text, kw)
  }

  predicate IsGenre(w: string) {
    w !in NotGenres
  }

  /** The lower-cased tags of one product that may be genres. */
  function GenreTags(tags: seq<string>): seq<string> {
    Filter(IsGenre, seq(|tags|, j requires 0 <= j < |tags| => Lower(tags[j])))
  }

  /** The genre words one product contributes. */
  function ProductGenres(p: Product): seq<string> {
    Filter(FoundIn(SearchText(p)), Keywords)
      + (if p.tags.Some? then GenreTags(p.tags.value) else [])
  }

  /** Whether product `p` contributes the genre word `w`: a keyword found in
      its text, or one of its tags, lower-cased and not excluded. */
  predicate Contributes(p: Product, w: string) {
    || (w in Keywords && Contains(SearchText(p), w))
    || (p.tags.Some? && exists j :: 0 <= j < |p.tags.value| && w == Lower(p.tags.value[j]) && IsGenre(w))
  }

  lemma KeywordsIn(text: string, w: string)
    ensures w in Filter(FoundIn(text), Keywords) <==> w in Keywords && Contains(text, w)
  {
    FilterIn(FoundIn(text), Keywords, w);
  }

  lemma GenreTagsIn(tags: seq<string>, w: string)
    ensures w in GenreTags(tags) <==> exists j :: 0 <= j < |tags| && w == Lower(tags[j]) && IsGenre(w)
  {
    var lowered := seq(|tags|, j requires 0 <= j < |tags| => Lower(tags[j]));
    FilterIn(IsGenre, lowered, w);
    if w in lowered {
      var j :| 0 <= j < |lowered| && lowered[j] == w;
      assert w == Lower(tags[j]);
    }
    if exists j :: 0 <= j < |tags| && w == Lower(tags[j]) && IsGenre(w) {
      var j :| 0 <= j < |tags| && w == Lower(tags[j]) && IsGenre(w);
      assert lowered[j] == w;
    }
  }

  lemma ProductGenresIn(p: Product, w: string)
    ensures w in ProductGenres(p) <==> Contributes(p, w)
  {
    KeywordsIn(SearchText(p), w);
    if p.tags.Some? {
      GenreTagsIn(p.tags.value, w);
    }
  }

  /** Every word any product contributes, with repetitions. */
  function GenreWords(products: seq<Product>): seq<string>
    decreases |products|
  {
    if |products| == 0 then [] else ProductGenres(products[0]) + GenreWords(products[1..])
  }

  /** Some product of the list contributes `w`. */
  predicate SomeContributes(products: seq<Product>, w: string) {
    exists i :: 0 <= i < |products| && Contributes(products[i], w)
  }

  lemma SomeContributesSplit(products: seq<Product>, w: string)
    requires |products| > 0
    ensures SomeContributes(products, w) <==> Contributes(products[0], w) || SomeContributes(products[1..], w)
  {
    if SomeContributes(products, w) {
      var i :| 0 <= i < |products| && Contributes(products[i], w);
      if i > 0 {
        assert products[1..][i - 1] == products[i];
      }
    }
    if SomeContributes(products[1..], w) {
      var i :| 0 <= i < |products[1..]| && Contributes(products[1..][i], w);
      assert products[i + 1] == products[1..][i];
    }
  }

  lemma {:induction false} GenreWordsIn(products: seq<Product>, w: string)
    ensures w in GenreWords(products) <==> SomeContributes(products, w)
    decreases |products|
  {
    if |products| > 0 {
      GenreWordsIn(products[1..], w);
      ProductGenresIn(products[0], w);
      SomeContributesSplit(products, w);
    }
  }

  /** A contributed word is lower case and not excluded. */
  lemma ContributedIsGenre(p: Product, w: string)
    requires Contributes(p, w)
    ensures IsLower(w) && w !in NotGenres
  {
    KeywordsAreGenres();
  }

  /** Each keyword is lower case and none of them is an excluded tag. */
  lemma KeywordsAreGenres()
    ensures forall i :: 0 <= i < |Keywords| ==> IsLower(Keywords[i]) && IsGenre(Keywords[i])
  {
    assert Lower("casual") == "casual";
    assert Lower("sports") == "sports";
    assert Lower("hiking") == "hiking";
    assert Lower("outdoor") == "outdoor";
    assert Lower("winter") == "winter";
    assert Lower("rain") == "rain";
    assert Lower("mountain") == "mountain";
  }

  /** The genre options: the distinct contributed words, sorted, lower case,
      with no excluded tag among them. */
  function GenreOptions(products: seq<Product>): (r: seq<string>)
    ensures StrictlySorted(r)
    ensures forall w :: w in r <==> SomeContributes(products, w)
    ensures forall i :: 0 <= i < |r| ==> IsLower(r[i]) && r[i] !in NotGenres
  {
    var words := GenreWords(products);
    var r := SortUnique(words);
    forall w
      ensures w in r <==> SomeContributes(products, w)
    {
      GenreWordsIn(products, w);
    }
    forall i | 0 <= i < |r|
      ensures IsLower(r[i]) && r[i] !in NotGenres
    {
      GenreWordsIn(products, r[i]);
      var k :| 0 <= k < |products| && Contributes(products[k], r[i]);
      ContributedIsGenre(products[k], r[i]);
    }
    r
  }

  /** The genre options never repeat a word. */
  lemma GenreOptionsDistinct(products: seq<Product>)
    ensures NoDup(GenreOptions(products))
  {
    StrictlySortedDistinct(GenreOptions(products));
  }
}
