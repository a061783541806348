/** The catalogue page `src/pages/Products.tsx`: the search, category and
    sort pipeline `filterProducts`, and the list of categories offered in its
    drop-down.

    Prices are whole cents and ratings whole tenths of a star. The page's
    comparators subtract two numbers and look only at the sign of the
    difference, and that sign is exact, so integer keys order products
    exactly as the page does. */
module ProductList {
  import opened Sequences

  datatype Rating = Rating(rate: int, count: int)

  /** A product as the catalogue delivers it. */
  datatype Product = Product(
    id: int, title: string, price: int, description: string,
    category: string, image: string, rating: Rating)

  // ----- search -----

  /** `String.prototype.toLowerCase` on one character, for the letters A to Z. */
  function LowerChar(c: char): char {
    if 'A' <= c <= 'Z' then (c as int + 32) as char else c
  }

  /** Lower-casing keeps the length, turns each letter A to Z into its
      lower-case letter and leaves every other character as it is, so no
      letter A to Z is left behind. */
  function ToLower(s: string): (r: string)
    ensures |r| == |s|
    ensures forall i :: 0 <= i < |s| ==>
              if 'A' <= s[i] <= 'Z' then r[i] as int == s[i] as int + 32 else r[i] == s[i]
    ensures forall i :: 0 <= i < |r| ==> !('A' <= r[i] <= 'Z')
  {
    Map(s, LowerChar)
  }

  /** Lower-casing twice is lower-casing once, so the search is insensitive to
      the case of the term as well as of the product text. */
  lemma ToLowerIdempotent(s: string)
    ensures ToLower(ToLower(s)) == ToLower(s)
  {
    var once := ToLower(s);
    forall i | 0 <= i < |s| ensures ToLower(once)[i] == once[i] { }
  }

  /** `needle` starts at position `i` of `hay`. */
  predicate OccursAt(hay: string, needle: string, i: int) {
    0 <= i && i + |needle| <= |hay| && hay[i..i + |needle|] == needle
  }

  /** `hay.includes(needle)`: try each start position from the left. The
      empty string occurs in every string, and no string occurs in a shorter
      one. */
  function Includes(hay: string, needle: string): (r: bool)
    ensures needle == [] ==> r
    ensures r ==> |needle| <= |hay|
    decreases |hay|
  {
    if |needle| > |hay| then false
    else if hay[..|needle|] == needle then true
    else Includes(hay[1..], needle)
  }

  /** `Includes` holds exactly when the needle occurs somewhere in the hay. */
  lemma {:induction false} IncludesIff(hay: string, needle: string)
    ensures Includes(hay, needle) <==> exists i :: OccursAt(hay, needle, i)
    decreases |hay|
  {
    if |needle| > |hay| {
    } else if hay[..|needle|] == needle {
      assert OccursAt(hay, needle, 0);
    } else {
      IncludesIff(hay[1..], needle);
      forall i | OccursAt(hay[1..], needle, i) ensures OccursAt(hay, needle, i + 1) {
        assert hay[1..][i..i + |needle|] == hay[i + 1..i + 1 + |needle|];
      }
      forall i | OccursAt(hay, needle, i) ensures OccursAt(hay[1..], needle, i - 1) {
        assert i != 0;
        assert hay[1..][i - 1..i - 1 + |needle|] == hay[i..i + |needle|];
      }
    }
  }

  /** The search predicate of `filterProducts`: the lower-cased term occurs in
      the lower-cased title or in the lower-cased description. */
  predicate MatchesSearch(p: Product, term: string) {
    Includes(ToLower(p.title), ToLower(term)) || Includes(ToLower(p.description), ToLower(term))
  }

  function SearchHit(term: string): Product -> bool {
    (p: Product) => MatchesSearch(p, term)
  }

  function InCategory(category: string): Product -> bool {
    (p: Product) => p.category == category
  }

  /** The search step: an empty term (falsy in the source) keeps everything. */
  function SearchStep(products: seq<Product>, term: string): (r: seq<Product>)
    ensures term == "" ==> r == products
    ensures term != "" ==> forall p :: p in r <==> p in products && MatchesSearch(p, term)
    ensures forall p :: MatchesSearch(p, term) ==> multiset(r)[p] == multiset(products)[p]
    ensures IsSubsequence(r, products)
    ensures multiset(r) <= multiset(products)
  {
    if term == "" then
      assert IsSubsequence(products, products) by { SubsequenceReflexive(products); }
      products
    else
      FilterSpec(products, SearchHit(term));
      Filter(products, SearchHit(term))
  }

  /** The category step: `"all"` keeps everything, any other value keeps the
      products of exactly that category. */
  function CategoryStep(products: seq<Product>, category: string): (r: seq<Product>)
    ensures category == "all" ==> r == products
    ensures category != "all" ==> forall p :: p in r <==> p in products && p.category == category
    ensures forall p: Product :: p.category == category ==> multiset(r)[p] == multiset(products)[p]
    ensures IsSubsequence(r, products)
    ensures multiset(r) <= multiset(products)
  {
    if category != "all" then
      FilterSpec(products, InCategory(category));
      Filter(products, InCategory(category))
    else
      assert IsSubsequence(products, products) by { SubsequenceReflexive(products); }
      products
  }

  /** A product passes both filter steps. */
  predicate Passes(p: Product, term: string, category: string) {
    (term == "" || MatchesSearch(p, term)) && (category == "all" || p.category == category)
  }

  /** The products that survive both filter steps, before sorting: every copy
      of a passing product, in the original order. */
  function Selected(products: seq<Product>, term: string, category: string): (r: seq<Product>)
    ensures IsSubsequence(r, products)
    ensures multiset(r) <= multiset(products)
    ensures forall p :: p in r <==> p in products && Passes(p, term, category)
    ensures forall p :: Passes(p, term, category) ==> multiset(r)[p] == multiset(products)[p]
  {
    var searched := SearchStep(products, term);
    var r := CategoryStep(searched, category);
    SubsequenceTransitive(r, searched, products);
    r
  }

  // ----- sort -----

  /** The comparator handed to `sort`: negative when `a` goes first. A
      `localeCompare` of two titles is the difference of their ranks in the
      collation. */
  function Compare(sortBy: string, collation: string -> int, a: Product, b: Product): int {
    if sortBy == "price-low" then a.price - b.price
    else if sortBy == "price-high" then b.price - a.price
    else if sortBy == "rating" then b.rating.rate - a.rating.rate
    else collation(a.title) - collation(b.title)
  }

  /** The integer key each `sortBy` value orders by, ascending: `"price-low"`
      by price, `"price-high"` by price reversed, `"rating"` by rating
      reversed, and anything else by the title's rank in the collation. One
      product's key is at most another's exactly when the comparator does
      not put the second first. */
  function SortKey(sortBy: string, collation: string -> int): (key: Product -> int)
    ensures forall a, b :: key(a) <= key(b) <==> Compare(sortBy, collation, a, b) <= 0
  {
    (p: Product) =>
      if sortBy == "price-low" then p.price
      else if sortBy == "price-high" then -p.price
      else if sortBy == "rating" then -p.rating.rate
      else collation(p.title)
  }

  predicate SortedBy(s: seq<Product>, key: Product -> int) {
    forall i, j :: 0 <= i < j < |s| ==> key(s[i]) <= key(s[j])
  }

  /** The first `n` elements of `a` are in key order. */
  ghost predicate PrefixSorted(a: array<Product>, n: int, key: Product -> int)
    reads a
  {
    forall p, q :: 0 <= p < q < n && q < a.Length ==> key(a[p]) <= key(a[q])
  }

  /** Exchange two neighbours. */
  method SwapDown(a: array<Product>, j: int)
    requires 0 < j < a.Length
    modifies a
    ensures a[j - 1] == old(a[j]) && a[j] == old(a[j - 1])
    ensures forall k :: 0 <= k < a.Length && k != j - 1 && k != j ==> a[k] == old(a[k])
    ensures multiset(a[..]) == multiset(old(a[..]))
  {
    a[j - 1], a[j] := a[j], a[j - 1];
  }

  /** Sink `a[i]` into the sorted prefix before it. */
  method Insert(a: array<Product>, i: int, key: Product -> int)
    requires 0 <= i < a.Length
    requires PrefixSorted(a, i, key)
    modifies a
    ensures PrefixSorted(a, i + 1, key)
    ensures multiset(a[..]) == multiset(old(a[..]))
  {
    var j := i;
    while j > 0 && key(a[j - 1]) > key(a[j])
      invariant 0 <= j <= i
      invariant forall p, q :: 0 <= p < q <= i && q != j ==> key(a[p]) <= key(a[q])
      invariant 0 < j < i ==> key(a[j - 1]) <= key(a[j + 1])
      invariant multiset(a[..]) == multiset(old(a[..]))
    {
      SwapDown(a, j);
      j := j - 1;
    }
  }

  /** `filtered.sort(compare)` on the page's local copy, as an insertion sort:
      the result is ordered by the key and is a permutation of the input. */
  method SortInPlace(a: array<Product>, key: Product -> int)
    modifies a
    ensures SortedBy(a[..], key)
    ensures multiset(a[..]) == multiset(old(a[..]))
  {
    var i := 0;
    while i < a.Length
      invariant 0 <= i <= a.Length
      invariant PrefixSorted(a, i, key)
      invariant multiset(a[..]) == multiset(old(a[..]))
    {
      Insert(a, i, key);
      i := i + 1;
    }
  }

  /** `filterProducts`: search, then category, then sort a fresh copy. */
  method FilterProducts(products: seq<Product>, searchTerm: string, selectedCategory: string,
                        sortBy: string, collation: string -> int)
    returns (filtered: seq<Product>)
    ensures multiset(filtered) == multiset(Selected(products, searchTerm, selectedCategory))
    ensures forall p :: p in filtered <==> p in products && Passes(p, searchTerm, selectedCategory)
    ensures forall p :: Passes(p, searchTerm, selectedCategory) ==> multiset(filtered)[p] == multiset(products)[p]
    ensures forall i, j :: 0 <= i < j < |filtered| ==> Compare(sortBy, collation, filtered[i], filtered[j]) <= 0
    ensures sortBy == "price-low" ==>
              forall i, j :: 0 <= i < j < |filtered| ==> filtered[i].price <= filtered[j].price
    ensures sortBy == "price-high" ==>
              forall i, j :: 0 <= i < j < |filtered| ==> filtered[i].price >= filtered[j].price
    ensures sortBy == "rating" ==>
              forall i, j :: 0 <= i < j < |filtered| ==> filtered[i].rating.rate >= filtered[j].rating.rate
    ensures sortBy !in {"price-low", "price-high", "rating"} ==>
              forall i, j :: 0 <= i < j < |filtered| ==> collation(filtered[i].title) <= collation(filtered[j].title)
  {
    var selected := Selected(products, searchTerm, selectedCategory);
    var a := new Product[|selected|](i requires 0 <= i < |selected| => selected[i]);
    assert a[..] == selected;
    var key := SortKey(sortBy, collation);
    SortInPlace(a, key);
    filtered := a[..];
    assert forall p :: p in filtered <==> p in multiset(filtered);
    assert forall p :: p in selected <==> p in multiset(selected);
  }

  // ----- categories -----

  function CategoryColumn(products: seq<Product>): seq<string> {
    Map(products, (p: Product) => p.category)
  }

  /** `["all", ...Array.from(new Set(products.map(p => p.category)))]`. */
  function Categories(products: seq<Product>): (r: seq<string>)
    ensures |r| >= 1 && r[0] == "all"
    ensures NoDuplicates(r[1..])
    ensures forall c :: c in r[1..] <==> exists p :: p in products && p.category == c
    ensures InFirstOccurrenceOrder(r[1..], CategoryColumn(products))
  {
    var column := CategoryColumn(products);
    var distinct := DistinctInOrder(column);
    DistinctInOrderFirstOccurrence(column);
    var r := ["all"] + distinct;
    assert r[1..] == distinct;
    assert forall c :: c in column <==> exists p :: p in products && p.category == c by {
      forall c | c in column ensures exists p :: p in products && p.category == c {
        var i :| 0 <= i < |column| && column[i] == c;
        assert products[i] in products;
      }
      forall c | (exists p :: p in products && p.category == c) ensures c in column {
        var p :| p in products && p.category == c;
        var i :| 0 <= i < |products| && products[i] == p;
        assert column[i] == c;
      }
    }
    r
  }
}
