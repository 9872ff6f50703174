/** The shop page: the category/search filter, the price sort and the list of
    categories offered in the filter popover. */
module Shop {
  import opened Options
  import opened Seqs
  import opened Catalog

  // ---------------------------------------------------------------------------
  // Search parameter and filter
  // ---------------------------------------------------------------------------

  /** `params.get("search")?.toLowerCase() || ""`: the term is already lower
      case, so lower-casing it again (as the home page does) changes nothing,
      and it is as long as the parameter. */
  function SearchTerm(param: Option<string>): (r: string)
    ensures Lower(r) == r
    ensures param.Some? ==> |r| == |param.value|
  {
    match param
    case None => ""
    case Some(v) => LowerIdempotent(v); Lower(v)
  }

  /** The test a product must pass to be shown: the selected category, when one
      is selected, and the search text in the lower-cased description, when a
      search is active. */
  function Shown(filter: Option<string>, search: string): Product -> bool {
    (p: Product) =>
      !(Truthy(filter) && p.category != filter.value) &&
      !(search != "" && !Includes(Lower(p.description), search))
  }

  /** `products.filter(...)`. */
  function Filtered(products: seq<Product>, filter: Option<string>, search: string): seq<Product> {
    Filter(products, Shown(filter, search))
  }

  /** Every product shown is of the selected category, when one is selected, and
      mentions the search text, when a search is active. */
  lemma FilteredOnlyMatching(products: seq<Product>, filter: Option<string>, search: string)
    ensures var r := Filtered(products, filter, search);
      forall i :: 0 <= i < |r| ==>
        && (Truthy(filter) ==> r[i].category == filter.value)
        && (search != "" ==> Mentions(r[i], search))
  {
    var r := Filtered(products, filter, search);
    forall i | 0 <= i < |r|
      ensures search != "" ==> Mentions(r[i], search)
    {
      IncludesIffOccurs(Lower(r[i].description), search);
    }
  }

  /** Every product of the selected category that mentions the search text is
      shown. */
  lemma FilteredKeepsMatching(products: seq<Product>, filter: Option<string>, search: string)
    ensures forall i :: (0 <= i < |products| &&
      (Truthy(filter) ==> products[i].category == filter.value) &&
      (search != "" ==> Mentions(products[i], search))
      ==> products[i] in Filtered(products, filter, search))
  {
    forall i | 0 <= i < |products| && search != "" && Mentions(products[i], search)
      ensures Includes(Lower(products[i].description), search)
    {
      IncludesIffOccurs(Lower(products[i].description), search);
    }
  }

  /** The filter keeps the catalog order and each kept product's multiplicity,
      and with neither a category nor a search it keeps everything. */
  lemma FilteredOrderAndCount(products: seq<Product>, filter: Option<string>, search: string)
    ensures IsSubsequence(Filtered(products, filter, search), products)
    ensures forall x :: (multiset(Filtered(products, filter, search))[x] ==
      if Shown(filter, search)(x) then multiset(products)[x] else 0)
    ensures !Truthy(filter) && search == "" ==> Filtered(products, filter, search) == products
  {
    FilterIsSubsequence(products, Shown(filter, search));
    forall x {
      FilterMultiplicity(products, Shown(filter, search), x);
    }
    if !Truthy(filter) && search == "" {
      FilterAllPass(products, Shown(filter, search));
    }
  }

  /** `if (cat) setFilter(cat)`: a `category` query parameter selects that
      category; an absent or empty one keeps the current selection. */
  function FilterFromParam(current: Option<string>, cat: Option<string>): Option<string> {
    if Truthy(cat) then cat else current
  }

  /** Arriving with a non-empty `category` parameter, the page shows only products
      of that category, and every product of it that matches the search. */
  lemma FilterFromParamSelects(products: seq<Product>, current: Option<string>, cat: Option<string>, search: string)
    requires Truthy(cat)
    ensures var r := Filtered(products, FilterFromParam(current, cat), search);
      && (forall i :: 0 <= i < |r| ==> r[i].category == cat.value)
      && (forall i ::
            (0 <= i < |products| && products[i].category == cat.value &&
             (search != "" ==> Mentions(products[i], search)))
            ==> products[i] in r)
  {
    FilteredOnlyMatching(products, FilterFromParam(current, cat), search);
    FilteredKeepsMatching(products, FilterFromParam(current, cat), search);
  }

  // ---------------------------------------------------------------------------
  // Stable sort by an integer key
  // ---------------------------------------------------------------------------

  /** `a.Price ?? 0`. */
  function PriceOf(p: Product): int {
    p.price.GetOr(0)
  }

  /** The key under which `price-desc` sorts ascending. */
  function NegatedPrice(p: Product): int {
    -PriceOf(p)
  }

  /** Non-decreasing by `key`. */
  ghost predicate SortedBy(s: seq<Product>, key: Product -> int) {
    forall i, j :: 0 <= i < j < |s| ==> key(s[i]) <= key(s[j])
  }

  /** The products of `s` with the given key. */
  function HasKey(key: Product -> int, k: int): Product -> bool {
    (p: Product) => key(p) == k
  }

  /** Inserts `x` after the last element of `t` whose key is at most `x`'s key. */
  function Insert(t: seq<Product>, x: Product, key: Product -> int): (r: seq<Product>)
    ensures multiset(r) == multiset(t) + multiset{x}
    ensures |r| == |t| + 1
    decreases |t|
  {
    if t == [] || key(t[|t| - 1]) <= key(x) then t + [x]
    else
      assert t == t[..|t| - 1] + [t[|t| - 1]];
      Insert(t[..|t| - 1], x, key) + [t[|t| - 1]]
  }

  /** `Array.prototype.sort` with the comparator `key(a) - key(b)`, which is stable. */
  function SortBy(s: seq<Product>, key: Product -> int): (r: seq<Product>)
    ensures multiset(r) == multiset(s)
    ensures |r| == |s|
    decreases |s|
  {
    if s == [] then []
    else
      assert s == s[..|s| - 1] + [s[|s| - 1]];
      Insert(SortBy(s[..|s| - 1], key), s[|s| - 1], key)
  }

  lemma {:induction false} InsertSorted(t: seq<Product>, x: Product, key: Product -> int)
    requires SortedBy(t, key)
    ensures SortedBy(Insert(t, x, key), key)
    decreases |t|
  {
    if t == [] || key(t[|t| - 1]) <= key(x) {
    } else {
      var last := t[|t| - 1];
      var init := t[..|t| - 1];
      InsertSorted(init, x, key);
      var u := Insert(init, x, key);
      forall i | 0 <= i < |u|
        ensures key(u[i]) <= key(last)
      {
        assert u[i] in multiset(u);
        if u[i] != x {
          assert u[i] in multiset(init);
          var j :| 0 <= j < |init| && init[j] == u[i];
          assert t[j] == u[i];
        }
      }
    }
  }

  /** The sort orders its result by the key and keeps every element. */
  lemma {:induction false} SortBySorted(s: seq<Product>, key: Product -> int)
    ensures SortedBy(SortBy(s, key), key)
    decreases |s|
  {
    if s != [] {
      SortBySorted(s[..|s| - 1], key);
      InsertSorted(SortBy(s[..|s| - 1], key), s[|s| - 1], key);
    }
  }

  /** Inserting `x` keeps, among the elements with `x`'s key, `x` last. */
  lemma {:induction false} InsertStable(t: seq<Product>, x: Product, key: Product -> int, k: int)
    ensures Filter(Insert(t, x, key), HasKey(key, k)) == Filter(t, HasKey(key, k)) + Filter([x], HasKey(key, k))
    decreases |t|
  {
    var p := HasKey(key, k);
    if t == [] || key(t[|t| - 1]) <= key(x) {
      FilterConcat(t, [x], p);
    } else {
      var last := t[|t| - 1];
      var init := t[..|t| - 1];
      assert t == init + [last];
      assert Insert(t, x, key) == Insert(init, x, key) + [last];
      InsertStable(init, x, key, k);
      FilterConcat(Insert(init, x, key), [last], p);
      FilterConcat(init, [last], p);
      assert !(p(x) && p(last));
      SwapFiltered(x, last, p);
    }
  }

  /** Two elements that do not both pass a test may be swapped under the filter. */
  lemma SwapFiltered(x: Product, y: Product, p: Product -> bool)
    requires !(p(x) && p(y))
    ensures Filter([x], p) + Filter([y], p) == Filter([y], p) + Filter([x], p)
  {
    FilterSingleton(x, p);
    FilterSingleton(y, p);
  }

  /** Stability: products with equal keys keep their relative order. */
  lemma {:induction false} SortByStable(s: seq<Product>, key: Product -> int, k: int)
    ensures Filter(SortBy(s, key), HasKey(key, k)) == Filter(s, HasKey(key, k))
    decreases |s|
  {
    if s != [] {
      var init := s[..|s| - 1];
      assert s == init + [s[|s| - 1]];
      SortByStable(init, key, k);
      InsertStable(SortBy(init, key), s[|s| - 1], key, k);
      FilterConcat(init, [s[|s| - 1]], HasKey(key, k));
    }
  }

  /** The `sorted` list: by ascending price, by descending price, or unchanged. */
  function Sorted(filtered: seq<Product>, sort: string): seq<Product> {
    if sort == "price-asc" then SortBy(filtered, PriceOf)
    else if sort == "price-desc" then SortBy(filtered, NegatedPrice)
    else filtered
  }

  /** `sorted` is a permutation of `filtered`; a sort value other than the two
      price orders leaves the list as it is. */
  lemma SortedIsPermutation(filtered: seq<Product>, sort: string)
    ensures multiset(Sorted(filtered, sort)) == multiset(filtered)
    ensures sort != "price-asc" && sort != "price-desc" ==> Sorted(filtered, sort) == filtered
  {
  }

  /** "price-asc" orders by rising `Price ?? 0`. */
  lemma SortedAscending(filtered: seq<Product>)
    ensures var r := Sorted(filtered, "price-asc");
      forall i, j :: 0 <= i < j < |r| ==> PriceOf(r[i]) <= PriceOf(r[j])
  {
    SortBySorted(filtered, PriceOf);
  }

  /** "price-desc" orders by falling `Price ?? 0`. */
  lemma SortedDescending(filtered: seq<Product>)
    ensures var r := Sorted(filtered, "price-desc");
      forall i, j :: 0 <= i < j < |r| ==> PriceOf(r[i]) >= PriceOf(r[j])
  {
    var r := SortBy(filtered, NegatedPrice);
    SortBySorted(filtered, NegatedPrice);
    forall i, j | 0 <= i < j < |r|
      ensures PriceOf(r[i]) >= PriceOf(r[j])
    {
      assert NegatedPrice(r[i]) <= NegatedPrice(r[j]);
    }
  }

  /** Either price order keeps equally priced products in their filtered order. */
  lemma SortedKeepsTies(filtered: seq<Product>, sort: string, price: int)
    ensures Filter(Sorted(filtered, sort), HasKey(PriceOf, price)) ==
            Filter(filtered, HasKey(PriceOf, price))
  {
    if sort == "price-asc" {
      SortByStable(filtered, PriceOf, price);
    } else if sort == "price-desc" {
      DescendingKeepsTies(filtered, price);
    }
  }

  /** Sorting by negated price keeps equally priced products in order. */
  lemma {:induction false} DescendingKeepsTies(filtered: seq<Product>, price: int)
    ensures Filter(SortBy(filtered, NegatedPrice), HasKey(PriceOf, price)) ==
            Filter(filtered, HasKey(PriceOf, price))
  {
    var r := SortBy(filtered, NegatedPrice);
    SameKeyClass(r, price);
    SameKeyClass(filtered, price);
    SortByStable(filtered, NegatedPrice, -price);
  }

  /** Products with price `price` are those with negated price `-price`. */
  lemma {:induction false} SameKeyClass(s: seq<Product>, price: int)
    ensures Filter(s, HasKey(NegatedPrice, -price)) == Filter(s, HasKey(PriceOf, price))
  {
    if s != [] {
      assert HasKey(NegatedPrice, -price)(s[0]) == HasKey(PriceOf, price)(s[0]);
      SameKeyClass(s[1..], price);
    }
  }

  // ---------------------------------------------------------------------------
  // Categories
  // ---------------------------------------------------------------------------

  const DefaultCategories: seq<string> := ["Football", "Basketball", "Anime", "Korean"]

  /** `Array.from(new Set([...defaultCategories, ...products.map(p => p.Product)]))`. */
  function Categories(products: seq<Product>): (r: seq<string>)
    ensures NoDuplicates(r)
    ensures forall i :: 0 <= i < |DefaultCategories| ==> DefaultCategories[i] in r
    ensures forall i :: 0 <= i < |products| ==> products[i].category in r
    ensures forall i :: 0 <= i < |r| ==>
      r[i] in DefaultCategories || r[i] in CategoryNames(products)
  {
    var names := DefaultCategories + CategoryNames(products);
    assert forall i :: 0 <= i < |DefaultCategories| ==> names[i] == DefaultCategories[i];
    assert forall i :: 0 <= i < |products| ==> names[|DefaultCategories| + i] == products[i].category;
    assert forall x :: x in names ==> x in DefaultCategories || x in CategoryNames(products);
    Dedup(names)
  }

  /** The four default categories come first, in their order, whatever the
      catalog holds. */
  lemma CategoriesStartWithDefaults(products: seq<Product>)
    ensures |Categories(products)| >= |DefaultCategories|
    ensures Categories(products)[..|DefaultCategories|] == DefaultCategories
  {
    var d := DefaultCategories;
    assert NoDuplicates(d) by {
      forall i, j | 0 <= i < j < |d|
        ensures d[i] != d[j]
      {
        assert d[i][0] != d[j][0] || |d[i]| != |d[j]|;
      }
    }
    DedupKeepsDistinctPrefix(d, CategoryNames(products), {});
  }
}
