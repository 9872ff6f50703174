/** The home page: the local search over the catalog and the grouping of the
    matching products into one carousel per category. */
module Home {
  import opened Options
  import opened Seqs
  import opened Catalog
  import MapSums
  import Shop

  /** The home search test: the lower-cased description includes `needle`. */
  function Matches(needle: string): Product -> bool {
    (p: Product) => Includes(Lower(p.description), needle)
  }

  /** `filtered`: with a search text, the products whose description includes it,
      both compared in lower case; without one, every product. */
  function HomeFiltered(products: seq<Product>, search: string): seq<Product> {
    if search == "" then products else Filter(products, Matches(Lower(search)))
  }

  /** What the home search keeps: exactly the products that mention the
      lower-cased search text, in catalog order. */
  lemma HomeFilteredMeaning(products: seq<Product>, search: string)
    ensures search == "" ==> HomeFiltered(products, search) == products
    ensures var r := HomeFiltered(products, search);
      forall i :: 0 <= i < |r| ==> r[i] in products && Mentions(r[i], Lower(search))
    ensures forall i :: 0 <= i < |products| && Mentions(products[i], Lower(search)) ==>
      products[i] in HomeFiltered(products, search)
    ensures IsSubsequence(HomeFiltered(products, search), products)
  {
    var r := HomeFiltered(products, search);
    if search == "" {
      FilterAllPass(products, Matches(""));
      FilterIsSubsequence(products, Matches(""));
    } else {
      FilterIsSubsequence(products, Matches(Lower(search)));
    }
    forall i | 0 <= i < |r|
      ensures Mentions(r[i], Lower(search))
    {
      IncludesIffOccurs(Lower(r[i].description), Lower(search));
    }
    forall i | 0 <= i < |products| && Mentions(products[i], Lower(search))
      ensures Includes(Lower(products[i].description), Lower(search))
    {
      IncludesIffOccurs(Lower(products[i].description), Lower(search));
    }
  }

  /** The home search shows what the shop page shows for the same text with no
      category selected. */
  lemma HomeAgreesWithShop(products: seq<Product>, search: string)
    ensures HomeFiltered(products, search) ==
      Shop.Filtered(products, None, Shop.SearchTerm(Some(search)))
  {
    var t := Lower(search);
    if search == "" {
      FilterAllPass(products, Shop.Shown(None, t));
    } else {
      assert t != "" by { assert |t| == |search|; }
      FilterEquivalent(products, Matches(t), Shop.Shown(None, t));
    }
  }

  // ---------------------------------------------------------------------------
  // Grouping
  // ---------------------------------------------------------------------------

  /** The products of category `c`. */
  function InCategory(c: string): Product -> bool {
    (p: Product) => p.category == c
  }

  /** The number of products in each group. */
  function Sizes(grouped: map<string, seq<Product>>): map<string, int> {
    map c | c in grouped :: |grouped[c]|
  }

  /** The group of `c`, or none when `c` is not a key (`acc[c] || []`). */
  function GroupOr(grouped: map<string, seq<Product>>, c: string): seq<Product> {
    if c in grouped then grouped[c] else []
  }

  /** Each key holds the products of `seen` in its category, and no other
      category has any. */
  ghost predicate GroupsOf(seen: seq<Product>, grouped: map<string, seq<Product>>) {
    && (forall c :: Filter(seen, InCategory(c)) == GroupOr(grouped, c))
    && (forall c :: c in grouped ==> grouped[c] != [])
  }

  /** The state of the reduction after the products `seen`: the groups, the keys
      in first-seen order, and the groups together holding `|seen|` products. */
  ghost predicate GroupedSoFar(seen: seq<Product>, grouped: map<string, seq<Product>>, order: seq<string>) {
    && GroupsOf(seen, grouped)
    && order == Dedup(CategoryNames(seen))
    && (forall c :: c in grouped <==> c in order)
    && MapSums.Sum(Sizes(grouped)) == |seen|
  }

  /** The record `filtered.reduce(...)` builds from the products `s`: for each
      product, `acc[c] = acc[c] || []` and then `acc[c].push(p)`. */
  function Grouped(s: seq<Product>): map<string, seq<Product>>
    decreases |s|
  {
    if s == [] then map[]
    else
      var acc := Grouped(s[..|s| - 1]);
      var p := s[|s| - 1];
      acc[p.category := GroupOr(acc, p.category) + [p]]
  }

  /** The order in which that reduction first sets each key. */
  function KeyOrder(s: seq<Product>): seq<string>
    decreases |s|
  {
    if s == [] then []
    else
      var init := s[..|s| - 1];
      var c := s[|s| - 1].category;
      if c in Grouped(init) then KeyOrder(init) else KeyOrder(init) + [c]
  }

  /** What the reduction computes: each key holds exactly its category's
      products in order and is non-empty, the keys are the categories in
      first-seen order, and the groups together hold every product. */
  lemma {:induction false} GroupedMeaning(s: seq<Product>)
    ensures GroupedSoFar(s, Grouped(s), KeyOrder(s))
    decreases |s|
  {
    if s == [] {
      GroupStart();
    } else {
      var init := s[..|s| - 1];
      assert s == init + [s[|s| - 1]];
      GroupedMeaning(init);
      GroupAdvance(init, s[|s| - 1], Grouped(init), KeyOrder(init));
    }
  }

  /** The `reduce` as the loop it runs: `grouped` is the record's contents and
      `order` the order its keys were first set in. */
  method Group(filtered: seq<Product>) returns (grouped: map<string, seq<Product>>, order: seq<string>)
    ensures grouped == Grouped(filtered) && order == KeyOrder(filtered)
    ensures forall c :: c in grouped ==>
      grouped[c] == Filter(filtered, InCategory(c)) && grouped[c] != []
    ensures forall i :: 0 <= i < |filtered| ==> filtered[i].category in grouped
    ensures order == Dedup(CategoryNames(filtered))
    ensures forall c :: c in grouped <==> c in order
    ensures MapSums.Sum(Sizes(grouped)) == |filtered|
  {
    grouped := map[];
    order := [];
    var i := 0;
    while i < |filtered|
      invariant 0 <= i <= |filtered|
      invariant grouped == Grouped(filtered[..i])
      invariant order == KeyOrder(filtered[..i])
    {
      var p := filtered[i];
      var c := p.category;
      assert filtered[..i + 1][..i] == filtered[..i];
      if c !in grouped {
        order := order + [c];
      }
      grouped := grouped[c := GroupOr(grouped, c) + [p]];
      i := i + 1;
    }
    assert filtered[..i] == filtered;
    GroupedMeaning(filtered);
    EveryCategoryGrouped(filtered, grouped);
  }

  /** The empty record before the first product. */
  lemma GroupStart()
    ensures GroupedSoFar([], map[], [])
  {
    assert Sizes(map[]) == map[];
  }

  /** Every category that occurs is a key. */
  lemma EveryCategoryGrouped(seen: seq<Product>, grouped: map<string, seq<Product>>)
    requires GroupsOf(seen, grouped)
    ensures forall i :: 0 <= i < |seen| ==> seen[i].category in grouped
  {
    forall i | 0 <= i < |seen|
      ensures seen[i].category in grouped
    {
      var c := seen[i].category;
      assert InCategory(c)(seen[i]);
      assert seen[i] in Filter(seen, InCategory(c));
    }
  }

  /** One step of the reduction keeps `GroupedSoFar`. */
  lemma GroupAdvance(seen: seq<Product>, p: Product,
                     grouped: map<string, seq<Product>>, order: seq<string>)
    requires GroupedSoFar(seen, grouped, order)
    ensures var c := p.category;
      GroupedSoFar(seen + [p],
        grouped[c := GroupOr(grouped, c) + [p]],
        if c in grouped then order else order + [c])
  {
    var c := p.category;
    var bucket := GroupOr(grouped, c);
    var g := grouped[c := bucket + [p]];
    var o := if c in grouped then order else order + [c];
    GroupsAdvance(seen, p, grouped);
    assert GroupsOf(seen + [p], g);
    DedupNamesSnoc(seen, p);
    assert c in CategoryNames(seen) <==> c in grouped;
    assert o == Dedup(CategoryNames(seen + [p]));
    assert forall c' :: c' in g <==> c' in o;
    SizesAdvance(grouped, c, bucket + [p]);
    assert MapSums.Sum(Sizes(g)) == |seen + [p]|;
    assert GroupedSoFar(seen + [p], g, o);
  }

  /** One step of the reduction keeps `GroupsOf`. */
  lemma GroupsAdvance(seen: seq<Product>, p: Product, grouped: map<string, seq<Product>>)
    requires GroupsOf(seen, grouped)
    ensures var c := p.category;
      GroupsOf(seen + [p], grouped[c := GroupOr(grouped, c) + [p]])
  {
    forall c' ensures Filter(seen + [p], InCategory(c')) ==
      Filter(seen, InCategory(c')) + (if p.category == c' then [p] else [])
    {
      FilterCategorySnoc(seen, p, c');
    }
  }

  /** Replacing one group changes the total by the difference in its size. */
  lemma SizesAdvance(grouped: map<string, seq<Product>>, c: string, bucket: seq<Product>)
    requires |bucket| == (if c in grouped then |grouped[c]| else 0) + 1
    ensures MapSums.Sum(Sizes(grouped[c := bucket])) == MapSums.Sum(Sizes(grouped)) + 1
  {
    var sizes := Sizes(grouped);
    assert MapSums.ValueOr0(sizes, c) == |bucket| - 1;
    assert Sizes(grouped[c := bucket]) == sizes[c := |bucket|];
    MapSums.SumUpdate(sizes, c, |bucket|);
  }

  /** Appending a product adds it to its own category's group only. */
  lemma FilterCategorySnoc(a: seq<Product>, p: Product, c: string)
    ensures Filter(a + [p], InCategory(c)) ==
      Filter(a, InCategory(c)) + (if p.category == c then [p] else [])
  {
    FilterConcat(a, [p], InCategory(c));
    FilterSingleton(p, InCategory(c));
  }

  /** Appending a product adds its category to the key order when it is new. */
  lemma DedupNamesSnoc(a: seq<Product>, p: Product)
    ensures Dedup(CategoryNames(a + [p])) ==
      Dedup(CategoryNames(a)) + (if p.category in CategoryNames(a) then [] else [p.category])
  {
    var n := CategoryNames(a);
    CategoryNamesConcat(a, [p]);
    assert CategoryNames([p]) == [p.category];
    assert CategoryNames(a + [p]) == n + [p.category];
    DedupAfterAppend(n, p.category, {});
    assert Dedup(n + [p.category]) == DedupAfter(n + [p.category], {});
    assert Dedup(n) == DedupAfter(n, {});
  }

  lemma {:induction false} CategoryNamesConcat(a: seq<Product>, b: seq<Product>)
    ensures CategoryNames(a + b) == CategoryNames(a) + CategoryNames(b)
  {
    if a == [] {
      assert a + b == b;
    } else {
      assert (a + b)[1..] == a[1..] + b;
      CategoryNamesConcat(a[1..], b);
    }
  }
}
