/** Catalog records as the shop and home pages read them, and the two string
    operations their search uses: `toLowerCase` and `includes`. */
module Catalog {
  import opened Options

  /** A product record. `Product` in the source is the category name. The price is
      optional (`Price ?? 0`). */
  datatype Product = Product(
    id: int,
    description: string,
    imageUrl: string,
    price: Option<int>,
    category: string)

  /** Lower-casing of one character, for the ASCII letters A to Z. */
  function LowerChar(c: char): char {
    if 'A' <= c <= 'Z' then (c as int + 32) as char else c
  }

  /** `s.toLowerCase()`. */
  function Lower(s: string): (r: string)
    ensures |r| == |s|
    ensures forall i :: 0 <= i < |s| ==> r[i] == LowerChar(s[i])
  {
    if s == [] then [] else [LowerChar(s[0])] + Lower(s[1..])
  }

  /** Lower-casing twice is lower-casing once. */
  lemma LowerIdempotent(s: string)
    ensures Lower(Lower(s)) == Lower(s)
  {
  }

  /** `hay.includes(needle)`, scanning from the left. */
  function Includes(hay: string, needle: string): bool
    decreases |hay|
  {
    if |needle| > |hay| then false
    else if hay[..|needle|] == needle then true
    else Includes(hay[1..], needle)
  }

  /** `needle` occurs in `hay` starting at position `i`. */
  predicate OccursAt(hay: string, needle: string, i: int) {
    0 <= i && i + |needle| <= |hay| && hay[i..i + |needle|] == needle
  }

  /** `includes` holds exactly when `needle` occurs at some position of `hay`. */
  lemma {:induction false} IncludesIffOccurs(hay: string, needle: string)
    ensures Includes(hay, needle) <==> exists i :: OccursAt(hay, needle, i)
    decreases |hay|
  {
    var n := |needle|;
    if n > |hay| {
    } else if hay[..n] == needle {
      assert OccursAt(hay, needle, 0);
    } else {
      IncludesIffOccurs(hay[1..], needle);
      if exists i :: OccursAt(hay, needle, i) {
        var i :| OccursAt(hay, needle, i);
        assert i != 0;
        TailSlice(hay, i - 1, n);
        assert OccursAt(hay[1..], needle, i - 1);
      }
      if exists i :: OccursAt(hay[1..], needle, i) {
        var i :| OccursAt(hay[1..], needle, i);
        TailSlice(hay, i, n);
        assert OccursAt(hay, needle, i + 1);
      }
    }
  }

  /** The search text occurs in the product's lower-cased description. */
  ghost predicate Mentions(p: Product, search: string) {
    exists k :: OccursAt(Lower(p.description), search, k)
  }

  /** A slice of the tail is the slice of the text one position further on. */
  lemma TailSlice(hay: string, i: int, n: int)
    requires 0 <= i && 0 <= n && i + n < |hay|
    ensures hay[1..][i..i + n] == hay[i + 1..i + 1 + n]
  {
  }

  /** `products.map(p => p.Product)`. */
  function CategoryNames(products: seq<Product>): (r: seq<string>)
    ensures |r| == |products|
    ensures forall i :: 0 <= i < |products| ==> r[i] == products[i].category
  {
    if products == [] then [] else [products[0].category] + CategoryNames(products[1..])
  }
}
