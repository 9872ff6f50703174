/** The cart page (`src/app/cart/page.tsx`) for a visitor who is not signed in:
    the guest-cart handlers, which rebuild the list of lines and persist it, and
    the two derived values shown on the page, the item count and the grand total. */
module CartPage {
  import opened Options
  import opened Seqs
  import opened CartContext

  /** A catalog record as the cart page reads it; only the price enters a total. */
  datatype InventoryItem = InventoryItem(
    id: ItemId,
    description: Option<string>,
    category: Option<string>,
    price: Option<int>)

  /** `inventoryMap`: catalog records keyed by `String(ID)`. */
  type Inventory = map<string, InventoryItem>

  // ---------------------------------------------------------------------------
  // itemCount and grandTotal
  // ---------------------------------------------------------------------------

  /** `itemCount`: the sum of the quantities. */
  function ItemCount(lines: seq<CartLine>): (n: int)
    ensures (forall j :: 0 <= j < |lines| ==> lines[j].quantity >= 0) ==> n >= 0
    ensures (forall j :: 0 <= j < |lines| ==> lines[j].quantity > 0) ==> n >= |lines|
  {
    if lines == [] then 0 else lines[0].quantity + ItemCount(lines[1..])
  }

  lemma {:induction false} ItemCountConcat(a: seq<CartLine>, b: seq<CartLine>)
    ensures ItemCount(a + b) == ItemCount(a) + ItemCount(b)
  {
    if a == [] {
      assert a + b == b;
    } else {
      assert (a + b)[1..] == a[1..] + b;
      ItemCountConcat(a[1..], b);
    }
  }

  /** The base price of a line: the catalog price, or 0 when the product or its
      price is missing. */
  function BasePrice(inventory: Inventory, line: CartLine): int {
    var key := IdKey(line.id);
    if key in inventory && inventory[key].price.Some? then inventory[key].price.value else 0
  }

  /** The customization surcharge: counted only when `isCustomized` is set and
      `customPrice` is present and non-zero. */
  function Surcharge(line: CartLine): int {
    if line.isCustomized && line.customPrice.Some? && line.customPrice.value != 0
    then line.customPrice.value
    else 0
  }

  /** What one line adds to the grand total. */
  function LineTotal(inventory: Inventory, line: CartLine): int {
    (BasePrice(inventory, line) + Surcharge(line)) * line.quantity
  }

  /** Every price, surcharge and quantity that enters the total is non-negative. */
  ghost predicate NonNegativeTerms(inventory: Inventory, lines: seq<CartLine>) {
    forall j :: 0 <= j < |lines| ==>
      BasePrice(inventory, lines[j]) >= 0 && Surcharge(lines[j]) >= 0 && lines[j].quantity >= 0
  }

  /** `grandTotal`: the sum of the line totals. */
  function GrandTotal(lines: seq<CartLine>, inventory: Inventory): (t: int)
    ensures NonNegativeTerms(inventory, lines) ==> t >= 0
  {
    if lines == [] then 0
    else
      assert NonNegativeTerms(inventory, lines) ==> NonNegativeTerms(inventory, lines[1..]) by {
        if NonNegativeTerms(inventory, lines) {
          forall j | 0 <= j < |lines[1..]| ensures lines[1..][j] == lines[j + 1] { }
        }
      }
      LineTotal(inventory, lines[0]) + GrandTotal(lines[1..], inventory)
  }

  lemma {:induction false} GrandTotalConcat(a: seq<CartLine>, b: seq<CartLine>, inventory: Inventory)
    ensures GrandTotal(a + b, inventory) == GrandTotal(a, inventory) + GrandTotal(b, inventory)
  {
    if a == [] {
      assert a + b == b;
    } else {
      assert (a + b)[1..] == a[1..] + b;
      GrandTotalConcat(a[1..], b, inventory);
    }
  }

  /** A line whose product is missing from the catalog contributes only its
      surcharge: nothing when it is not customized. */
  lemma MissingProductLine(inventory: Inventory, line: CartLine)
    requires IdKey(line.id) !in inventory
    ensures LineTotal(inventory, line) == Surcharge(line) * line.quantity
    ensures !line.isCustomized ==> LineTotal(inventory, line) == 0
  {
  }

  /** Replacing one line changes the count and the total by that line's difference. */
  lemma {:induction false} TotalsAfterReplace(lines: seq<CartLine>, i: nat, line: CartLine, inventory: Inventory)
    requires i < |lines|
    ensures ItemCount(lines[i := line]) == ItemCount(lines) - lines[i].quantity + line.quantity
    ensures GrandTotal(lines[i := line], inventory) ==
      GrandTotal(lines, inventory) - LineTotal(inventory, lines[i]) + LineTotal(inventory, line)
  {
    var pre, post := lines[..i], lines[i + 1..];
    assert lines == pre + [lines[i]] + post;
    assert lines[i := line] == pre + [line] + post;
    ItemCountConcat(pre + [lines[i]], post);
    ItemCountConcat(pre, [lines[i]]);
    ItemCountConcat(pre + [line], post);
    ItemCountConcat(pre, [line]);
    GrandTotalConcat(pre + [lines[i]], post, inventory);
    GrandTotalConcat(pre, [lines[i]], inventory);
    GrandTotalConcat(pre + [line], post, inventory);
    GrandTotalConcat(pre, [line], inventory);
  }

  // ---------------------------------------------------------------------------
  // The list each guest handler persists
  // ---------------------------------------------------------------------------

  /** `it.Quantity > 0`: the test `changeQuantity` filters with. */
  predicate HasPositiveQuantity(line: CartLine) {
    line.quantity > 0
  }

  /** `Math.max(0, Number(item.Quantity || 0) + delta)`. */
  function NewQuantity(line: CartLine, delta: int): (q: int)
    ensures q >= 0 && q >= line.quantity + delta
    ensures q == line.quantity + delta || q == 0
  {
    if line.quantity + delta < 0 then 0 else line.quantity + delta
  }

  /** Guest `changeQuantity(lines[i], delta)`: set the target's quantity, then drop
      every line whose quantity is not positive. */
  function ChangedQuantity(lines: seq<CartLine>, i: nat, delta: int): (r: seq<CartLine>)
    requires i < |lines|
    ensures forall j :: 0 <= j < |r| ==> r[j].quantity > 0
    ensures |r| <= |lines|
  {
    Filter(lines[i := lines[i].(quantity := NewQuantity(lines[i], delta))], HasPositiveQuantity)
  }

  /** The lines before and after the target keep their order and are kept
      unchanged exactly when their quantity is positive; the target stays, with its
      new quantity, exactly when that quantity is positive. */
  lemma {:induction false} ChangedQuantityShape(lines: seq<CartLine>, i: nat, delta: int)
    requires i < |lines|
    ensures var q := NewQuantity(lines[i], delta);
      ChangedQuantity(lines, i, delta) ==
        Filter(lines[..i], HasPositiveQuantity)
        + (if q > 0 then [lines[i].(quantity := q)] else [])
        + Filter(lines[i + 1..], HasPositiveQuantity)
  {
    var t := lines[i].(quantity := NewQuantity(lines[i], delta));
    var pre, post := lines[..i], lines[i + 1..];
    assert lines[i := t] == pre + [t] + post;
    FilterConcat(pre + [t], post, HasPositiveQuantity);
    FilterConcat(pre, [t], HasPositiveQuantity);
    FilterSingleton(t, HasPositiveQuantity);
  }

  /** On a cart of positive quantities only the target line can change or go, and
      the item count moves by exactly the change of its quantity. */
  lemma {:induction false} ChangedQuantityOnPositiveCart(lines: seq<CartLine>, i: nat, delta: int)
    requires i < |lines|
    requires forall j :: 0 <= j < |lines| ==> lines[j].quantity > 0
    ensures var q := NewQuantity(lines[i], delta);
      && ChangedQuantity(lines, i, delta) ==
           lines[..i] + (if q > 0 then [lines[i].(quantity := q)] else []) + lines[i + 1..]
      && ItemCount(ChangedQuantity(lines, i, delta)) == ItemCount(lines) - lines[i].quantity + q
  {
    var q := NewQuantity(lines[i], delta);
    var pre, post := lines[..i], lines[i + 1..];
    var mid := if q > 0 then [lines[i].(quantity := q)] else [];
    ChangedQuantityShape(lines, i, delta);
    assert forall x :: x in pre ==> HasPositiveQuantity(x);
    assert forall x :: x in post ==> HasPositiveQuantity(x);
    FilterAllPass(pre, HasPositiveQuantity);
    FilterAllPass(post, HasPositiveQuantity);
    assert ChangedQuantity(lines, i, delta) == pre + mid + post;
    ItemCountSplice(lines, i, mid);
    assert ItemCount(mid) == q by {
      if q > 0 {
        assert mid[1..] == [];
      }
    }
  }

  /** Splicing `mid` in place of line `i` changes the count by the difference. */
  lemma {:induction false} ItemCountSplice(lines: seq<CartLine>, i: nat, mid: seq<CartLine>)
    requires i < |lines|
    ensures ItemCount(lines[..i] + mid + lines[i + 1..]) == ItemCount(lines) - lines[i].quantity + ItemCount(mid)
  {
    var pre, post := lines[..i], lines[i + 1..];
    assert lines == pre + [lines[i]] + post;
    ItemCountConcat(pre + mid, post);
    ItemCountConcat(pre, mid);
    ItemCountConcat(pre + [lines[i]], post);
    ItemCountConcat(pre, [lines[i]]);
  }

  /** Guest `changeSize(lines[i], size)`. */
  function ChangedSize(lines: seq<CartLine>, i: nat, size: string): (r: seq<CartLine>)
    requires i < |lines|
    ensures |r| == |lines|
    ensures r[i].size == Some(size)
  {
    lines[i := lines[i].(size := Some(size))]
  }

  /** Changing a size touches nothing but that line's size. */
  lemma ChangedSizeTouchesOnlySize(lines: seq<CartLine>, i: nat, size: string)
    requires i < |lines|
    ensures forall j :: 0 <= j < |lines| && j != i ==> ChangedSize(lines, i, size)[j] == lines[j]
    ensures ChangedSize(lines, i, size)[i].(size := lines[i].size) == lines[i]
  {
  }

  /** Neither the item count nor the total moves when a size changes. */
  lemma ChangedSizeKeepsTotals(lines: seq<CartLine>, i: nat, size: string, inventory: Inventory)
    requires i < |lines|
    ensures ItemCount(ChangedSize(lines, i, size)) == ItemCount(lines)
    ensures GrandTotal(ChangedSize(lines, i, size), inventory) == GrandTotal(lines, inventory)
  {
    var line := lines[i].(size := Some(size));
    TotalsAfterReplace(lines, i, line, inventory);
    assert LineTotal(inventory, line) == LineTotal(inventory, lines[i]);
  }

  /** Guest `removeItem(lines[i])`: every other line, in order. */
  function Removed(lines: seq<CartLine>, i: nat): (r: seq<CartLine>)
    requires i < |lines|
    ensures |r| == |lines| - 1
  {
    lines[..i] + lines[i + 1..]
  }

  /** Removing a line takes away that one line and nothing else. */
  lemma RemovedLine(lines: seq<CartLine>, i: nat)
    requires i < |lines|
    ensures forall j :: 0 <= j < i ==> Removed(lines, i)[j] == lines[j]
    ensures forall j :: i <= j < |lines| - 1 ==> Removed(lines, i)[j] == lines[j + 1]
    ensures multiset(Removed(lines, i)) + multiset{lines[i]} == multiset(lines)
  {
    assert lines == lines[..i] + [lines[i]] + lines[i + 1..];
  }

  /** Removing a line lowers the count and the total by what it contributed. */
  lemma RemovedLineTotals(lines: seq<CartLine>, i: nat, inventory: Inventory)
    requires i < |lines|
    ensures ItemCount(Removed(lines, i)) == ItemCount(lines) - lines[i].quantity
    ensures GrandTotal(Removed(lines, i), inventory) == GrandTotal(lines, inventory) - LineTotal(inventory, lines[i])
  {
    var pre, post := lines[..i], lines[i + 1..];
    assert lines == pre + [lines[i]] + post;
    assert Removed(lines, i) == pre + post;
    ItemCountConcat(pre + [lines[i]], post);
    ItemCountConcat(pre, [lines[i]]);
    ItemCountConcat(pre, post);
    GrandTotalConcat(pre + [lines[i]], post, inventory);
    GrandTotalConcat(pre, [lines[i]], inventory);
    GrandTotalConcat(pre, post, inventory);
  }

  /** `items.find(it => String(it.ID) === String(prod.ID))`. */
  function FindById(lines: seq<CartLine>, key: string): (r: Option<CartLine>)
    ensures r.None? <==> forall j :: 0 <= j < |lines| ==> IdKey(lines[j].id) != key
    ensures r.Some? ==> exists j :: 0 <= j < |lines| && lines[j] == r.value && IdKey(r.value.id) == key &&
                                    (forall k :: 0 <= k < j ==> IdKey(lines[k].id) != key)
  {
    if lines == [] then None
    else if IdKey(lines[0].id) == key then Some(lines[0])
    else
      var r := FindById(lines[1..], key);
      assert r.Some? ==> exists j :: 0 <= j < |lines| && lines[j] == r.value && IdKey(r.value.id) == key &&
                                     (forall k :: 0 <= k < j ==> IdKey(lines[k].id) != key) by {
        if r.Some? {
          var j :| 0 <= j < |lines[1..]| && lines[1..][j] == r.value && IdKey(r.value.id) == key &&
            forall k :: 0 <= k < j ==> IdKey(lines[1..][k].id) != key;
          assert lines[j + 1] == r.value;
          forall k | 0 <= k < j + 1 ensures IdKey(lines[k].id) != key {
            if k > 0 { assert lines[k] == lines[1..][k - 1]; }
          }
        }
      }
      r
  }

  /** The number of lines whose ID matches `key` under `String(...)`. */
  function MatchCount(lines: seq<CartLine>, key: string): (m: nat)
    ensures m <= |lines|
    ensures m == 0 <==> forall j :: 0 <= j < |lines| ==> IdKey(lines[j].id) != key
  {
    if lines == [] then 0
    else
      var rest := MatchCount(lines[1..], key);
      assert (forall j :: 0 <= j < |lines| ==> IdKey(lines[j].id) != key) <==>
        IdKey(lines[0].id) != key && forall j :: 0 <= j < |lines[1..]| ==> IdKey(lines[1..][j].id) != key by {
        if forall j :: 0 <= j < |lines[1..]| ==> IdKey(lines[1..][j].id) != key {
          forall j | 1 <= j < |lines| ensures IdKey(lines[j].id) != key {
            assert lines[j] == lines[1..][j - 1];
          }
        }
      }
      (if IdKey(lines[0].id) == key then 1 else 0) + rest
  }

  /** The `map` step of guest `addToCart`: every line whose ID matches gets `qty` more. */
  function Bumped(lines: seq<CartLine>, key: string, qty: int): (r: seq<CartLine>)
    ensures |r| == |lines|
    ensures forall j :: 0 <= j < |lines| ==>
      r[j] == (if IdKey(lines[j].id) == key then lines[j].(quantity := lines[j].quantity + qty) else lines[j])
  {
    if lines == [] then []
    else
      [if IdKey(lines[0].id) == key then lines[0].(quantity := lines[0].quantity + qty) else lines[0]]
      + Bumped(lines[1..], key, qty)
  }

  /** The line guest `addToCart` appends for a new ID. */
  function NewLine(id: ItemId, qty: int): CartLine {
    CartLine(id, qty, Some("S"), false, None, None)
  }

  /** Guest `addToCart(prod, qty)`: merge by ID only (never by size); append a
      size-"S" line when no line has the ID. */
  function AddedToCart(lines: seq<CartLine>, id: ItemId, qty: int): (r: seq<CartLine>)
    ensures FindById(lines, IdKey(id)).Some? ==> |r| == |lines|
    ensures FindById(lines, IdKey(id)).None? ==> r == lines + [NewLine(id, qty)]
  {
    var key := IdKey(id);
    if FindById(lines, key).Some? then Bumped(lines, key, qty) else lines + [NewLine(id, qty)]
  }

  /** When some line has the ID, every matching line rises by `qty` and nothing else
      changes; otherwise the new line is appended after the old lines. */
  lemma AddedToCartEffect(lines: seq<CartLine>, id: ItemId, qty: int)
    ensures var r := AddedToCart(lines, id, qty);
      if exists j :: 0 <= j < |lines| && IdKey(lines[j].id) == IdKey(id) then
        && |r| == |lines|
        && (forall j :: 0 <= j < |lines| && IdKey(lines[j].id) == IdKey(id) ==>
              r[j] == lines[j].(quantity := lines[j].quantity + qty))
        && (forall j :: 0 <= j < |lines| && IdKey(lines[j].id) != IdKey(id) ==> r[j] == lines[j])
      else
        r == lines + [CartLine(id, qty, Some("S"), false, None, None)]
  {
  }

  /** The amount the bump adds: `qty` once for every line whose ID matches `key`. */
  function BumpTotal(lines: seq<CartLine>, key: string, qty: int): int {
    if lines == [] then 0
    else (if IdKey(lines[0].id) == key then qty else 0) + BumpTotal(lines[1..], key, qty)
  }

  /** The bump raises the item count by exactly `BumpTotal`. */
  lemma {:induction false} ItemCountBumpedBy(lines: seq<CartLine>, key: string, qty: int)
    ensures ItemCount(Bumped(lines, key, qty)) == ItemCount(lines) + BumpTotal(lines, key, qty)
  {
    if lines != [] {
      var b := Bumped(lines, key, qty);
      assert b[1..] == Bumped(lines[1..], key, qty);
      ItemCountBumpedBy(lines[1..], key, qty);
    }
  }

  /** `BumpTotal` is `qty` times the number of matching lines. */
  lemma {:induction false} BumpTotalIsProduct(lines: seq<CartLine>, key: string, qty: int)
    ensures BumpTotal(lines, key, qty) == qty * MatchCount(lines, key)
  {
    if lines != [] {
      BumpTotalIsProduct(lines[1..], key, qty);
      if IdKey(lines[0].id) == key {
        MulSucc(qty, MatchCount(lines[1..], key));
      }
    }
  }

  /** The bump raises the item count by `qty` times the number of matching lines. */
  lemma {:induction false} ItemCountBumped(lines: seq<CartLine>, key: string, qty: int)
    ensures ItemCount(Bumped(lines, key, qty)) == ItemCount(lines) + qty * MatchCount(lines, key)
  {
    ItemCountBumpedBy(lines, key, qty);
    BumpTotalIsProduct(lines, key, qty);
  }

  lemma MulSucc(a: int, m: int)
    ensures a * (1 + m) == a + a * m
  {
  }

  /** `addToCart` raises the item count by `qty` for every matching line, or by
      `qty` once when it appends. */
  lemma ItemCountAfterAdd(lines: seq<CartLine>, id: ItemId, qty: int)
    ensures var m := MatchCount(lines, IdKey(id));
      ItemCount(AddedToCart(lines, id, qty)) == ItemCount(lines) + qty * (if m == 0 then 1 else m)
  {
    var key := IdKey(id);
    if FindById(lines, key).Some? {
      ItemCountBumped(lines, key, qty);
    } else {
      ItemCountConcat(lines, [NewLine(id, qty)]);
    }
  }

  /** No two lines share an ID under `String(...)`. */
  predicate DistinctIds(lines: seq<CartLine>) {
    forall j, k :: 0 <= j < k < |lines| ==> IdKey(lines[j].id) != IdKey(lines[k].id)
  }

  /** Re-adding an ID merges instead of duplicating: `addToCart` keeps IDs distinct. */
  lemma AddedToCartKeepsIdsDistinct(lines: seq<CartLine>, id: ItemId, qty: int)
    requires DistinctIds(lines)
    ensures DistinctIds(AddedToCart(lines, id, qty))
  {
  }

  // ---------------------------------------------------------------------------
  // The page's guest state
  // ---------------------------------------------------------------------------

  /** The cart page's `items` state while no user is signed in. */
  class GuestCart {
    var items: seq<CartLine>

    /** The lines read from the guest cookie when the page loads. */
    constructor (loaded: seq<CartLine>)
      ensures items == loaded
    {
      items := loaded;
    }

    /** `persistGuest(next)`: the cookie write is not modelled; the state becomes `next`. */
    method PersistGuest(next: seq<CartLine>)
      modifies this
      ensures items == next
    {
      items := next;
    }

    /** Guest `changeQuantity(items[i], delta)`. */
    method ChangeQuantity(i: nat, delta: int)
      requires i < |items|
      modifies this
      ensures items == ChangedQuantity(old(items), i, delta)
      ensures forall j :: 0 <= j < |items| ==> items[j].quantity > 0
    {
      var mapped := items[i := items[i].(quantity := NewQuantity(items[i], delta))];
      PersistGuest(Filter(mapped, HasPositiveQuantity));
    }

    /** Guest `changeSize(items[i], size)`. */
    method ChangeSize(i: nat, size: string)
      requires i < |items|
      modifies this
      ensures items == ChangedSize(old(items), i, size)
      ensures ItemCount(items) == ItemCount(old(items))
    {
      ChangedSizeKeepsTotals(items, i, size, map[]);
      PersistGuest(items[i := items[i].(size := Some(size))]);
    }

    /** Guest `removeItem(items[i])`. */
    method RemoveItem(i: nat)
      requires i < |items|
      modifies this
      ensures items == Removed(old(items), i)
      ensures ItemCount(items) == ItemCount(old(items)) - old(items[i].quantity)
    {
      RemovedLineTotals(items, i, map[]);
      PersistGuest(items[..i] + items[i + 1..]);
    }

    /** Guest `addToCart(prod, qty)`; the busy-flag bookkeeping is not modelled. */
    method AddToCart(prod: InventoryItem, qty: int)
      modifies this
      ensures items == AddedToCart(old(items), prod.id, qty)
      ensures old(DistinctIds(items)) ==> DistinctIds(items)
    {
      if DistinctIds(items) {
        AddedToCartKeepsIdsDistinct(items, prod.id, qty);
      }
      var key := IdKey(prod.id);
      var existing := FindById(items, key);
      var next: seq<CartLine>;
      if existing.Some? {
        next := Bumped(items, key, qty);
      } else {
        next := items + [NewLine(prod.id, qty)];
      }
      PersistGuest(next);
    }
  }
}
