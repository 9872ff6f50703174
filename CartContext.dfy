/** The cart context: the in-memory item counter kept by the cart provider
    (`src/context/CartContext.tsx`), the guest-cart line record stored in the
    `guest_cart` cookie, and the list step of removing a guest item by id. */
module CartContext {
  import opened Options
  import opened Seqs
  import MapSums

  // ---------------------------------------------------------------------------
  // Item identifiers and their `String(...)` form
  // ---------------------------------------------------------------------------

  /** An item ID as stored in a cart line or a catalog record: `number | string`.
      Numbers are modelled as safe integers (magnitude below 2^53). */
  datatype ItemId = Num(n: int) | Text(s: string)

  function DigitChar(d: nat): char
    requires d < 10
  {
    ('0' as int + d) as char
  }

  /** The decimal digits of a natural number, as `String(n)` writes them for a
      safe integer. */
  function NatDigits(n: nat): (r: string)
    ensures |r| >= 1
    ensures forall i :: 0 <= i < |r| ==> '0' <= r[i] <= '9'
    decreases n
  {
    if n < 10 then [DigitChar(n)] else NatDigits(n / 10) + [DigitChar(n % 10)]
  }

  /** `String(id)`: the form in which every ID comparison and every lookup of the
      cart code is made. */
  function IdKey(id: ItemId): string {
    match id
    case Num(n) => if n < 0 then "-" + NatDigits(-n) else NatDigits(n)
    case Text(s) => s
  }

  lemma {:induction false} NatDigitsInjective(a: nat, b: nat)
    requires NatDigits(a) == NatDigits(b)
    ensures a == b
    decreases a
  {
    var ra, rb := NatDigits(a), NatDigits(b);
    if a < 10 && b < 10 {
      assert ra[0] == DigitChar(a) && rb[0] == DigitChar(b);
    } else if a >= 10 && b >= 10 {
      assert ra[|ra| - 1] == DigitChar(a % 10) && rb[|rb| - 1] == DigitChar(b % 10);
      assert ra[..|ra| - 1] == NatDigits(a / 10);
      assert rb[..|rb| - 1] == NatDigits(b / 10);
      NatDigitsInjective(a / 10, b / 10);
    }
  }

  /** Only zero is written with a leading `0`, and then as the single digit. */
  lemma {:induction false} NatDigitsNoLeadingZero(n: nat)
    ensures NatDigits(n)[0] == '0' ==> n == 0 && NatDigits(n) == "0"
    decreases n
  {
    if n >= 10 {
      NatDigitsNoLeadingZero(n / 10);
      assert NatDigits(n)[0] == NatDigits(n / 10)[0];
    }
  }

  /** A text ID with a leading zero, such as "01", never matches a numeric ID
      under `String(...)`: the number 1 is written "1". */
  lemma LeadingZeroNeverMatches(t: string, a: int)
    requires |t| >= 2 && t[0] == '0'
    ensures IdKey(Text(t)) != IdKey(Num(a))
  {
    if a >= 0 {
      NatDigitsNoLeadingZero(a);
    }
  }

  /** Two numeric IDs match under `String(...)` exactly when they are equal. */
  lemma NumKeyMatches(a: int, b: int)
    ensures IdKey(Num(a)) == IdKey(Num(b)) <==> a == b
  {
    var ka, kb := IdKey(Num(a)), IdKey(Num(b));
    if a < 0 && b < 0 {
      if ka == kb {
        assert ka[1..] == NatDigits(-a) && kb[1..] == NatDigits(-b);
        NatDigitsInjective(-a, -b);
      }
    } else if a < 0 {
      assert ka[0] == '-' && '0' <= kb[0] <= '9';
    } else if b < 0 {
      assert kb[0] == '-' && '0' <= ka[0] <= '9';
    } else if ka == kb {
      NatDigitsInjective(a, b);
    }
  }

  // ---------------------------------------------------------------------------
  // The in-memory counter: `Record<string, number>`
  // ---------------------------------------------------------------------------

  /** Item id to count. */
  type Cart = map<string, int>

  /** `prev[id] || 0`: an absent id counts as 0. */
  function CountOf(c: Cart, id: string): int {
    MapSums.ValueOr0(c, id)
  }

  /** Every stored count is positive: the state `addItem` and `removeItem` keep. */
  ghost predicate AllPositive(c: Cart) {
    forall k :: k in c ==> c[k] > 0
  }

  /** The cart after `addItem(id)`. */
  function AfterAdd(c: Cart, id: string): (r: Cart)
    ensures id in r && r[id] == CountOf(c, id) + 1
    ensures forall k :: k != id ==> (k in r <==> k in c) && CountOf(r, k) == CountOf(c, k)
    ensures AllPositive(c) ==> AllPositive(r)
  {
    c[id := CountOf(c, id) + 1]
  }

  /** The cart after `removeItem(id)`. */
  function AfterRemove(c: Cart, id: string): (r: Cart)
    ensures CountOf(c, id) == 0 ==> r == c
    ensures CountOf(c, id) == 1 ==> id !in r
    ensures CountOf(c, id) != 0 && CountOf(c, id) != 1 ==> id in r && r[id] == c[id] - 1
    ensures forall k :: k != id ==> (k in r <==> k in c) && CountOf(r, k) == CountOf(c, k)
    ensures forall k :: k in r && r[k] == 0 ==> k in c && c[k] == 0
    ensures AllPositive(c) ==> AllPositive(r)
  {
    if CountOf(c, id) == 0 then c
    else if c[id] == 1 then c - {id}
    else c[id := c[id] - 1]
  }

  /** `addItem` raises the total by exactly one. */
  lemma TotalAfterAdd(c: Cart, id: string)
    ensures MapSums.Sum(AfterAdd(c, id)) == MapSums.Sum(c) + 1
  {
    MapSums.SumUpdate(c, id, CountOf(c, id) + 1);
  }

  /** `removeItem` on an id with a non-zero count lowers the total by exactly one;
      otherwise the total is unchanged. */
  lemma TotalAfterRemove(c: Cart, id: string)
    ensures MapSums.Sum(AfterRemove(c, id)) ==
      if CountOf(c, id) == 0 then MapSums.Sum(c) else MapSums.Sum(c) - 1
  {
    if CountOf(c, id) == 1 {
      MapSums.SumRemove(c, id);
    } else if CountOf(c, id) != 0 {
      MapSums.SumUpdate(c, id, c[id] - 1);
    }
  }

  /** On a cart of positive counts, adding and then removing an id restores the cart. */
  lemma AddThenRemove(c: Cart, id: string)
    requires AllPositive(c)
    ensures AfterRemove(AfterAdd(c, id), id) == c
  {
    if id !in c {
      assert AfterAdd(c, id) - {id} == c;
    }
  }

  /** On a cart of positive counts, removing a present id and adding it back
      restores the cart. */
  lemma RemoveThenAdd(c: Cart, id: string)
    requires AllPositive(c) && id in c
    ensures AfterAdd(AfterRemove(c, id), id) == c
  {
  }

  /** With positive counts, the total is at least the number of distinct ids. */
  lemma TotalBound(c: Cart)
    ensures AllPositive(c) ==> MapSums.Sum(c) >= |c|
  {
    if AllPositive(c) {
      MapSums.SumAtLeastSize(c);
    }
  }

  /** The cart provider's state. */
  class CartCounter {
    var cart: Cart

    ghost predicate Valid()
      reads this
    {
      AllPositive(cart)
    }

    /** `useState<Cart>({})`. */
    constructor ()
      ensures cart == map[] && Valid()
    {
      cart := map[];
    }

    /** `totalItems`: the sum of all counts. */
    ghost function TotalItems(): (t: int)
      reads this
      ensures Valid() ==> t >= |cart|
    {
      TotalBound(cart);
      MapSums.Sum(cart)
    }

    /** `addItem(id)`; the pulse animation it also starts is not modelled. */
    method AddItem(id: string)
      modifies this
      ensures cart == AfterAdd(old(cart), id)
      ensures TotalItems() == old(TotalItems()) + 1
      ensures old(Valid()) ==> Valid()
    {
      TotalAfterAdd(cart, id);
      cart := cart[id := CountOf(cart, id) + 1];
    }

    /** `removeItem(id)`: copy the map, then delete the key or decrement it in the copy. */
    method RemoveItem(id: string)
      modifies this
      ensures cart == AfterRemove(old(cart), id)
      ensures TotalItems() == if CountOf(old(cart), id) == 0 then old(TotalItems()) else old(TotalItems()) - 1
      ensures old(Valid()) ==> Valid()
    {
      TotalAfterRemove(cart, id);
      if CountOf(cart, id) == 0 {
        return;
      }
      var updated := cart;
      if updated[id] == 1 {
        updated := updated - {id};
      } else {
        updated := updated[id := updated[id] - 1];
      }
      cart := updated;
    }
  }

  // ---------------------------------------------------------------------------
  // Guest-cart lines, as stored in the `guest_cart` cookie
  // ---------------------------------------------------------------------------

  /** One guest-cart line. An absent `Quantity` is 0 (every use of it in the source
      reads it as `Number(Quantity || 0)` or compares it with `> 0`); an absent
      `isCustomized` is `false`. The remote-only fields (`docId`, `UserMail`) and
      the `AddedOn` timestamp are not modelled. */
  datatype CartLine = CartLine(
    id: ItemId,
    quantity: int,
    size: Option<string>,
    isCustomized: bool,
    customizationText: Option<string>,
    customPrice: Option<int>)

  /** The test of `removeGuestItemFromCookie`: `String(it.ID) !== String(id)`. */
  function DiffersFrom(key: string): CartLine -> bool {
    (line: CartLine) => IdKey(line.id) != key
  }

  /** The list step of `removeGuestItemFromCookie(id)`. */
  function WithoutGuestItem(lines: seq<CartLine>, id: ItemId): (r: seq<CartLine>)
    ensures forall i :: 0 <= i < |r| ==> r[i] in lines && IdKey(r[i].id) != IdKey(id)
    ensures forall i :: 0 <= i < |lines| && IdKey(lines[i].id) != IdKey(id) ==> lines[i] in r
  {
    Filter(lines, DiffersFrom(IdKey(id)))
  }

  /** Removing a guest item keeps, in order and with their multiplicities, exactly
      the lines whose ID differs from `id` under `String(...)`. */
  lemma WithoutGuestItemExact(lines: seq<CartLine>, id: ItemId)
    ensures IsSubsequence(WithoutGuestItem(lines, id), lines)
    ensures forall x :: multiset(WithoutGuestItem(lines, id))[x] ==
                        (if IdKey(x.id) != IdKey(id) then multiset(lines)[x] else 0)
  {
    FilterIsSubsequence(lines, DiffersFrom(IdKey(id)));
    forall x
      ensures multiset(WithoutGuestItem(lines, id))[x] ==
              (if IdKey(x.id) != IdKey(id) then multiset(lines)[x] else 0)
    {
      FilterMultiplicity(lines, DiffersFrom(IdKey(id)), x);
    }
  }
}
