/** The product page `src/pages/ProductDetail.tsx`: the quantity selector, the
    "Add to Cart" handler that calls the store's `addItem` once per selected
    unit, and the SKU label derived from the product id. */
module ProductDetailPage {
  import opened Wrappers
  import opened CartStore
  import opened ProductList

  // ----- quantity selector -----

  /** The minus button: `Math.max(1, quantity - 1)`. */
  function Decremented(quantity: int): (r: int)
    ensures r >= 1 && r >= quantity - 1
    ensures r == 1 || r == quantity - 1
  {
    if quantity - 1 > 1 then quantity - 1 else 1
  }

  datatype Click = Minus | Plus

  /** One click of the selector: from a valid quantity it stays valid, and it
      never rises by more than one. */
  function Step(quantity: int, click: Click): (r: int)
    ensures quantity >= 1 ==> r >= 1
    ensures quantity >= 0 ==> r <= quantity + 1
  {
    match click
    case Minus => Decremented(quantity)
    case Plus => quantity + 1
  }

  /** The selector's value after a sequence of clicks, starting from 1:
      whatever the user clicks it never drops below 1, and each click adds at
      most one. */
  function QuantityAfter(clicks: seq<Click>): (r: int)
    ensures 1 <= r <= |clicks| + 1
  {
    if clicks == [] then 1 else Step(QuantityAfter(clicks[..|clicks| - 1]), clicks[|clicks| - 1])
  }

  /** The `quantity` state of the page. */
  class QuantitySelector {
    var quantity: int

    ghost predicate Valid()
      reads this
    {
      quantity >= 1
    }

    /** `useState(1)`. */
    constructor ()
      ensures quantity == 1 && Valid()
    {
      quantity := 1;
    }

    method Decrement()
      modifies this
      ensures quantity == Decremented(old(quantity)) && Valid()
    {
      quantity := Decremented(quantity);
    }

    method Increment()
      modifies this
      ensures quantity == old(quantity) + 1
      ensures old(Valid()) ==> Valid()
    {
      quantity := quantity + 1;
    }
  }

  // ----- add to cart -----

  /** The fields of a product that the page hands to `addItem`. */
  function NewItemOf(p: Product): NewItem {
    NewItem(p.id, p.title, p.price, p.image)
  }

  /** The cart after `addItem(n)` has been applied `count` times in a row. */
  function AddTimes(items: seq<CartItem>, n: NewItem, count: int): seq<CartItem>
    decreases count
  {
    if count <= 0 then items else AddItemTo(AddTimes(items, n, count - 1), n)
  }

  /** Adding an id that is present `count` times raises that row's quantity by
      `count` and leaves every other row, and the order, as it was. */
  lemma {:induction false} AddTimesExisting(items: seq<CartItem>, n: NewItem, count: nat, k: nat)
    requires UniqueAt(items, n.id, k)
    ensures AddTimes(items, n, count) == items[k := items[k].(quantity := items[k].quantity + count)]
  {
    if count > 0 {
      AddTimesExisting(items, n, count - 1, k);
      var before := items[k := items[k].(quantity := items[k].quantity + count - 1)];
      assert UniqueAt(before, n.id, k);
      AddExisting(before, n, k);
      assert before[k := before[k].(quantity := before[k].quantity + 1)]
          == items[k := items[k].(quantity := items[k].quantity + count)];
    }
  }

  /** Adding an id that is absent `count` >= 1 times appends one row whose
      quantity is `count`. */
  lemma {:induction false} AddTimesAbsent(items: seq<CartItem>, n: NewItem, count: nat)
    requires !HasId(items, n.id)
    requires count >= 1
    ensures AddTimes(items, n, count) == items + [CartItem(n.id, n.title, n.price, n.image, count)]
  {
    if count == 1 {
      AddAbsent(items, n);
    } else {
      AddTimesAbsent(items, n, count - 1);
      AddAfterAppended(items, n, count - 1);
    }
  }

  /** Repeated adds keep the store's invariant. */
  lemma {:induction false} AddTimesKeepsWellFormed(items: seq<CartItem>, n: NewItem, count: int)
    requires WellFormed(items)
    ensures WellFormed(AddTimes(items, n, count))
    decreases count
  {
    if count > 0 {
      AddTimesKeepsWellFormed(items, n, count - 1);
      AddKeepsWellFormed(AddTimes(items, n, count - 1), n);
    }
  }

  /** `count` adds put exactly `count` more units in the cart (none for a
      count of zero or less). */
  lemma {:induction false} TotalItemsAfterAddTimes(items: seq<CartItem>, n: NewItem, count: int)
    requires WellFormed(items)
    ensures TotalItems(AddTimes(items, n, count)) == TotalItems(items) + (if count > 0 then count else 0)
    decreases count
  {
    if count > 0 {
      TotalItemsAfterAddTimes(items, n, count - 1);
      AddTimesKeepsWellFormed(items, n, count - 1);
      TotalItemsAfterAdd(AddTimes(items, n, count - 1), n);
    }
  }

  /** `handleAddToCart`: with a product loaded, call `addItem` once for each
      selected unit; with none, do nothing. The toast is not modelled. */
  method HandleAddToCart(cart: Cart, product: Option<Product>, quantity: int)
    modifies cart
    ensures product.None? ==> cart.items == old(cart.items)
    ensures product.Some? ==> cart.items == AddTimes(old(cart.items), NewItemOf(product.value), quantity)
    ensures old(cart.Valid()) ==> cart.Valid()
  {
    if product.Some? {
      var p := product.value;
      var i := 0;
      while i < quantity
        invariant 0 <= i <= if quantity > 0 then quantity else 0
        invariant cart.items == AddTimes(old(cart.items), NewItemOf(p), i)
      {
        ghost var before := cart.items;
        cart.AddItem(NewItemOf(p));
        assert cart.items == AddItemTo(before, NewItemOf(p));
        assert AddTimes(old(cart.items), NewItemOf(p), i + 1) == AddItemTo(before, NewItemOf(p));
        i := i + 1;
      }
      if quantity <= 0 {
        assert i == 0;
        assert AddTimes(old(cart.items), NewItemOf(p), quantity) == old(cart.items);
      } else {
        assert i == quantity;
      }
      if old(cart.Valid()) {
        AddTimesKeepsWellFormed(old(cart.items), NewItemOf(p), quantity);
      }
    }
  }

  // ----- SKU label -----

  function DigitChar(d: int): char
    requires 0 <= d < 10
  {
    ('0' as int + d) as char
  }

  /** The decimal digits of a non-negative integer, most significant first:
      at least one, and no leading zero. */
  function DecimalDigits(n: nat): (r: string)
    ensures |r| >= 1
    ensures IsDigits(r)
    ensures n > 0 ==> r[0] != '0'
  {
    if n < 10 then [DigitChar(n)] else DecimalDigits(n / 10) + [DigitChar(n % 10)]
  }

  /** `Number.prototype.toString()` for an integer: a minus sign for negative
      values, then the decimal digits. */
  function NumberToString(id: int): (r: string)
    ensures |r| >= 1
    ensures id >= 0 ==> IsDigits(r)
    ensures id < 0 ==> r[0] == '-' && IsDigits(r[1..])
  {
    if id < 0 then
      var r := "-" + DecimalDigits(-id);
      assert r[1..] == DecimalDigits(-id);
      r
    else DecimalDigits(id)
  }

  /** `s.padStart(target, fill)` with a one-character fill: `s` itself when it
      is already long enough, otherwise `s` preceded by enough copies of
      `fill` to reach `target`. */
  function PadStart(s: string, target: nat, fill: char): (r: string)
    ensures |r| == if |s| >= target then |s| else target
    ensures r[|r| - |s|..] == s
    ensures forall i :: 0 <= i < |r| - |s| ==> r[i] == fill
  {
    if |s| >= target then s else seq(target - |s|, _ => fill) + s
  }

  /** `id.toString().padStart(6, '0')`: at least six characters, ending with
      the id's text and padded with zeros in front of it. */
  function Sku(id: int): (r: string)
    ensures |r| >= 6 && |r| >= |NumberToString(id)|
    ensures r[|r| - |NumberToString(id)|..] == NumberToString(id)
    ensures forall i :: 0 <= i < |r| - |NumberToString(id)| ==> r[i] == '0'
  {
    PadStart(NumberToString(id), 6, '0')
  }

  predicate IsDigits(s: string) {
    forall i :: 0 <= i < |s| ==> '0' <= s[i] <= '9'
  }

  /** The number a string of decimal digits denotes. */
  function DigitsValue(s: string): int {
    if s == [] then 0 else DigitsValue(s[..|s| - 1]) * 10 + (s[|s| - 1] as int - '0' as int)
  }

  function Pow10(k: nat): (r: nat)
    ensures r >= 1
  {
    if k == 0 then 1 else 10 * Pow10(k - 1)
  }

  /** The digits of `n` are decimal digits that denote `n`. */
  lemma {:induction false} DecimalDigitsValue(n: nat)
    ensures IsDigits(DecimalDigits(n)) && DigitsValue(DecimalDigits(n)) == n
  {
    if n >= 10 {
      DecimalDigitsValue(n / 10);
      var d := DecimalDigits(n);
      assert d[..|d| - 1] == DecimalDigits(n / 10);
    }
  }

  /** Leading zeros do not change the value of a digit string. */
  lemma {:induction false} LeadingZerosValue(zeros: string, s: string)
    requires forall i :: 0 <= i < |zeros| ==> zeros[i] == '0'
    ensures DigitsValue(zeros + s) == DigitsValue(s)
    decreases |zeros| + |s|
  {
    if s == [] {
      assert zeros + s == zeros;
      if zeros != [] {
        LeadingZerosValue(zeros[..|zeros| - 1], []);
        assert zeros[..|zeros| - 1] + [] == zeros[..|zeros| - 1];
      }
    } else {
      assert (zeros + s)[..|zeros + s| - 1] == zeros + s[..|s| - 1];
      LeadingZerosValue(zeros, s[..|s| - 1]);
    }
  }

  /** A number below 10^k has at most k digits. */
  lemma {:induction false} FewDigits(n: nat, k: nat)
    requires 1 <= k && n < Pow10(k)
    ensures |DecimalDigits(n)| <= k
  {
    if n >= 10 {
      assert k >= 2;
      assert n / 10 < Pow10(k - 1);
      FewDigits(n / 10, k - 1);
    }
  }

  /** A number of at least 10^k has more than k digits. */
  lemma {:induction false} ManyDigits(n: nat, k: nat)
    requires n >= Pow10(k)
    ensures |DecimalDigits(n)| > k
  {
    if k > 0 {
      assert n >= 10;
      assert n / 10 >= Pow10(k - 1);
      ManyDigits(n / 10, k - 1);
    }
  }

  /** For a non-negative id the SKU is a string of decimal digits that denotes
      the id; it is exactly 6 characters long for ids below one million and
      is the unpadded decimal text of any larger id. */
  lemma SkuOfNonNegative(id: int)
    requires id >= 0
    ensures IsDigits(Sku(id)) && DigitsValue(Sku(id)) == id
    ensures id < 1000000 ==> |Sku(id)| == 6
    ensures id >= 1000000 ==> Sku(id) == DecimalDigits(id) && |Sku(id)| > 6
  {
    assert NumberToString(id) == DecimalDigits(id);
    SkuReadsBack(id);
    SkuLength(id);
    assert Pow10(6) == 1000000;
    if id < 1000000 {
      FewDigits(id, 6);
    } else {
      ManyDigits(id, 6);
      assert Sku(id) == Sku(id)[|Sku(id)| - |DecimalDigits(id)|..];
    }
  }

  /** The SKU of an id >= 0 is its decimal text after some zeros, so it reads
      back as the id. */
  lemma SkuReadsBack(id: int)
    requires id >= 0
    ensures IsDigits(Sku(id)) && DigitsValue(Sku(id)) == id
  {
    var d := DecimalDigits(id);
    var r := Sku(id);
    assert NumberToString(id) == d;
    var zeros := r[..|r| - |d|];
    assert r == zeros + d;
    assert forall i :: 0 <= i < |zeros| ==> zeros[i] == '0';
    DecimalDigitsValue(id);
    LeadingZerosValue(zeros, d);
  }

  /** The SKU is exactly as long as the id's text, or 6 when that is
      shorter: `padStart` stops at the target length. */
  lemma SkuLength(id: int)
    ensures |Sku(id)| == if |NumberToString(id)| >= 6 then |NumberToString(id)| else 6
  {
  }

  /** The text of an id denotes the id: its digits read back as the id, or
      as its negation after the minus sign. */
  lemma NumberToStringValue(id: int)
    ensures id >= 0 ==> DigitsValue(NumberToString(id)) == id
    ensures id < 0 ==> DigitsValue(NumberToString(id)[1..]) == -id
  {
    if id >= 0 {
      DecimalDigitsValue(id);
    } else {
      DecimalDigitsValue(-id);
      assert NumberToString(id)[1..] == DecimalDigits(-id);
    }
  }

  /** A negative id keeps its minus sign after the padding zeros. */
  lemma SkuOfNegative(id: int)
    requires id < 0
    ensures var s := NumberToString(id);
            s[0] == '-' && Sku(id)[|Sku(id)| - |s|] == '-' &&
            forall i :: 0 <= i < |Sku(id)| - |s| ==> Sku(id)[i] == '0'
  {
  }
}
