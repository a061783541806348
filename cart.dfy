/** The shopping-cart store of `src/hooks/useCart.ts`: an ordered list of line
    items, four mutators that replace it, and two totals computed over it.

    Prices are whole cents, so the totals are exact integer sums. */
module CartStore {
  import opened Wrappers
  import opened Sequences

  /** One line of the cart. */
  datatype CartItem = CartItem(id: int, title: string, price: int, image: string, quantity: int)

  /** What a page passes to `addItem`: a cart item without its quantity. */
  datatype NewItem = NewItem(id: int, title: string, price: int, image: string)

  /** Some entry of `items` carries `id`. */
  predicate HasId(items: seq<CartItem>, id: int) {
    exists i :: 0 <= i < |items| && items[i].id == id
  }

  /** No two entries share an id. */
  predicate DistinctIds(items: seq<CartItem>) {
    forall i, j :: 0 <= i < j < |items| ==> items[i].id != items[j].id
  }

  /** Row `k` is the one and only row with `id`. */
  predicate UniqueAt(items: seq<CartItem>, id: int, k: int) {
    0 <= k < |items| && items[k].id == id &&
    forall i :: 0 <= i < |items| && i != k ==> items[i].id != id
  }

  /** The store's invariant: one row per id and every quantity at least 1. */
  predicate WellFormed(items: seq<CartItem>) {
    DistinctIds(items) && forall i :: 0 <= i < |items| ==> items[i].quantity >= 1
  }

  /** `items.find(item => item.id === id)`: the first entry with that id. */
  function Find(items: seq<CartItem>, id: int): (r: Option<CartItem>)
    ensures r.None? <==> !HasId(items, id)
    ensures r.Some? ==> exists k :: 0 <= k < |items| && items[k] == r.value && r.value.id == id &&
                                    forall i :: 0 <= i < k ==> items[i].id != id
  {
    if items == [] then None
    else if items[0].id == id then Some(items[0])
    else
      var r := Find(items[1..], id);
      assert forall i :: 0 < i < |items| ==> items[i] == items[1..][i - 1];
      if r.Some? then
        var k :| 0 <= k < |items[1..]| && items[1..][k] == r.value && r.value.id == id &&
                 forall i :: 0 <= i < k ==> items[1..][i].id != id;
        assert items[k + 1] == r.value;
        r
      else r
  }

  /** The entry rewritten by a repeated `addItem`: one more unit. */
  function Bump(id: int): CartItem -> CartItem {
    (item: CartItem) => if item.id == id then item.(quantity := item.quantity + 1) else item
  }

  /** The entry rewritten by a positive `updateQuantity`: an absolute count. */
  function SetCount(id: int, quantity: int): CartItem -> CartItem {
    (item: CartItem) => if item.id == id then item.(quantity := quantity) else item
  }

  /** The entries kept by `removeItem`. */
  function Other(id: int): CartItem -> bool {
    (item: CartItem) => item.id != id
  }

  /** `addItem`: a present id gains one unit (every entry with that id, as
      the source's `map` does), an absent id is appended with quantity 1.
      Whether the id is present is what `find` decides (`Find`'s first
      ensures); `Cart.AddItem` calls `Find` itself. Either way the id is in
      the cart afterwards, and the cart gains a row exactly when the id was
      absent (`AddItemToLength`). */
  function AddItemTo(items: seq<CartItem>, n: NewItem): (r: seq<CartItem>)
    ensures HasId(r, n.id)
  {
    if HasId(items, n.id) then
      var r := Map(items, Bump(n.id));
      var k :| 0 <= k < |items| && items[k].id == n.id;
      assert r[k].id == n.id;
      r
    else
      var r := items + [CartItem(n.id, n.title, n.price, n.image, 1)];
      assert r[|items|].id == n.id;
      r
  }

  /** `addItem` adds a row exactly when the id was absent. */
  lemma AddItemToLength(items: seq<CartItem>, n: NewItem)
    ensures |AddItemTo(items, n)| == if HasId(items, n.id) then |items| else |items| + 1
  {
  }

  /** `removeItem`: keep the entries whose id differs. No entry with the id
      is left, and the cart never grows. */
  function RemoveItemFrom(items: seq<CartItem>, id: int): (r: seq<CartItem>)
    ensures !HasId(r, id)
    ensures |r| <= |items|
  {
    var r := Filter(items, Other(id));
    FilterSpec(items, Other(id));
    assert forall i :: 0 <= i < |r| ==> r[i] in r && Other(id)(r[i]);
    r
  }

  /** `updateQuantity`: a count of zero or less removes the entry, a positive
      count replaces the quantity of every entry with that id. Afterwards
      every entry with the id has exactly the new count, and there is none
      when the count is not positive. */
  function UpdateQuantityIn(items: seq<CartItem>, id: int, quantity: int): (r: seq<CartItem>)
    ensures quantity <= 0 ==> !HasId(r, id)
    ensures quantity > 0 ==> |r| == |items| && (HasId(r, id) <==> HasId(items, id))
    ensures forall i :: 0 <= i < |r| && r[i].id == id ==> r[i].quantity == quantity
  {
    if quantity <= 0 then RemoveItemFrom(items, id)
    else Map(items, SetCount(id, quantity))
  }

  /** Price of one line. */
  function LinePrice(item: CartItem): int {
    item.price * item.quantity
  }

  /** Units on one line. */
  function Units(item: CartItem): int {
    item.quantity
  }

  /** `items.reduce((total, item) => total + f(item), 0)`, folding from the
      left. */
  function SumOf(items: seq<CartItem>, f: CartItem -> int): int {
    if items == [] then 0 else SumOf(items[..|items| - 1], f) + f(items[|items| - 1])
  }

  /** A fold of non-negative terms is non-negative. */
  lemma {:induction false} SumOfNonNegative(items: seq<CartItem>, f: CartItem -> int)
    requires forall i :: 0 <= i < |items| ==> f(items[i]) >= 0
    ensures SumOf(items, f) >= 0
  {
    if items != [] {
      var p := items[..|items| - 1];
      assert forall i :: 0 <= i < |p| ==> p[i] == items[i];
      SumOfNonNegative(p, f);
    }
  }

  /** A fold of terms that are each at least 1 is at least the number of terms. */
  lemma {:induction false} SumOfAtLeastCount(items: seq<CartItem>, f: CartItem -> int)
    requires forall i :: 0 <= i < |items| ==> f(items[i]) >= 1
    ensures SumOf(items, f) >= |items|
  {
    if items != [] {
      var p := items[..|items| - 1];
      assert forall i :: 0 <= i < |p| ==> p[i] == items[i];
      SumOfAtLeastCount(p, f);
    }
  }

  /** `getTotalPrice` as a function of the list: with non-negative prices and
      quantities the total is non-negative. */
  function TotalPrice(items: seq<CartItem>): (r: int)
    ensures (forall i :: 0 <= i < |items| ==> items[i].price >= 0 && items[i].quantity >= 0) ==> r >= 0
  {
    if forall i :: 0 <= i < |items| ==> items[i].price >= 0 && items[i].quantity >= 0 then
      assert forall i :: 0 <= i < |items| ==> LinePrice(items[i]) >= 0;
      SumOfNonNegative(items, LinePrice);
      SumOf(items, LinePrice)
    else
      SumOf(items, LinePrice)
  }

  /** `getTotalItems` as a function of the list: when every quantity is at
      least 1 there are at least as many units as rows. */
  function TotalItems(items: seq<CartItem>): (r: int)
    ensures (forall i :: 0 <= i < |items| ==> items[i].quantity >= 1) ==> r >= |items|
  {
    if forall i :: 0 <= i < |items| ==> items[i].quantity >= 1 then
      SumOfAtLeastCount(items, Units);
      SumOf(items, Units)
    else
      SumOf(items, Units)
  }

  // ----- addItem -----

  /** Adding an id that is present adds one unit to that entry; nothing else
      changes, and the order is kept. */
  lemma AddExisting(items: seq<CartItem>, n: NewItem, k: nat)
    requires UniqueAt(items, n.id, k)
    ensures AddItemTo(items, n) == items[k := items[k].(quantity := items[k].quantity + 1)]
  {
    assert HasId(items, n.id);
    var r := AddItemTo(items, n);
    assert |r| == |items|;
    forall i | 0 <= i < |items|
      ensures r[i] == items[k := items[k].(quantity := items[k].quantity + 1)][i]
    {
      if i != k {
        assert items[i].id != n.id;
      }
    }
  }

  /** Adding an id that is absent appends exactly one entry with quantity 1. */
  lemma AddAbsent(items: seq<CartItem>, n: NewItem)
    requires !HasId(items, n.id)
    ensures AddItemTo(items, n) == items + [CartItem(n.id, n.title, n.price, n.image, 1)]
  {
  }

  /** Adding an id again right after it was appended bumps the appended row. */
  lemma AddAfterAppended(items: seq<CartItem>, n: NewItem, quantity: int)
    requires !HasId(items, n.id)
    ensures AddItemTo(items + [CartItem(n.id, n.title, n.price, n.image, quantity)], n)
         == items + [CartItem(n.id, n.title, n.price, n.image, quantity + 1)]
  {
    var last := CartItem(n.id, n.title, n.price, n.image, quantity);
    var before := items + [last];
    assert forall i :: 0 <= i < |items| ==> before[i] == items[i];
    assert UniqueAt(before, n.id, |items|);
    AddExisting(before, n, |items|);
    assert before[|items| := last.(quantity := quantity + 1)] == items + [last.(quantity := quantity + 1)];
  }

  /** `addItem` keeps the invariant: repeated adds never create a second row. */
  lemma AddKeepsWellFormed(items: seq<CartItem>, n: NewItem)
    requires WellFormed(items)
    ensures WellFormed(AddItemTo(items, n))
  {
    if HasId(items, n.id) {
      var k :| 0 <= k < |items| && items[k].id == n.id;
      AddExisting(items, n, k);
    }
  }

  // ----- removeItem -----

  /** `removeItem` keeps exactly the entries with a different id, in order. */
  lemma RemoveKeepsOthers(items: seq<CartItem>, id: int)
    ensures var r := RemoveItemFrom(items, id);
            IsSubsequence(r, items) &&
            (forall x :: x in r <==> x in items && x.id != id) &&
            !HasId(r, id)
  {
    FilterSpec(items, Other(id));
    var r := RemoveItemFrom(items, id);
    assert forall i :: 0 <= i < |r| ==> r[i] in r;
  }

  /** Removing an id that is absent changes nothing. */
  lemma RemoveAbsent(items: seq<CartItem>, id: int)
    requires !HasId(items, id)
    ensures RemoveItemFrom(items, id) == items
  {
    forall x | x in items ensures Other(id)(x) {
      var i :| 0 <= i < |items| && items[i] == x;
    }
    FilterKeepsAll(items, Other(id));
  }

  /** Removing twice is removing once. */
  lemma RemoveIdempotent(items: seq<CartItem>, id: int)
    ensures RemoveItemFrom(RemoveItemFrom(items, id), id) == RemoveItemFrom(items, id)
  {
    FilterIdempotent(items, Other(id));
  }

  /** With one row per id, removing a present id deletes exactly its row. */
  lemma {:induction false} RemovePresent(items: seq<CartItem>, id: int, k: nat)
    requires UniqueAt(items, id, k)
    ensures RemoveItemFrom(items, id) == items[..k] + items[k + 1..]
  {
    var tail := items[1..];
    FilterCons(items, Other(id));
    if k == 0 {
      assert !HasId(tail, id) by {
        forall i | 0 <= i < |tail| ensures tail[i].id != id {
          assert tail[i] == items[i + 1];
        }
      }
      RemoveAbsent(tail, id);
    } else {
      assert UniqueAt(tail, id, k - 1) by {
        forall i | 0 <= i < |tail| ensures tail[i] == items[i + 1] { }
      }
      RemovePresent(tail, id, k - 1);
      assert Other(id)(items[0]);
      calc {
        RemoveItemFrom(items, id);
        [items[0]] + RemoveItemFrom(tail, id);
        [items[0]] + (tail[..k - 1] + tail[k..]);
        { assert tail[..k - 1] == items[1..k]; assert tail[k..] == items[k + 1..]; }
        [items[0]] + (items[1..k] + items[k + 1..]);
        { assert items[..k] == [items[0]] + items[1..k]; }
        items[..k] + items[k + 1..];
      }
    }
  }

  /** Putting a row in front of a well-formed list whose ids all differ from
      its own gives a well-formed list. */
  lemma ConsWellFormed(x: CartItem, rest: seq<CartItem>)
    requires WellFormed(rest) && x.quantity >= 1
    requires forall y :: y in rest ==> y.id != x.id
    ensures WellFormed([x] + rest)
  {
    var r := [x] + rest;
    forall i, j | 0 <= i < j < |r| ensures r[i].id != r[j].id {
      assert r[j] == rest[j - 1];
      if i == 0 {
        assert rest[j - 1] in rest;
      } else {
        assert r[i] == rest[i - 1];
      }
    }
  }

  /** Removing keeps the invariant. */
  lemma {:induction false} RemoveKeepsWellFormed(items: seq<CartItem>, id: int)
    requires WellFormed(items)
    ensures WellFormed(RemoveItemFrom(items, id))
  {
    if items != [] {
      var x, tail := items[0], items[1..];
      assert WellFormed(tail) by {
        forall i | 0 <= i < |tail| ensures tail[i] == items[i + 1] { }
      }
      RemoveKeepsWellFormed(tail, id);
      FilterSpec(tail, Other(id));
      FilterCons(items, Other(id));
      var rest := RemoveItemFrom(tail, id);
      if x.id != id {
        forall y | y in rest ensures y.id != x.id {
          var i :| 0 <= i < |tail| && tail[i] == y;
          assert y == items[i + 1];
        }
        ConsWellFormed(x, rest);
      }
    }
  }

  // ----- updateQuantity -----

  /** A count of zero or less is the same as `removeItem`. */
  lemma UpdateNonPositiveRemoves(items: seq<CartItem>, id: int, quantity: int)
    requires quantity <= 0
    ensures UpdateQuantityIn(items, id, quantity) == RemoveItemFrom(items, id)
    ensures !HasId(UpdateQuantityIn(items, id, quantity), id)
  {
    RemoveKeepsOthers(items, id);
  }

  /** A positive count sets that entry's quantity to exactly that count; all
      other entries, and the order, are unchanged. */
  lemma UpdatePositive(items: seq<CartItem>, id: int, quantity: int, k: nat)
    requires quantity > 0
    requires UniqueAt(items, id, k)
    ensures UpdateQuantityIn(items, id, quantity) == items[k := items[k].(quantity := quantity)]
  {
    var r := UpdateQuantityIn(items, id, quantity);
    forall i | 0 <= i < |items|
      ensures r[i] == items[k := items[k].(quantity := quantity)][i]
    {
      if i != k {
        assert items[i].id != id;
      }
    }
  }

  /** Updating an id that is absent changes nothing. */
  lemma UpdateAbsent(items: seq<CartItem>, id: int, quantity: int)
    requires !HasId(items, id)
    ensures UpdateQuantityIn(items, id, quantity) == items
  {
    if quantity <= 0 {
      RemoveAbsent(items, id);
    } else {
      var r := UpdateQuantityIn(items, id, quantity);
      forall i | 0 <= i < |items| ensures r[i] == items[i] {
        assert items[i].id != id;
      }
    }
  }

  /** Updating keeps the invariant: no entry is ever left at zero or below. */
  lemma UpdateKeepsWellFormed(items: seq<CartItem>, id: int, quantity: int)
    requires WellFormed(items)
    ensures WellFormed(UpdateQuantityIn(items, id, quantity))
  {
    if quantity <= 0 {
      RemoveKeepsWellFormed(items, id);
    } else {
      var r := UpdateQuantityIn(items, id, quantity);
      forall i | 0 <= i < |items| ensures r[i].id == items[i].id && r[i].quantity >= 1 { }
    }
  }

  // ----- totals -----

  /** Totals of a concatenation add up. */
  lemma {:induction false} SumOfAppend(a: seq<CartItem>, b: seq<CartItem>, f: CartItem -> int)
    ensures SumOf(a + b, f) == SumOf(a, f) + SumOf(b, f)
    decreases |b|
  {
    if b == [] {
      assert a + b == a;
    } else {
      var b' := b[..|b| - 1];
      assert (a + b)[..|a + b| - 1] == a + b';
      SumOfAppend(a, b', f);
    }
  }

  /** Replacing one entry changes a total by the difference of the two lines. */
  lemma {:induction false} SumOfUpdate(items: seq<CartItem>, k: nat, x: CartItem, f: CartItem -> int)
    requires k < |items|
    ensures SumOf(items[k := x], f) == SumOf(items, f) - f(items[k]) + f(x)
  {
    var n := |items|;
    if k == n - 1 {
      assert items[k := x][..n - 1] == items[..n - 1];
    } else {
      assert items[k := x][..n - 1] == items[..n - 1][k := x];
      SumOfUpdate(items[..n - 1], k, x, f);
    }
  }

  /** Replacing one row changes each total by the difference of the two rows. */
  lemma TotalsAfterReplace(items: seq<CartItem>, k: nat, x: CartItem)
    requires k < |items|
    ensures TotalPrice(items[k := x]) == TotalPrice(items) - LinePrice(items[k]) + LinePrice(x)
    ensures TotalItems(items[k := x]) == TotalItems(items) - items[k].quantity + x.quantity
  {
    SumOfUpdate(items, k, x, LinePrice);
    SumOfUpdate(items, k, x, Units);
  }

  /** A repeated `addItem` raises the unit count by one and the total price
      by the unit price stored at the first add (not the price passed now). */
  lemma TotalsAfterAddExisting(items: seq<CartItem>, n: NewItem, k: nat)
    requires UniqueAt(items, n.id, k)
    ensures TotalPrice(AddItemTo(items, n)) == TotalPrice(items) + items[k].price
    ensures TotalItems(AddItemTo(items, n)) == TotalItems(items) + 1
  {
    AddExisting(items, n, k);
    var x := items[k].(quantity := items[k].quantity + 1);
    TotalsAfterReplace(items, k, x);
    assert LinePrice(x) == LinePrice(items[k]) + items[k].price by {
      assert x.price * (items[k].quantity + 1) == x.price * items[k].quantity + x.price;
    }
  }

  /** A first `addItem` of an id raises the unit count by one and the total
      price by the price passed in. */
  lemma TotalsAfterAddAbsent(items: seq<CartItem>, n: NewItem)
    requires !HasId(items, n.id)
    ensures TotalPrice(AddItemTo(items, n)) == TotalPrice(items) + n.price
    ensures TotalItems(AddItemTo(items, n)) == TotalItems(items) + 1
  {
    AddAbsent(items, n);
    var x := CartItem(n.id, n.title, n.price, n.image, 1);
    assert (items + [x])[..|items|] == items;
  }

  /** With one row per id, every `addItem` adds exactly one unit. */
  lemma TotalItemsAfterAdd(items: seq<CartItem>, n: NewItem)
    requires DistinctIds(items)
    ensures TotalItems(AddItemTo(items, n)) == TotalItems(items) + 1
  {
    if HasId(items, n.id) {
      var k :| 0 <= k < |items| && items[k].id == n.id;
      TotalsAfterAddExisting(items, n, k);
    } else {
      TotalsAfterAddAbsent(items, n);
    }
  }

  /** `removeItem` of a present id takes away exactly that row's line price
      and units. */
  lemma TotalsAfterRemove(items: seq<CartItem>, id: int, k: nat)
    requires UniqueAt(items, id, k)
    ensures TotalPrice(RemoveItemFrom(items, id)) == TotalPrice(items) - items[k].price * items[k].quantity
    ensures TotalItems(RemoveItemFrom(items, id)) == TotalItems(items) - items[k].quantity
  {
    RemovePresent(items, id, k);
    assert items == items[..k] + [items[k]] + items[k + 1..];
    SumOfAppend(items[..k] + [items[k]], items[k + 1..], LinePrice);
    SumOfAppend(items[..k], [items[k]], LinePrice);
    SumOfAppend(items[..k], items[k + 1..], LinePrice);
    SumOfAppend(items[..k] + [items[k]], items[k + 1..], Units);
    SumOfAppend(items[..k], [items[k]], Units);
    SumOfAppend(items[..k], items[k + 1..], Units);
  }

  /** A positive `updateQuantity` on a present id replaces that row's
      contribution to both totals. */
  lemma TotalsAfterUpdate(items: seq<CartItem>, id: int, quantity: int, k: nat)
    requires quantity > 0
    requires UniqueAt(items, id, k)
    ensures TotalPrice(UpdateQuantityIn(items, id, quantity))
         == TotalPrice(items) + items[k].price * (quantity - items[k].quantity)
    ensures TotalItems(UpdateQuantityIn(items, id, quantity)) == TotalItems(items) + quantity - items[k].quantity
  {
    UpdatePositive(items, id, quantity, k);
    var x := items[k].(quantity := quantity);
    TotalsAfterReplace(items, k, x);
    assert LinePrice(x) - LinePrice(items[k]) == items[k].price * (quantity - items[k].quantity) by {
      assert x.price * quantity - x.price * items[k].quantity == x.price * (quantity - items[k].quantity);
    }
  }

  /** The store. Its one field is replaced by every mutator, as `set(...)`
      replaces `items` in the source. */
  class Cart {
    var items: seq<CartItem>

    ghost predicate Valid()
      reads this
    {
      WellFormed(items)
    }

    /** The store starts empty. */
    constructor ()
      ensures items == [] && Valid()
    {
      items := [];
    }

    method AddItem(n: NewItem)
      modifies this
      ensures items == AddItemTo(old(items), n)
      ensures old(Valid()) ==> Valid()
    {
      var existing := Find(items, n.id);
      if existing.Some? {
        items := Map(items, Bump(n.id));
      } else {
        items := items + [CartItem(n.id, n.title, n.price, n.image, 1)];
      }
      if old(Valid()) {
        AddKeepsWellFormed(old(items), n);
      }
    }

    method RemoveItem(id: int)
      modifies this
      ensures items == RemoveItemFrom(old(items), id)
      ensures old(Valid()) ==> Valid()
    {
      items := Filter(items, Other(id));
      if old(Valid()) {
        RemoveKeepsWellFormed(old(items), id);
      }
    }

    method UpdateQuantity(id: int, quantity: int)
      modifies this
      ensures items == UpdateQuantityIn(old(items), id, quantity)
      ensures old(Valid()) ==> Valid()
    {
      if old(Valid()) {
        UpdateKeepsWellFormed(items, id, quantity);
      }
      if quantity <= 0 {
        RemoveItem(id);
        return;
      }
      items := Map(items, SetCount(id, quantity));
    }

    method ClearCart()
      modifies this
      ensures items == [] && Valid()
    {
      items := [];
    }

    /** `getTotalPrice`. */
    function GetTotalPrice(): (total: int)
      reads this
      ensures items == [] ==> total == 0
      ensures (forall i :: 0 <= i < |items| ==> items[i].price >= 0 && items[i].quantity >= 0) ==> total >= 0
    {
      TotalPrice(items)
    }

    /** `getTotalItems`. */
    function GetTotalItems(): (total: int)
      reads this
      ensures items == [] ==> total == 0
      ensures Valid() ==> total >= |items|
    {
      TotalItems(items)
    }
  }
}
