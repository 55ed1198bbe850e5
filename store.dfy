/** The shopping cart store (lib/store.ts): an ordered list of cart lines, each a
    snapshot of a product plus a quantity, changed by four actions and summed
    by `total`.

    Each action of the source hands the store a pure updater `state => newState`;
    here each updater is a function on the list of lines, and the CartStore
    class applies it to its `items` field. */
module Store {
  import opened Menu

  datatype Option<T> = None | Some(value: T)

  /** `Product & { quantity }`: the product as it was when first added, and how
      many of it are in the cart. */
  datatype CartItem = CartItem(snapshot: Product, quantity: int) {
    function Id(): string {
      snapshot.id
    }

    /** What this line adds to the total. */
    function Subtotal(): int {
      snapshot.price * quantity
    }
  }

  // ---------------------------------------------------------------------------
  // Invariants of the line list
  // ---------------------------------------------------------------------------

  predicate HasId(items: seq<CartItem>, id: string) {
    exists i :: 0 <= i < |items| && items[i].Id() == id
  }

  /** No two lines share a product id. */
  predicate UniqueIds(items: seq<CartItem>) {
    forall i, j :: 0 <= i < j < |items| ==> items[i].Id() != items[j].Id()
  }

  /** Every line holds at least one unit. */
  predicate PositiveQuantities(items: seq<CartItem>) {
    forall i :: 0 <= i < |items| ==> items[i].quantity >= 1
  }

  predicate WellFormed(items: seq<CartItem>) {
    UniqueIds(items) && PositiveQuantities(items)
  }

  // ---------------------------------------------------------------------------
  // The updaters
  // ---------------------------------------------------------------------------

  /** `items.find(i => i.id === id)`: the first line with that id, if any. */
  function Find(items: seq<CartItem>, id: string): (r: Option<CartItem>)
    ensures r.None? <==> !HasId(items, id)
    ensures r.Some? ==> exists k :: 0 <= k < |items| && items[k] == r.value && items[k].Id() == id
                                    && forall j :: 0 <= j < k ==> items[j].Id() != id
  {
    if items == [] then None
    else if items[0].Id() == id then Some(items[0])
    else
      var r := Find(items[1..], id);
      if r.Some? then
        var k :| 0 <= k < |items[1..]| && items[1..][k] == r.value && items[1..][k].Id() == id
                 && forall j :: 0 <= j < k ==> items[1..][j].Id() != id;
        assert items[k + 1] == r.value;
        assert forall j :: 1 <= j < k + 1 ==> items[j] == items[1..][j - 1];
        r
      else
        assert forall i :: 1 <= i < |items| ==> items[i] == items[1..][i - 1];
        r
  }

  /** `items.map(i => i.id === id ? { ...i, quantity: i.quantity + 1 } : i)` */
  function Incremented(items: seq<CartItem>, id: string): seq<CartItem> {
    seq(|items|, i requires 0 <= i < |items| =>
      if items[i].Id() == id then items[i].(quantity := items[i].quantity + 1) else items[i])
  }

  /** `items.map(i => i.id === id ? { ...i, quantity } : i)` */
  function WithQuantity(items: seq<CartItem>, id: string, quantity: int): seq<CartItem> {
    seq(|items|, i requires 0 <= i < |items| =>
      if items[i].Id() == id then items[i].(quantity := quantity) else items[i])
  }

  /** removeFromCart's updater, `items.filter(i => i.id !== id)`: the lines
      with another id, in order. */
  function Without(items: seq<CartItem>, id: string): seq<CartItem> {
    if items == [] then []
    else (if items[0].Id() == id then [] else [items[0]]) + Without(items[1..], id)
  }

  /** addToCart's updater: raise the existing line, or append a new line of one. */
  function AddedToCart(items: seq<CartItem>, product: Product): seq<CartItem> {
    if Find(items, product.id).Some? then Incremented(items, product.id)
    else items + [CartItem(product, 1)]
  }

  /** updateQuantity's updater: set the quantity when it is positive, otherwise
      drop the line. */
  function QuantityUpdated(items: seq<CartItem>, productId: string, quantity: int): seq<CartItem> {
    if quantity > 0 then WithQuantity(items, productId, quantity)
    else Without(items, productId)
  }

  /** `items.reduce((acc, item) => acc + item.price * item.quantity, 0)`,
      folding from the left. */
  function LinesTotal(items: seq<CartItem>): int {
    if items == [] then 0
    else LinesTotal(items[..|items| - 1]) + items[|items| - 1].Subtotal()
  }

  // ---------------------------------------------------------------------------
  // addToCart
  // ---------------------------------------------------------------------------

  /** A product not yet in the cart is appended as a fresh line of one, after
      the unchanged earlier lines. */
  lemma AddNewProduct(items: seq<CartItem>, product: Product)
    requires !HasId(items, product.id)
    ensures |AddedToCart(items, product)| == |items| + 1
    ensures AddedToCart(items, product)[..|items|] == items
    ensures AddedToCart(items, product)[|items|] == CartItem(product, 1)
  {
  }

  /** A product already in the cart raises that line's quantity by exactly one;
      its stored snapshot is kept (not refreshed from `product`), and length,
      order and every other line are unchanged. No upper bound applies. */
  lemma AddExistingProduct(items: seq<CartItem>, product: Product, k: int)
    requires UniqueIds(items)
    requires 0 <= k < |items| && items[k].Id() == product.id
    ensures AddedToCart(items, product) == items[k := CartItem(items[k].snapshot, items[k].quantity + 1)]
  {
    assert Find(items, product.id).Some?;
  }

  /** addToCart keeps ids unique and quantities positive. */
  lemma AddKeepsWellFormed(items: seq<CartItem>, product: Product)
    requires WellFormed(items)
    ensures WellFormed(AddedToCart(items, product))
  {
    if !HasId(items, product.id) {
      AddNewProduct(items, product);
      var r := AddedToCart(items, product);
      forall i, j | 0 <= i < j < |r|
        ensures r[i].Id() != r[j].Id()
      {
        if j == |items| {
          assert r[i] == items[i];
        } else {
          assert r[i] == items[i] && r[j] == items[j];
        }
      }
    }
  }

  // ---------------------------------------------------------------------------
  // removeFromCart
  // ---------------------------------------------------------------------------

  /** The filter keeps order: removing from a concatenation removes from each part. */
  lemma {:induction false} WithoutConcat(a: seq<CartItem>, b: seq<CartItem>, id: string)
    ensures Without(a + b, id) == Without(a, id) + Without(b, id)
  {
    if a == [] {
      assert a + b == b;
    } else {
      assert (a + b)[0] == a[0];
      assert (a + b)[1..] == a[1..] + b;
      WithoutConcat(a[1..], b, id);
    }
  }

  /** The filter keeps exactly the lines whose id differs. */
  lemma {:induction false} WithoutMembers(items: seq<CartItem>, id: string)
    ensures forall e :: e in Without(items, id) <==> e in items && e.Id() != id
  {
    if items != [] {
      WithoutMembers(items[1..], id);
      assert items == [items[0]] + items[1..];
    }
  }

  lemma {:induction false} WithoutAbsent(items: seq<CartItem>, id: string)
    requires !HasId(items, id)
    ensures Without(items, id) == items
  {
    if items != [] {
      assert !HasId(items[1..], id) by {
        forall i | 0 <= i < |items[1..]|
          ensures items[1..][i].Id() != id
        {
          assert items[1..][i] == items[i + 1];
        }
      }
      WithoutAbsent(items[1..], id);
      assert items == [items[0]] + items[1..];
    }
  }

  /** With unique ids, the id of line k occurs neither before nor after it. */
  lemma IdOnlyAt(items: seq<CartItem>, k: int)
    requires UniqueIds(items)
    requires 0 <= k < |items|
    ensures !HasId(items[..k], items[k].Id())
    ensures !HasId(items[k + 1..], items[k].Id())
  {
    var before, after := items[..k], items[k + 1..];
    forall i | 0 <= i < |before|
      ensures before[i].Id() != items[k].Id()
    {
      assert before[i] == items[i];
    }
    forall i | 0 <= i < |after|
      ensures after[i].Id() != items[k].Id()
    {
      assert after[i] == items[k + 1 + i];
    }
  }

  /** Filtering out the id of the one line that has it drops just that line. */
  lemma WithoutAround(before: seq<CartItem>, x: CartItem, after: seq<CartItem>)
    requires !HasId(before, x.Id()) && !HasId(after, x.Id())
    ensures Without(before + [x] + after, x.Id()) == before + after
  {
    var id := x.Id();
    assert Without([x] + after, id) == after by {
      WithoutAbsent(after, id);
      WithoutConcat([x], after, id);
      assert Without([x], id) == [] by {
        assert [x][1..] == [];
      }
    }
    WithoutAbsent(before, id);
    assert before + [x] + after == before + ([x] + after);
    WithoutConcat(before, [x] + after, id);
  }

  /** With unique ids, removing an id present at position k drops exactly that
      line and keeps the others in order. */
  lemma RemoveExistingLine(items: seq<CartItem>, k: int)
    requires UniqueIds(items)
    requires 0 <= k < |items|
    ensures Without(items, items[k].Id()) == items[..k] + items[k + 1..]
  {
    IdOnlyAt(items, k);
    assert items == items[..k] + [items[k]] + items[k + 1..];
    WithoutAround(items[..k], items[k], items[k + 1..]);
  }

  /** Removing an id leaves no line with that id, so removing it again changes nothing. */
  lemma RemoveIdempotent(items: seq<CartItem>, productId: string)
    ensures !HasId(Without(items, productId), productId)
    ensures Without(Without(items, productId), productId) == Without(items, productId)
  {
    var r := Without(items, productId);
    WithoutMembers(items, productId);
    assert !HasId(r, productId) by {
      forall i | 0 <= i < |r|
        ensures r[i].Id() != productId
      {
        assert r[i] in r;
      }
    }
    WithoutAbsent(r, productId);
  }

  lemma {:induction false} WithoutKeepsUnique(items: seq<CartItem>, id: string)
    requires UniqueIds(items)
    ensures UniqueIds(Without(items, id))
  {
    if items != [] {
      assert UniqueIds(items[1..]) by {
        forall i, j | 0 <= i < j < |items[1..]|
          ensures items[1..][i].Id() != items[1..][j].Id()
        {
          assert items[1..][i] == items[i + 1] && items[1..][j] == items[j + 1];
        }
      }
      WithoutKeepsUnique(items[1..], id);
      WithoutMembers(items[1..], id);
      var rest := Without(items[1..], id);
      if items[0].Id() != id {
        forall j | 0 <= j < |rest|
          ensures items[0].Id() != rest[j].Id()
        {
          assert rest[j] in items[1..];
          var m :| 0 <= m < |items[1..]| && items[1..][m] == rest[j];
          assert items[m + 1] == rest[j];
        }
        forall i, j | 0 <= i < j < |[items[0]] + rest|
          ensures ([items[0]] + rest)[i].Id() != ([items[0]] + rest)[j].Id()
        {
          assert ([items[0]] + rest)[j] == rest[j - 1];
          if i > 0 {
            assert ([items[0]] + rest)[i] == rest[i - 1];
          }
        }
      }
    }
  }

  /** removeFromCart keeps ids unique and quantities positive. */
  lemma RemoveKeepsWellFormed(items: seq<CartItem>, productId: string)
    requires WellFormed(items)
    ensures WellFormed(Without(items, productId))
  {
    WithoutKeepsUnique(items, productId);
    WithoutMembers(items, productId);
    var r := Without(items, productId);
    forall i | 0 <= i < |r|
      ensures r[i].quantity >= 1
    {
      assert r[i] in r;
    }
  }

  // ---------------------------------------------------------------------------
  // updateQuantity
  // ---------------------------------------------------------------------------

  /** updateQuantity for an id no line has leaves the list as it is, whatever
      the quantity. */
  lemma UpdateAbsentUnchanged(items: seq<CartItem>, productId: string, quantity: int)
    requires !HasId(items, productId)
    ensures QuantityUpdated(items, productId, quantity) == items
  {
    WithoutAbsent(items, productId);
  }

  /** updateQuantity with a positive quantity writes it into the matching line
      only; snapshot, order and every other line are unchanged. */
  lemma UpdatePositiveSetsLine(items: seq<CartItem>, k: int, quantity: int)
    requires UniqueIds(items)
    requires 0 <= k < |items|
    requires quantity > 0
    ensures QuantityUpdated(items, items[k].Id(), quantity)
            == items[k := CartItem(items[k].snapshot, quantity)]
  {
  }

  /** updateQuantity with zero or less removes the matching line and keeps the
      others in order. */
  lemma UpdateNonPositiveRemovesLine(items: seq<CartItem>, k: int, quantity: int)
    requires UniqueIds(items)
    requires 0 <= k < |items|
    requires quantity <= 0
    ensures QuantityUpdated(items, items[k].Id(), quantity) == items[..k] + items[k + 1..]
  {
    RemoveExistingLine(items, k);
  }

  /** updateQuantity keeps ids unique and quantities positive: it writes only
      positive quantities and otherwise removes. */
  lemma UpdateKeepsWellFormed(items: seq<CartItem>, productId: string, quantity: int)
    requires WellFormed(items)
    ensures WellFormed(QuantityUpdated(items, productId, quantity))
  {
    if quantity <= 0 {
      RemoveKeepsWellFormed(items, productId);
    }
  }

  // ---------------------------------------------------------------------------
  // total
  // ---------------------------------------------------------------------------

  /** The total of a concatenation is the sum of the totals. */
  lemma {:induction false} TotalConcat(a: seq<CartItem>, b: seq<CartItem>)
    ensures LinesTotal(a + b) == LinesTotal(a) + LinesTotal(b)
    decreases |b|
  {
    if b != [] {
      var b' := b[..|b| - 1];
      assert (a + b)[..|a + b| - 1] == a + b';
      TotalConcat(a, b');
    } else {
      assert a + b == a;
    }
  }

  /** The total splits around any one line. */
  lemma TotalAround(items: seq<CartItem>, k: int)
    requires 0 <= k < |items|
    ensures LinesTotal(items) == LinesTotal(items[..k]) + items[k].Subtotal() + LinesTotal(items[k + 1..])
  {
    var before, after := items[..k], items[k + 1..];
    assert LinesTotal([items[k]]) == items[k].Subtotal() by {
      assert [items[k]][..0] == [];
    }
    assert items == (before + [items[k]]) + after;
    TotalConcat(before + [items[k]], after);
    TotalConcat(before, [items[k]]);
  }

  /** The total is the sum of price times quantity over the lines: replacing
      one line changes it by the difference of the two lines' subtotals. */
  lemma TotalReplaceLine(items: seq<CartItem>, k: int, line: CartItem)
    requires 0 <= k < |items|
    ensures LinesTotal(items[k := line]) == LinesTotal(items) - items[k].Subtotal() + line.Subtotal()
  {
    var changed := items[k := line];
    assert changed[..k] == items[..k] && changed[k + 1..] == items[k + 1..];
    TotalAround(items, k);
    TotalAround(changed, k);
  }

  /** addToCart of a new product raises the total by its price; of a product
      already in the cart, by that line's stored price. */
  lemma AddRaisesTotal(items: seq<CartItem>, product: Product)
    requires UniqueIds(items)
    ensures !HasId(items, product.id) ==>
              LinesTotal(AddedToCart(items, product)) == LinesTotal(items) + product.price
    ensures forall k :: 0 <= k < |items| && items[k].Id() == product.id ==>
              LinesTotal(AddedToCart(items, product)) == LinesTotal(items) + items[k].snapshot.price
  {
    if !HasId(items, product.id) {
      TotalConcat(items, [CartItem(product, 1)]);
      assert [CartItem(product, 1)][..0] == [];
    }
    forall k | 0 <= k < |items| && items[k].Id() == product.id
      ensures LinesTotal(AddedToCart(items, product)) == LinesTotal(items) + items[k].snapshot.price
    {
      AddExistingProduct(items, product, k);
      var line := CartItem(items[k].snapshot, items[k].quantity + 1);
      TotalReplaceLine(items, k, line);
      assert line.Subtotal() == items[k].Subtotal() + items[k].snapshot.price by {
        assert items[k].snapshot.price * (items[k].quantity + 1)
            == items[k].snapshot.price * items[k].quantity + items[k].snapshot.price;
      }
    }
  }

  /** Removing a line lowers the total by that line's subtotal. */
  lemma RemoveLowersTotal(items: seq<CartItem>, k: int)
    requires UniqueIds(items)
    requires 0 <= k < |items|
    ensures LinesTotal(Without(items, items[k].Id())) == LinesTotal(items) - items[k].Subtotal()
  {
    RemoveExistingLine(items, k);
    TotalConcat(items[..k], items[k + 1..]);
    TotalAround(items, k);
  }

  /** Setting a line's quantity to a positive q changes the total by the line's
      stored price times the change in quantity. */
  lemma UpdateChangesTotal(items: seq<CartItem>, k: int, quantity: int)
    requires UniqueIds(items)
    requires 0 <= k < |items|
    requires quantity > 0
    ensures LinesTotal(QuantityUpdated(items, items[k].Id(), quantity))
            == LinesTotal(items) + items[k].snapshot.price * (quantity - items[k].quantity)
  {
    var line := CartItem(items[k].snapshot, quantity);
    UpdatePositiveSetsLine(items, k, quantity);
    TotalReplaceLine(items, k, line);
    PriceTimesChange(items[k].snapshot.price, quantity, items[k].quantity);
  }

  lemma PriceTimesChange(price: int, q: int, q0: int)
    ensures price * (q - q0) == price * q - price * q0
  {
  }

  /** An empty cart totals zero, and a well-formed cart of non-negative prices
      totals at least zero. */
  lemma {:induction false} TotalNonNegative(items: seq<CartItem>)
    requires PositiveQuantities(items)
    requires forall i :: 0 <= i < |items| ==> items[i].snapshot.price >= 0
    ensures LinesTotal(items) >= 0
    ensures items == [] ==> LinesTotal(items) == 0
  {
    if items != [] {
      var last := items[|items| - 1];
      TotalNonNegative(items[..|items| - 1]);
      assert last.snapshot.price * last.quantity >= 0;
    }
  }

  /** The same fact as an implication, for callers that do not know whether the
      lines meet the conditions. */
  lemma TotalNonNegativeWhen(items: seq<CartItem>)
    ensures PositiveQuantities(items) && (forall i :: 0 <= i < |items| ==> items[i].snapshot.price >= 0)
            ==> LinesTotal(items) >= 0
  {
    if PositiveQuantities(items) && (forall i :: 0 <= i < |items| ==> items[i].snapshot.price >= 0) {
      TotalNonNegative(items);
    }
  }

  // ---------------------------------------------------------------------------
  // The store
  // ---------------------------------------------------------------------------

  /** useCartStore: the cart lines and the actions that replace them. */
  class CartStore {
    var items: seq<CartItem>

    ghost predicate Valid()
      reads this
    {
      WellFormed(items)
    }

    /** The store starts with no lines. */
    constructor ()
      ensures Valid() && items == []
    {
      items := [];
    }

    method AddToCart(product: Product)
      requires Valid()
      modifies this
      ensures Valid()
      ensures items == AddedToCart(old(items), product)
    {
      AddKeepsWellFormed(items, product);
      items := AddedToCart(items, product);
    }

    method RemoveFromCart(productId: string)
      requires Valid()
      modifies this
      ensures Valid()
      ensures items == Without(old(items), productId)
    {
      RemoveKeepsWellFormed(items, productId);
      items := Without(items, productId);
    }

    method UpdateQuantity(productId: string, quantity: int)
      requires Valid()
      modifies this
      ensures Valid()
      ensures items == QuantityUpdated(old(items), productId, quantity)
    {
      UpdateKeepsWellFormed(items, productId, quantity);
      items := QuantityUpdated(items, productId, quantity);
    }

    method ClearCart()
      modifies this
      ensures Valid() && items == []
      ensures Total() == 0
    {
      items := [];
    }

    /** The sum of price times quantity over the current lines; never negative
        while every line holds at least one unit of a non-negatively priced product. */
    function Total(): (r: int)
      reads this
      ensures PositiveQuantities(items) && (forall i :: 0 <= i < |items| ==> items[i].snapshot.price >= 0)
              ==> r >= 0
    {
      TotalNonNegativeWhen(items);
      LinesTotal(items)
    }
  }
}
