/**
 * The cart provider's line-item store for a shopper who is not signed in
 * (src/lib/hooks/useCart.js). Lines live in an ordered sequence; a line is
 * identified for add by its (product id, size) pair and for update/remove by
 * its numeric `id`, which is the clock reading taken when the line was created.
 * Prices are integer cents.
 */
module CartStore {
  import opened Options
  import Seqs

  /** The product object the page passes to `addToCart`; the line keeps it as a snapshot. */
  datatype Product = Product(id: string, name: string, price: int)

  /** A stored line `{ id, product_id, product, quantity, size }`. */
  datatype Line = Line(id: int, productId: string, product: Product, quantity: int, size: string)

  type Cart = seq<Line>

  predicate HasKey(l: Line, productId: string, size: string)
  {
    l.productId == productId && l.size == size
  }

  /** At most one line per (product id, size). */
  predicate UniqueKeys(cart: Cart)
  {
    forall i, j :: 0 <= i < j < |cart| ==> cart[i].productId != cart[j].productId || cart[i].size != cart[j].size
  }

  /** `findIndex` of the first line with the given (product id, size). */
  function FindLine(cart: Cart, productId: string, size: string): (r: Option<nat>)
    ensures r.Some? ==> r.value < |cart| && HasKey(cart[r.value], productId, size)
    ensures r.Some? ==> forall j :: 0 <= j < r.value ==> !HasKey(cart[j], productId, size)
    ensures r.None? ==> forall j :: 0 <= j < |cart| ==> !HasKey(cart[j], productId, size)
  {
    if |cart| == 0 then None
    else if HasKey(cart[0], productId, size) then Some(0)
    else match FindLine(cart[1..], productId, size)
      case None => None
      case Some(k) => Some(k + 1)
  }

  /**
   * `addToCart(product, quantity, size)` without a user. The first line with
   * the same (product id, size) has its quantity raised; otherwise a new line
   * stamped with the clock reading `now` is appended.
   */
  function AddToCart(cart: Cart, product: Product, quantity: int, size: string, now: int): (r: Cart)
    ensures FindLine(cart, product.id, size).Some? ==> |r| == |cart|
    ensures FindLine(cart, product.id, size).None? ==> r == cart + [Line(now, product.id, product, quantity, size)]
  {
    match FindLine(cart, product.id, size)
    case Some(k) => Raise(cart, k, quantity)
    case None => cart + [Line(now, product.id, product, quantity, size)]
  }

  /** The line at `k` with its quantity raised by `quantity`; nothing else changes. */
  function Raise(cart: Cart, k: nat, quantity: int): (r: Cart)
    requires k < |cart|
    ensures |r| == |cart|
    ensures r[k] == cart[k].(quantity := cart[k].quantity + quantity)
    ensures forall j :: 0 <= j < |cart| && j != k ==> r[j] == cart[j]
  {
    cart[k := cart[k].(quantity := cart[k].quantity + quantity)]
  }

  /**
   * The first line with the same (product id, size) gets the added quantity
   * and every other line stays as it was; with no such line, the new line is
   * appended.
   */
  lemma AddToCartSpec(cart: Cart, product: Product, quantity: int, size: string, now: int)
    ensures var r := AddToCart(cart, product, quantity, size, now);
            forall k :: 0 <= k < |cart| && HasKey(cart[k], product.id, size)
                        && (forall j :: 0 <= j < k ==> !HasKey(cart[j], product.id, size)) ==>
              |r| == |cart|
              && r[k] == cart[k].(quantity := cart[k].quantity + quantity)
              && forall j :: 0 <= j < |cart| && j != k ==> r[j] == cart[j]
    ensures (forall j :: 0 <= j < |cart| ==> !HasKey(cart[j], product.id, size)) ==>
              AddToCart(cart, product, quantity, size, now) == cart + [Line(now, product.id, product, quantity, size)]
  {
    var r := AddToCart(cart, product, quantity, size, now);
    forall k | 0 <= k < |cart| && HasKey(cart[k], product.id, size)
               && (forall j :: 0 <= j < k ==> !HasKey(cart[j], product.id, size))
      ensures |r| == |cart| && r[k] == cart[k].(quantity := cart[k].quantity + quantity)
      ensures forall j :: 0 <= j < |cart| && j != k ==> r[j] == cart[j]
    {
      assert FindLine(cart, product.id, size) == Some(k);
    }
  }

  /** Adding keeps at most one line per (product id, size). */
  lemma AddPreservesUniqueKeys(cart: Cart, product: Product, quantity: int, size: string, now: int)
    requires UniqueKeys(cart)
    ensures UniqueKeys(AddToCart(cart, product, quantity, size, now))
  {
  }

  /** `updateQuantity(itemId, quantity)` without a user: no lower bound is imposed. */
  function UpdateQuantity(cart: Cart, itemId: int, quantity: int): (r: Cart)
    ensures |r| == |cart|
    ensures forall i :: 0 <= i < |cart| ==>
              r[i].id == cart[i].id && r[i].productId == cart[i].productId
              && r[i].product == cart[i].product && r[i].size == cart[i].size
    ensures forall i :: 0 <= i < |cart| ==>
              r[i].quantity == if cart[i].id == itemId then quantity else cart[i].quantity
    ensures (forall i :: 0 <= i < |cart| ==> cart[i].id != itemId) ==> r == cart
    ensures UniqueKeys(cart) ==> UniqueKeys(r)
  {
    seq(|cart|, i requires 0 <= i < |cart| =>
      if cart[i].id == itemId then cart[i].(quantity := quantity) else cart[i])
  }

  /** `removeItem(itemId)` without a user: `cartItems.filter(item => item.id !== itemId)`. */
  function RemoveItem(cart: Cart, itemId: int): (r: Cart)
    ensures forall i :: 0 <= i < |r| ==> r[i] in cart && r[i].id != itemId
    ensures forall i :: 0 <= i < |cart| && cart[i].id != itemId ==> cart[i] in r
    ensures Seqs.IsSubsequence(r, cart)
    ensures (forall i :: 0 <= i < |cart| ==> cart[i].id != itemId) ==> r == cart
    ensures forall l :: Seqs.Count(r, l) == if l.id == itemId then 0 else Seqs.Count(cart, l)
  {
    Seqs.FilterIsSubsequence(cart, (l: Line) => l.id != itemId);
    Seqs.FilterCounts(cart, (l: Line) => l.id != itemId);
    if forall i :: 0 <= i < |cart| ==> cart[i].id != itemId then
      Seqs.FilterKeepsAll(cart, (l: Line) => l.id != itemId);
      Seqs.Filter(cart, (l: Line) => l.id != itemId)
    else
      Seqs.Filter(cart, (l: Line) => l.id != itemId)
  }

  /** `clearCart()` without a user. */
  function ClearCart(cart: Cart): (r: Cart)
    ensures |r| == 0
  {
    []
  }

  function LineValue(l: Line): int
  {
    l.product.price * l.quantity
  }

  /** `getCartTotal()`: the snapshot price times the quantity, summed over the lines. */
  function CartTotal(cart: Cart): int
  {
    Seqs.Sum(cart, LineValue)
  }

  /** `cartItemsCount`: the number of lines, not of units. */
  function ItemsCount(cart: Cart): nat
  {
    |cart|
  }

  /** Removing twice is removing once. */
  lemma RemoveIdempotent(cart: Cart, itemId: int)
    ensures RemoveItem(RemoveItem(cart, itemId), itemId) == RemoveItem(cart, itemId)
  {
  }

  /** Removing keeps at most one line per (product id, size). */
  lemma {:induction false} RemovePreservesUniqueKeys(cart: Cart, itemId: int)
    requires UniqueKeys(cart)
    ensures UniqueKeys(RemoveItem(cart, itemId))
  {
    var p := (l: Line) => l.id != itemId;
    FilterOfUniqueIsUnique(cart, p);
  }

  lemma {:induction false} FilterOfUniqueIsUnique(cart: Cart, p: Line -> bool)
    requires UniqueKeys(cart)
    ensures UniqueKeys(Seqs.Filter(cart, p))
    decreases |cart|
  {
    if |cart| > 0 {
      assert UniqueKeys(cart[1..]) by {
        forall i, j | 0 <= i < j < |cart[1..]|
          ensures cart[1..][i].productId != cart[1..][j].productId || cart[1..][i].size != cart[1..][j].size
        {
          assert cart[1..][i] == cart[i + 1] && cart[1..][j] == cart[j + 1];
        }
      }
      FilterOfUniqueIsUnique(cart[1..], p);
      var rest := Seqs.Filter(cart[1..], p);
      if p(cart[0]) {
        var r := [cart[0]] + rest;
        forall i, j | 0 <= i < j < |r|
          ensures r[i].productId != r[j].productId || r[i].size != r[j].size
        {
          if i == 0 {
            assert r[j] == rest[j - 1];
            assert rest[j - 1] in cart[1..];
            var m :| 0 <= m < |cart[1..]| && cart[1..][m] == rest[j - 1];
            assert cart[m + 1] == r[j];
          } else {
            assert r[i] == rest[i - 1] && r[j] == rest[j - 1];
          }
        }
      }
    }
  }

  /** The total of an empty cart is 0, and clearing leaves nothing to pay. */
  lemma EmptyTotal(cart: Cart)
    ensures CartTotal(ClearCart(cart)) == 0
  {
  }

  /** Totals add up over a split of the cart. */
  lemma TotalAppend(a: Cart, b: Cart)
    ensures CartTotal(a + b) == CartTotal(a) + CartTotal(b)
  {
    Seqs.SumAppend(a, b, LineValue);
  }

  /**
   * Adding `quantity` units raises the total by `quantity` times the price the
   * line was created with: the price snapshot of an existing line is kept even
   * when the product passed in carries a different price.
   */
  lemma {:induction false} AddRaisesTotal(cart: Cart, product: Product, quantity: int, size: string, now: int)
    ensures FindLine(cart, product.id, size).Some? ==>
              CartTotal(AddToCart(cart, product, quantity, size, now))
              == CartTotal(cart) + cart[FindLine(cart, product.id, size).value].product.price * quantity
    ensures FindLine(cart, product.id, size).None? ==>
              CartTotal(AddToCart(cart, product, quantity, size, now)) == CartTotal(cart) + product.price * quantity
  {
    match FindLine(cart, product.id, size)
    case Some(k) =>
      var l := cart[k];
      Seqs.SumUpdate(cart, k, l.(quantity := l.quantity + quantity), LineValue);
      assert LineValue(l.(quantity := l.quantity + quantity)) == l.product.price * l.quantity + l.product.price * quantity by {
        assert l.product.price * (l.quantity + quantity) == l.product.price * l.quantity + l.product.price * quantity;
      }
    case None =>
      Seqs.SumAppend(cart, [Line(now, product.id, product, quantity, size)], LineValue);
  }

  /** Adding to an existing (product id, size) leaves the number of lines unchanged. */
  lemma AddExistingKeepsCount(cart: Cart, product: Product, quantity: int, size: string, now: int)
    requires exists j :: 0 <= j < |cart| && HasKey(cart[j], product.id, size)
    ensures ItemsCount(AddToCart(cart, product, quantity, size, now)) == ItemsCount(cart)
  {
  }

  /** Two adds of one (product id, size) are one add of the summed quantity. */
  lemma {:induction false} AddTwice(cart: Cart, product: Product, q1: int, q2: int, size: string, t1: int, t2: int)
    ensures AddToCart(AddToCart(cart, product, q1, size, t1), product, q2, size, t2)
            == AddToCart(cart, product, q1 + q2, size, t1)
  {
    match FindLine(cart, product.id, size)
    case Some(k) => AddTwiceExisting(cart, product, q1, q2, size, t1, t2, k);
    case None => AddTwiceNew(cart, product, q1, q2, size, t1, t2);
  }

  lemma AddTwiceExisting(cart: Cart, product: Product, q1: int, q2: int, size: string, t1: int, t2: int, k: nat)
    requires FindLine(cart, product.id, size) == Some(k)
    ensures AddToCart(AddToCart(cart, product, q1, size, t1), product, q2, size, t2)
            == AddToCart(cart, product, q1 + q2, size, t1)
  {
    var once := Raise(cart, k, q1);
    assert AddToCart(cart, product, q1, size, t1) == once;
    SameKeysSameFind(once, cart, product.id, size);
    assert AddToCart(once, product, q2, size, t2) == Raise(once, k, q2);
    assert Raise(once, k, q2) == Raise(cart, k, q1 + q2);
  }

  /** `findIndex` only looks at the keys, so changing quantities does not move it. */
  lemma {:induction false} SameKeysSameFind(a: Cart, b: Cart, productId: string, size: string)
    requires |a| == |b|
    requires forall i :: 0 <= i < |a| ==> a[i].productId == b[i].productId && a[i].size == b[i].size
    ensures FindLine(a, productId, size) == FindLine(b, productId, size)
    decreases |a|
  {
    if |a| > 0 {
      SameKeysSameFind(a[1..], b[1..], productId, size);
    }
  }

  lemma AddTwiceNew(cart: Cart, product: Product, q1: int, q2: int, size: string, t1: int, t2: int)
    requires FindLine(cart, product.id, size).None?
    ensures AddToCart(AddToCart(cart, product, q1, size, t1), product, q2, size, t2)
            == AddToCart(cart, product, q1 + q2, size, t1)
  {
    var n := |cart|;
    var once := cart + [Line(t1, product.id, product, q1, size)];
    assert AddToCart(cart, product, q1, size, t1) == once;
    assert forall j :: 0 <= j < n ==> once[j] == cart[j];
    var found := FindLine(once, product.id, size);
    assert found == Some(n) by {
      assert HasKey(once[n], product.id, size);
    }
    assert once[n := once[n].(quantity := once[n].quantity + q2)]
        == cart + [Line(t1, product.id, product, q1 + q2, size)];
  }

  /** A run of adds of one product and size, the i-th with quantity `qs[i]` at time `times[i]`. */
  function AddEach(cart: Cart, product: Product, size: string, qs: seq<int>, times: seq<int>): Cart
    requires |qs| == |times|
    decreases |qs|
  {
    if |qs| == 0 then cart
    else AddEach(AddToCart(cart, product, qs[0], size, times[0]), product, size, qs[1..], times[1..])
  }

  function SumOf(qs: seq<int>): int
  {
    if |qs| == 0 then 0 else qs[0] + SumOf(qs[1..])
  }

  /** Repeated adds of one (product id, size) give one line whose quantity grew by the sum of the amounts. */
  lemma {:induction false} AddEachIsOneAdd(cart: Cart, product: Product, size: string, qs: seq<int>, times: seq<int>)
    requires |qs| == |times| > 0
    ensures AddEach(cart, product, size, qs, times) == AddToCart(cart, product, SumOf(qs), size, times[0])
    decreases |qs|
  {
    var next := AddToCart(cart, product, qs[0], size, times[0]);
    assert AddEach(cart, product, size, qs, times) == AddEach(next, product, size, qs[1..], times[1..]);
    if |qs| > 1 {
      AddEachIsOneAdd(next, product, size, qs[1..], times[1..]);
      assert AddEach(next, product, size, qs[1..], times[1..]) == AddToCart(next, product, SumOf(qs[1..]), size, times[1]);
      AddTwice(cart, product, qs[0], SumOf(qs[1..]), size, times[0], times[1]);
    } else {
      assert qs[1..] == [] && times[1..] == [];
      assert SumOf(qs) == qs[0];
    }
  }

  /**
   * With the default amount of 1, `n` adds of a new (product id, size) create
   * exactly one line, appended at the end, with quantity `n`.
   */
  lemma DefaultAddsCountUnits(cart: Cart, product: Product, size: string, times: seq<int>)
    requires |times| > 0
    requires forall j :: 0 <= j < |cart| ==> !HasKey(cart[j], product.id, size)
    ensures AddEach(cart, product, size, Ones(|times|), times)
            == cart + [Line(times[0], product.id, product, |times|, size)]
  {
    AddEachIsOneAdd(cart, product, size, Ones(|times|), times);
    SumOfOnes(|times|);
  }

  function Ones(n: nat): (r: seq<int>)
    ensures |r| == n
  {
    seq(n, _ => 1)
  }

  lemma {:induction false} SumOfOnes(n: nat)
    ensures SumOf(Ones(n)) == n
  {
    if n > 0 {
      assert Ones(n)[1..] == Ones(n - 1);
      SumOfOnes(n - 1);
    }
  }
}
