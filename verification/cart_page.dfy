/**
 * The cart page's own copy of the lines and its order summary
 * (src/app/cart/page.jsx). The page reads flat lines `{ id, name, image,
 * size, price, quantity }` and keeps them in local component state. Prices
 * are integer cents; tax and total are exact rationals of cents.
 */
module CartPage {
  import Seqs

  datatype PageLine = PageLine(id: int, name: string, image: string, size: string, price: int, quantity: int)

  /** Flat shipping fee: 10 currency units, whatever the contents. */
  const ShippingCents: int := 1000

  /** Tax rate: 15 %. */
  const TaxRate: real := 0.15

  predicate AllAtLeastOne(items: seq<PageLine>)
  {
    forall i :: 0 <= i < |items| ==> items[i].quantity >= 1
  }

  /**
   * `updateQuantity(itemId, newQuantity)`: a quantity below 1 is ignored;
   * otherwise every line with that id gets the new quantity.
   */
  function UpdateQuantity(items: seq<PageLine>, itemId: int, newQuantity: int): (r: seq<PageLine>)
    ensures newQuantity < 1 ==> r == items
    ensures |r| == |items|
    ensures forall i :: 0 <= i < |items| && items[i].id != itemId ==> r[i] == items[i]
    ensures newQuantity >= 1 ==>
              forall i :: 0 <= i < |items| && items[i].id == itemId ==> r[i] == items[i].(quantity := newQuantity)
    ensures AllAtLeastOne(items) ==> AllAtLeastOne(r)
  {
    if newQuantity < 1 then
      items
    else
      seq(|items|, i requires 0 <= i < |items| =>
        if items[i].id == itemId then items[i].(quantity := newQuantity) else items[i])
  }

  /** The minus button of a line: `updateQuantity(item.id, item.quantity - 1)`. */
  function Decrement(items: seq<PageLine>, line: PageLine): (r: seq<PageLine>)
    ensures |r| == |items|
    ensures line.quantity <= 1 ==> r == items
    ensures forall i :: 0 <= i < |items| && items[i].id != line.id ==> r[i] == items[i]
    ensures line.quantity > 1 ==>
              forall i :: 0 <= i < |items| && items[i].id == line.id ==> r[i] == items[i].(quantity := line.quantity - 1)
  {
    UpdateQuantity(items, line.id, line.quantity - 1)
  }

  /** The plus button of a line: `updateQuantity(item.id, item.quantity + 1)`. */
  function Increment(items: seq<PageLine>, line: PageLine): (r: seq<PageLine>)
    ensures |r| == |items|
    ensures forall i :: 0 <= i < |items| && items[i].id != line.id ==> r[i] == items[i]
    ensures line.quantity >= 0 ==>
              forall i :: 0 <= i < |items| && items[i].id == line.id ==> r[i] == items[i].(quantity := line.quantity + 1)
    ensures line.quantity < 0 ==> r == items
  {
    UpdateQuantity(items, line.id, line.quantity + 1)
  }

  /** `removeItem(itemId)`: `prevItems.filter(item => item.id !== itemId)`. */
  function RemoveItem(items: seq<PageLine>, itemId: int): (r: seq<PageLine>)
    ensures forall i :: 0 <= i < |r| ==> r[i] in items && r[i].id != itemId
    ensures forall i :: 0 <= i < |items| && items[i].id != itemId ==> items[i] in r
    ensures Seqs.IsSubsequence(r, items)
    ensures AllAtLeastOne(items) ==> AllAtLeastOne(r)
    ensures forall l :: Seqs.Count(r, l) == if l.id == itemId then 0 else Seqs.Count(items, l)
  {
    Seqs.FilterIsSubsequence(items, (l: PageLine) => l.id != itemId);
    Seqs.FilterCounts(items, (l: PageLine) => l.id != itemId);
    Seqs.Filter(items, (l: PageLine) => l.id != itemId)
  }

  function LineValue(l: PageLine): int
  {
    l.price * l.quantity
  }

  /** The order-summary box: subtotal, shipping, tax, total. */
  datatype Summary = Summary(subtotal: int, shipping: int, tax: real, total: real)

  function OrderSummary(items: seq<PageLine>): (s: Summary)
    ensures s.shipping == ShippingCents
    ensures s.tax == s.subtotal as real * TaxRate
    ensures s.total == s.subtotal as real * 1.15 + ShippingCents as real
  {
    var subtotal := Seqs.Sum(items, LineValue);
    var tax := subtotal as real * TaxRate;
    Summary(subtotal, ShippingCents, tax, subtotal as real + ShippingCents as real + tax)
  }

  /** Pressing minus on a line whose quantity is 1 changes nothing. */
  lemma MinusAtOneIsNoop(items: seq<PageLine>, line: PageLine)
    requires line.quantity == 1
    ensures Decrement(items, line) == items
  {
  }

  /** Plus and minus keep every quantity at least 1. */
  lemma ButtonsKeepQuantitiesPositive(items: seq<PageLine>, line: PageLine)
    requires AllAtLeastOne(items)
    ensures AllAtLeastOne(Decrement(items, line))
    ensures AllAtLeastOne(Increment(items, line))
  {
  }

  /** An empty cart costs exactly the shipping fee. */
  lemma EmptyCartCostsShipping()
    ensures OrderSummary([]).subtotal == 0
    ensures OrderSummary([]).total == ShippingCents as real
  {
  }

  /**
   * The subtotal is additive over the lines, a single line contributing price
   * times quantity; tax and total follow it.
   */
  lemma SubtotalAppend(a: seq<PageLine>, b: seq<PageLine>, l: PageLine)
    ensures OrderSummary([l]).subtotal == l.price * l.quantity
    ensures OrderSummary(a + b).subtotal == OrderSummary(a).subtotal + OrderSummary(b).subtotal
    ensures OrderSummary(a + b).total == OrderSummary(a).total + OrderSummary(b).total - ShippingCents as real
  {
    assert [l][1..] == [];
    assert Seqs.Sum([l], LineValue) == LineValue(l) + Seqs.Sum([], LineValue);
    Seqs.SumAppend(a, b, LineValue);
  }

  /** Two lines, 10.00 x 2 and 5.50 x 1: subtotal 25.50, tax 3.825, total 39.325 before display rounding. */
  lemma WorkedExample()
    ensures var s := OrderSummary([PageLine(1, "A", "", "42", 1000, 2), PageLine(2, "B", "", "42", 550, 1)]);
            s.subtotal == 2550 && s.tax == 382.5 && s.total == 3932.5
  {
  }
}
