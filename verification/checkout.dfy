/**
 * The cart page's order summary and the order helper `calculateOrderTotals`
 * (src/types/order.js) compute the same figures when the helper is given the
 * page's shipping fee and tax rate.
 */
module Checkout {
  import Seqs
  import CartPage
  import OrderRules

  /** A page line as an order item: its unit price and quantity. */
  function ToPriced(items: seq<CartPage.PageLine>): (r: seq<OrderRules.PricedItem>)
    ensures |r| == |items|
    ensures forall i :: 0 <= i < |items| ==> r[i] == OrderRules.PricedItem(items[i].price, items[i].quantity)
  {
    seq(|items|, i requires 0 <= i < |items| => OrderRules.PricedItem(items[i].price, items[i].quantity))
  }

  lemma {:induction false} SameSubtotal(items: seq<CartPage.PageLine>)
    ensures Seqs.Sum(items, CartPage.LineValue) == OrderRules.Subtotal(ToPriced(items))
    decreases |items|
  {
    if |items| > 0 {
      assert ToPriced(items)[1..] == ToPriced(items[1..]);
      SameSubtotal(items[1..]);
    }
  }

  /** Subtotal, tax and total of the page agree with `calculateOrderTotals(items, 10, 0.15)`. */
  lemma SummaryAgreesWithOrderTotals(items: seq<CartPage.PageLine>)
    ensures var s := CartPage.OrderSummary(items);
            var t := OrderRules.CalculateOrderTotals(ToPriced(items), CartPage.ShippingCents, CartPage.TaxRate);
            s.subtotal == t.subtotal && s.shipping == t.shipping && s.tax == t.tax && s.total == t.total
  {
    SameSubtotal(items);
  }
}
