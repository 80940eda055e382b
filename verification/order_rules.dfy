/**
 * Order validation, order totals and the cancel/refund rules
 * (src/types/order.js). Fields that may be missing or null are `Option`s;
 * a string or number field is "present" in JavaScript's sense when it is
 * truthy (non-empty, non-zero). Prices are integer cents.
 */
module OrderRules {
  import opened Options
  import opened Js

  // Order statuses and payment statuses as stored.
  const Pending := "pending"
  const Processing := "processing"
  const Shipped := "shipped"
  const Delivered := "delivered"
  const Cancelled := "cancelled"
  const Refunded := "refunded"
  const Paid := "paid"

  const OrderStatuses: seq<string> := [Pending, Processing, Shipped, Delivered, Cancelled, Refunded]
  const CancellableStatuses: seq<string> := [Pending, Processing]

  /** An item of an order being submitted. */
  datatype ItemInput = ItemInput(productId: Option<string>, quantity: Option<int>, price: Option<int>)

  /** The fields of an order that `validateOrder` reads. */
  datatype OrderInput = OrderInput(
    userId: Option<string>,
    items: Option<seq<ItemInput>>,
    shippingAddress: Value,
    paymentMethod: Option<string>)

  /** The keys of one item's error object. */
  datatype ItemField = ProductId | Quantity | Price {
    function Key(): string
    {
      match this
      case ProductId => "product_id"
      case Quantity => "quantity"
      case Price => "price"
    }
  }

  /** `{ index, ...err }` for one failing item; `messages` maps fields to messages. */
  datatype ItemError = ItemError(index: nat, messages: map<ItemField, string>)

  /** The keys of the order's error object. */
  datatype OrderField = UserId | Items | ShippingAddress | PaymentMethod {
    function Key(): string
    {
      match this
      case UserId => "user_id"
      case Items => "items"
      case ShippingAddress => "shipping_address"
      case PaymentMethod => "payment_method"
    }
  }

  /** The value stored under an error key: a message, or the list of failing items. */
  datatype OrderError = Message(text: string) | ItemErrors(list: seq<ItemError>)

  datatype Validation = Validation(isValid: bool, errors: map<OrderField, OrderError>)

  predicate QuantityInvalid(item: ItemInput)
  {
    !PresentNum(item.quantity) || item.quantity.value < 1
  }

  predicate PriceInvalid(item: ItemInput)
  {
    !PresentNum(item.price) || item.price.value < 0
  }

  /** An item is reported when its product id, quantity or price is invalid. */
  predicate ItemFails(item: ItemInput)
  {
    !Present(item.productId) || QuantityInvalid(item) || PriceInvalid(item)
  }

  /** The per-field messages of one item. */
  function ItemMessages(item: ItemInput): (m: map<ItemField, string>)
    ensures ProductId in m <==> !Present(item.productId)
    ensures Quantity in m <==> QuantityInvalid(item)
    ensures Price in m <==> PriceInvalid(item)
    ensures ProductId in m ==> m[ProductId] == "Product ID is required"
    ensures Quantity in m ==> m[Quantity] == "Valid quantity is required"
    ensures Price in m ==> m[Price] == "Valid price is required"
    ensures |m| > 0 <==> ItemFails(item)
  {
    var e0: map<ItemField, string> := map[];
    var e1 := if !Present(item.productId) then e0[ProductId := "Product ID is required"] else e0;
    var e2 := if QuantityInvalid(item) then e1[Quantity := "Valid quantity is required"] else e1;
    var e3 := if PriceInvalid(item) then e2[Price := "Valid price is required"] else e2;
    assert ProductId in e3 ==> |e3| > 0;
    assert Quantity in e3 ==> |e3| > 0;
    assert Price in e3 ==> |e3| > 0;
    e3
  }

  /**
   * `items.map((item, index) => ...).filter(Boolean)` for the items numbered
   * from `start`.
   */
  function CollectItemErrors(items: seq<ItemInput>, start: nat): (r: seq<ItemError>)
    ensures |r| <= |items|
    decreases |items|
  {
    if |items| == 0 then []
    else
      var rest := CollectItemErrors(items[1..], start + 1);
      if ItemFails(items[0]) then [ItemError(start, ItemMessages(items[0]))] + rest else rest
  }

  /** `e` reports a failing item of `items` (numbered from `start`) with that item's own messages. */
  predicate ReportsFailing(items: seq<ItemInput>, start: nat, e: ItemError)
  {
    start <= e.index < start + |items|
    && ItemFails(items[e.index - start])
    && e.messages == ItemMessages(items[e.index - start])
  }

  /** Every entry of `r` is a failing item of `items` (numbered from `start`) with its own messages. */
  predicate OnlyFailing(items: seq<ItemInput>, start: nat, r: seq<ItemError>)
  {
    forall k :: 0 <= k < |r| ==> ReportsFailing(items, start, r[k])
  }

  predicate IndexOrdered(r: seq<ItemError>)
  {
    forall k, m :: 0 <= k < m < |r| ==> r[k].index < r[m].index
  }

  /** Every failing item of `items` (numbered from `start`) has an entry in `r`. */
  predicate AllFailingListed(items: seq<ItemInput>, start: nat, r: seq<ItemError>)
  {
    forall i :: 0 <= i < |items| && ItemFails(items[i]) ==> exists k :: 0 <= k < |r| && r[k].index == start + i
  }

  /** The collected item errors are exactly the failing items, in index order, each with its own messages. */
  lemma CollectItemErrorsExact(items: seq<ItemInput>, start: nat)
    ensures OnlyFailing(items, start, CollectItemErrors(items, start))
    ensures IndexOrdered(CollectItemErrors(items, start))
    ensures AllFailingListed(items, start, CollectItemErrors(items, start))
  {
    CollectOnlyFailing(items, start);
    CollectIndexOrdered(items, start);
    CollectAllFailing(items, start);
  }

  /** The entry for the first item, if it fails. */
  function HeadError(items: seq<ItemInput>, start: nat): (h: seq<ItemError>)
    requires |items| > 0
    ensures |h| <= 1
    ensures |h| == 1 ==> h[0] == ItemError(start, ItemMessages(items[0])) && ItemFails(items[0])
    ensures |h| == 0 <==> !ItemFails(items[0])
  {
    if ItemFails(items[0]) then [ItemError(start, ItemMessages(items[0]))] else []
  }

  lemma CollectUnfold(items: seq<ItemInput>, start: nat)
    requires |items| > 0
    ensures CollectItemErrors(items, start) == HeadError(items, start) + CollectItemErrors(items[1..], start + 1)
  {
  }

  /** An entry reporting on the tail reports on the whole list. */
  lemma ReportsFailingShift(items: seq<ItemInput>, start: nat, e: ItemError)
    requires |items| > 0 && ReportsFailing(items[1..], start + 1, e)
    ensures ReportsFailing(items, start, e)
  {
    assert items[1..][e.index - (start + 1)] == items[e.index - start];
  }

  lemma {:induction false} CollectOnlyFailing(items: seq<ItemInput>, start: nat)
    ensures OnlyFailing(items, start, CollectItemErrors(items, start))
    decreases |items|
  {
    if |items| > 0 {
      var rest := CollectItemErrors(items[1..], start + 1);
      CollectOnlyFailing(items[1..], start + 1);
      var head := HeadError(items, start);
      CollectUnfold(items, start);
      var r := head + rest;
      forall k | 0 <= k < |r|
        ensures ReportsFailing(items, start, r[k])
      {
        if k >= |head| {
          assert r[k] == rest[k - |head|];
          ReportsFailingShift(items, start, r[k]);
        }
      }
    }
  }

  predicate IndicesFrom(r: seq<ItemError>, start: nat)
  {
    forall k :: 0 <= k < |r| ==> r[k].index >= start
  }

  lemma {:induction false} CollectIndexOrdered(items: seq<ItemInput>, start: nat)
    ensures IndexOrdered(CollectItemErrors(items, start))
    ensures IndicesFrom(CollectItemErrors(items, start), start)
    decreases |items|
  {
    if |items| > 0 {
      var rest := CollectItemErrors(items[1..], start + 1);
      CollectIndexOrdered(items[1..], start + 1);
      if ItemFails(items[0]) {
        var x := ItemError(start, ItemMessages(items[0]));
        assert CollectItemErrors(items, start) == [x] + rest;
        OrderedCons(x, rest);
      } else {
        assert CollectItemErrors(items, start) == rest;
      }
    }
  }

  /** An entry below every index of an ordered list can go in front of it. */
  lemma OrderedCons(x: ItemError, rest: seq<ItemError>)
    requires IndexOrdered(rest) && IndicesFrom(rest, x.index + 1)
    ensures IndexOrdered([x] + rest)
    ensures IndicesFrom([x] + rest, x.index)
  {
    var r := [x] + rest;
    forall k, m | 0 <= k < m < |r|
      ensures r[k].index < r[m].index
    {
      assert r[m] == rest[m - 1];
      if k > 0 {
        assert r[k] == rest[k - 1];
      }
    }
  }

  lemma {:induction false} CollectAllFailing(items: seq<ItemInput>, start: nat)
    ensures AllFailingListed(items, start, CollectItemErrors(items, start))
    decreases |items|
  {
    if |items| > 0 {
      var rest := CollectItemErrors(items[1..], start + 1);
      CollectAllFailing(items[1..], start + 1);
      var head := HeadError(items, start);
      CollectUnfold(items, start);
      var r := head + rest;
      forall i | 0 <= i < |items| && ItemFails(items[i])
        ensures exists k :: 0 <= k < |r| && r[k].index == start + i
      {
        if i == 0 {
          assert r[0].index == start;
        } else {
          assert items[1..][i - 1] == items[i];
          var k :| 0 <= k < |rest| && rest[k].index == start + 1 + (i - 1);
          assert r[k + |head|] == rest[k];
        }
      }
    }
  }

  /** There is an items error list exactly when some item fails. */
  lemma SomeItemErrorIffSomeFailure(items: seq<ItemInput>)
    ensures |CollectItemErrors(items, 0)| > 0 <==> exists i :: 0 <= i < |items| && ItemFails(items[i])
  {
    var r := CollectItemErrors(items, 0);
    CollectItemErrorsExact(items, 0);
    if |r| > 0 {
      assert ItemFails(items[r[0].index]);
    }
  }

  /**
   * What `validateOrder` leaves under `items`: the missing-items message, the
   * list of failing items, or nothing.
   */
  function ItemsEntry(items: Option<seq<ItemInput>>): (e: Option<OrderError>)
    ensures !NonEmpty(items) ==> e == Some(Message("Order must contain items"))
    ensures NonEmpty(items) ==> (e.Some? <==> exists i :: 0 <= i < |items.value| && ItemFails(items.value[i]))
    ensures NonEmpty(items) && e.Some? ==>
              e.value.ItemErrors?
              && OnlyFailing(items.value, 0, e.value.list)
              && IndexOrdered(e.value.list)
              && AllFailingListed(items.value, 0, e.value.list)
  {
    if !NonEmpty(items) then Some(Message("Order must contain items"))
    else
      var list := CollectItemErrors(items.value, 0);
      SomeItemErrorIffSomeFailure(items.value);
      CollectItemErrorsExact(items.value, 0);
      if |list| > 0 then Some(ItemErrors(list)) else None
  }

  /** `validateOrder(order)`. */
  function ValidateOrder(order: OrderInput): (v: Validation)
    ensures v.isValid <==> v.errors == map[]
    ensures UserId in v.errors <==> !Present(order.userId)
    ensures ShippingAddress in v.errors <==> !Truthy(order.shippingAddress)
    ensures PaymentMethod in v.errors <==> !Present(order.paymentMethod)
    ensures UserId in v.errors ==> v.errors[UserId] == Message("User ID is required")
    ensures ShippingAddress in v.errors ==> v.errors[ShippingAddress] == Message("Shipping address is required")
    ensures PaymentMethod in v.errors ==> v.errors[PaymentMethod] == Message("Payment method is required")
    ensures Items in v.errors <==> ItemsEntry(order.items).Some?
    ensures Items in v.errors ==> v.errors[Items] == ItemsEntry(order.items).value
  {
    var e0: map<OrderField, OrderError> := map[];
    var e1 := if !Present(order.userId) then e0[UserId := Message("User ID is required")] else e0;
    var e2 := if !NonEmpty(order.items) then e1[Items := Message("Order must contain items")] else e1;
    var e3 := if !Truthy(order.shippingAddress) then e2[ShippingAddress := Message("Shipping address is required")] else e2;
    var e4 := if !Present(order.paymentMethod) then e3[PaymentMethod := Message("Payment method is required")] else e3;
    var e5 :=
      if NonEmpty(order.items) then
        var itemErrors := CollectItemErrors(order.items.value, 0);
        if |itemErrors| > 0 then e4[Items := ItemErrors(itemErrors)] else e4
      else e4;
    Validation(|e5| == 0, e5)
  }

  /** An item with every field valid. */
  lemma ValidItemHasNoError(item: ItemInput)
    requires Present(item.productId)
    requires item.quantity.Some? && item.quantity.value >= 1
    requires item.price.Some? && item.price.value > 0
    ensures !ItemFails(item)
  {
  }

  /** A price of 0 is falsy, so it is rejected like a negative one; a quantity of 0 likewise. */
  lemma ZeroPriceOrQuantityFails(productId: string, quantity: int, price: int)
    requires quantity <= 0 || price <= 0
    ensures ItemFails(ItemInput(Some(productId), Some(quantity), Some(price)))
  {
  }

  /** A line of an order: the unit price in cents and the quantity. */
  datatype PricedItem = PricedItem(price: int, quantity: int)

  datatype Totals = Totals(subtotal: int, tax: real, shipping: int, total: real)

  function ItemValue(item: PricedItem): int
  {
    item.price * item.quantity
  }

  function Subtotal(items: seq<PricedItem>): int
  {
    if |items| == 0 then 0 else ItemValue(items[0]) + Subtotal(items[1..])
  }

  /** `calculateOrderTotals(items, shippingCost, taxRate)`. */
  function CalculateOrderTotals(items: seq<PricedItem>, shippingCost: int, taxRate: real): (t: Totals)
    ensures t.subtotal == Subtotal(items)
    ensures t.shipping == shippingCost
    ensures t.tax == t.subtotal as real * taxRate
    ensures t.total == t.subtotal as real * (1.0 + taxRate) + shippingCost as real
    ensures t.subtotal >= 0 && taxRate >= 0.0 && shippingCost >= 0 ==> t.total >= t.subtotal as real
  {
    var subtotal := Subtotal(items);
    var tax := subtotal as real * taxRate;
    assert subtotal >= 0 && taxRate >= 0.0 ==> tax >= 0.0;
    Totals(subtotal, tax, shippingCost, subtotal as real + tax + shippingCost as real)
  }

  /** `calculateOrderTotals(items)` with the default shipping 0 and tax rate 0.15. */
  function CalculateOrderTotalsWithDefaults(items: seq<PricedItem>): (t: Totals)
    ensures t.shipping == 0
    ensures t.tax == t.subtotal as real * 0.15
    ensures t.total == t.subtotal as real * 1.15
  {
    CalculateOrderTotals(items, 0, 0.15)
  }

  /** The subtotal of one order split into two is the sum of the parts. */
  lemma {:induction false} SubtotalAppend(a: seq<PricedItem>, b: seq<PricedItem>)
    ensures Subtotal(a + b) == Subtotal(a) + Subtotal(b)
    decreases |a|
  {
    if |a| == 0 {
      assert a + b == b;
    } else {
      assert (a + b)[1..] == a[1..] + b;
      SubtotalAppend(a[1..], b);
    }
  }

  /** Every item with a positive price and quantity makes a positive subtotal for a non-empty order. */
  lemma {:induction false} PositiveItemsPositiveSubtotal(items: seq<PricedItem>)
    requires forall i :: 0 <= i < |items| ==> items[i].price > 0 && items[i].quantity >= 1
    ensures |items| > 0 ==> Subtotal(items) > 0
    ensures Subtotal(items) >= 0
    decreases |items|
  {
    if |items| > 0 {
      PositiveItemsPositiveSubtotal(items[1..]);
      assert items[0].price * items[0].quantity > 0;
    }
  }

  /** `canCancelOrder(order)`: the status is one of the cancellable statuses. */
  predicate CanCancelOrder(status: string)
  {
    status in CancellableStatuses
  }

  /** `canRefundOrder(order)`: delivered and paid. */
  predicate CanRefundOrder(status: string, paymentStatus: string)
  {
    status == Delivered && paymentStatus == Paid
  }

  /**
   * Only a pending or processing order can be cancelled, only a delivered and
   * paid one refunded, so no order is both cancellable and refundable.
   */
  lemma CancelRefundRules(status: string, paymentStatus: string)
    ensures CanCancelOrder(status) <==> status == "pending" || status == "processing"
    ensures CanRefundOrder(status, paymentStatus) <==> status == "delivered" && paymentStatus == "paid"
    ensures !(CanCancelOrder(status) && CanRefundOrder(status, paymentStatus))
  {
  }
}
