/**
 * The purchase controls of the product page
 * (src/components/products/ProductDetail.jsx): a quantity stepper, a size
 * picker and the add-to-cart button.
 */
module ProductDetail {
  import opened Options
  import opened Js

  /** The component state that the controls touch. */
  datatype Detail = Detail(quantity: int, selectedSize: Option<string>)

  /** `useState(1)` and `useState(null)`. */
  const Initial: Detail := Detail(1, None)

  datatype Click = Minus | Plus | PickSize(size: string)

  /** One click on the controls. */
  function Step(d: Detail, c: Click): (r: Detail)
    ensures c == Minus ==> r.quantity == (if d.quantity - 1 > 1 then d.quantity - 1 else 1)
    ensures c == Plus ==> r.quantity == d.quantity + 1
    ensures c.PickSize? ==> r.quantity == d.quantity && r.selectedSize == Some(c.size)
    ensures !c.PickSize? ==> r.selectedSize == d.selectedSize
  {
    match c
    case Minus => d.(quantity := if 1 > d.quantity - 1 then 1 else d.quantity - 1)
    case Plus => d.(quantity := d.quantity + 1)
    case PickSize(size) => d.(selectedSize := Some(size))
  }

  /** A sequence of clicks, in order. */
  function Run(d: Detail, clicks: seq<Click>): Detail
    decreases |clicks|
  {
    if |clicks| == 0 then d else Run(Step(d, clicks[0]), clicks[1..])
  }

  /** Minus never takes the quantity below 1, and from the initial state no click sequence does. */
  lemma {:induction false} QuantityStaysPositive(d: Detail, clicks: seq<Click>)
    requires d.quantity >= 1
    ensures Run(d, clicks).quantity >= 1
    decreases |clicks|
  {
    if |clicks| > 0 {
      QuantityStaysPositive(Step(d, clicks[0]), clicks[1..]);
    }
  }

  lemma FromInitialQuantityPositive(clicks: seq<Click>)
    ensures Run(Initial, clicks).quantity >= 1
  {
    QuantityStaysPositive(Initial, clicks);
  }

  /** Minus and Plus do not touch the size; Plus after Minus from above 1 is back where it was. */
  lemma MinusThenPlus(d: Detail)
    requires d.quantity > 1
    ensures Run(d, [Minus, Plus]) == d
  {
    assert [Minus, Plus][1..] == [Plus];
    assert [Plus][1..] == [];
  }

  /** `onAddToCart(product, quantity, selectedSize)`. */
  datatype CartCall<P> = CartCall(product: P, quantity: int, size: string)

  /** `handleAddToCart`: with no (or an empty) size, an alert and no call. */
  function AddToCart<P>(d: Detail, product: P): (call: Option<CartCall<P>>)
    ensures call.None? <==> !Present(d.selectedSize)
    ensures call.Some? ==> call.value == CartCall(product, d.quantity, d.selectedSize.value)
  {
    if !Present(d.selectedSize) then None else Some(CartCall(product, d.quantity, d.selectedSize.value))
  }

  /** The position of the last `PickSize` click, if any. */
  function LastPickIndex(clicks: seq<Click>): (r: Option<nat>)
    ensures r.None? <==> forall i :: 0 <= i < |clicks| ==> !clicks[i].PickSize?
    ensures r.Some? ==> r.value < |clicks| && clicks[r.value].PickSize?
                        && forall j :: r.value < j < |clicks| ==> !clicks[j].PickSize?
  {
    if |clicks| == 0 then None
    else if clicks[|clicks| - 1].PickSize? then Some(|clicks| - 1)
    else LastPickIndex(clicks[..|clicks| - 1])
  }

  /** The size of the last `PickSize` click, if any. */
  function LastPick(clicks: seq<Click>): Option<string>
  {
    match LastPickIndex(clicks)
    case None => None
    case Some(i) => Some(clicks[i].size)
  }

  lemma {:induction false} RunAppend(d: Detail, clicks: seq<Click>, c: Click)
    ensures Run(d, clicks + [c]) == Step(Run(d, clicks), c)
    decreases |clicks|
  {
    if |clicks| == 0 {
      assert [c][1..] == [];
    } else {
      assert (clicks + [c])[1..] == clicks[1..] + [c];
      RunAppend(Step(d, clicks[0]), clicks[1..], c);
    }
  }

  /** After any clicks, the selected size is the last one picked, or the one before if none was. */
  lemma {:induction false} SizeIsLastPick(d: Detail, clicks: seq<Click>)
    ensures Run(d, clicks).selectedSize == if LastPick(clicks).Some? then LastPick(clicks) else d.selectedSize
    decreases |clicks|
  {
    if |clicks| > 0 {
      var front := clicks[..|clicks| - 1];
      var last := clicks[|clicks| - 1];
      assert clicks == front + [last];
      RunAppend(d, front, last);
      SizeIsLastPick(d, front);
      if !last.PickSize? {
        assert LastPickIndex(clicks) == LastPickIndex(front);
        match LastPickIndex(front)
        case None =>
        case Some(i) => assert clicks[i] == front[i];
      }
    }
  }

  /** From the initial state the cart is called exactly when the last size picked is non-empty, with the current quantity. */
  lemma CallOnlyAfterPick<P>(clicks: seq<Click>, product: P)
    ensures var r := Run(Initial, clicks);
            AddToCart(r, product).Some? <==> Present(LastPick(clicks))
    ensures var r := Run(Initial, clicks);
            Present(LastPick(clicks)) ==> AddToCart(r, product) == Some(CartCall(product, r.quantity, LastPick(clicks).value))
  {
    SizeIsLastPick(Initial, clicks);
  }
}
