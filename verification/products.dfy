/**
 * The product-record helpers (src/types/product.js): `validateProduct`,
 * `calculateDiscountedPrice` and `getStockStatus`. Prices are integer cents.
 */
module Products {
  import opened Options
  import opened Js
  import opened Validation

  /**
   * The fields `validateProduct` reads. `stock` is `None` when it is not of
   * type number (missing, `null`, a string).
   */
  datatype Product = Product(
    name: Option<string>,
    price: Option<int>,
    category: Option<string>,
    description: Option<string>,
    images: Option<seq<string>>,
    sizes: Option<seq<string>>,
    stock: Option<int>)

  /** The keys of the product's error object. */
  datatype ProductField = Name | Price | Category | Description | Images | Sizes | Stock {
    function Key(): string
    {
      match this
      case Name => "name"
      case Price => "price"
      case Category => "category"
      case Description => "description"
      case Images => "images"
      case Sizes => "sizes"
      case Stock => "stock"
    }
  }

  /** Whether `validateProduct` flags the field. */
  predicate Fails(p: Product, f: ProductField)
  {
    match f
    case Name => !Present(p.name)
    case Price => !PresentNum(p.price) || p.price.value <= 0
    case Category => !Present(p.category)
    case Description => !Present(p.description)
    case Images => !NonEmpty(p.images)
    case Sizes => !NonEmpty(p.sizes)
    case Stock => p.stock.None?
  }

  function ErrorMessage(f: ProductField): string
  {
    match f
    case Name => "Name is required"
    case Price => "Valid price is required"
    case Category => "Category is required"
    case Description => "Description is required"
    case Images => "At least one image is required"
    case Sizes => "At least one size is required"
    case Stock => "Stock quantity is required"
  }

  const AllFields: set<ProductField> := {Name, Price, Category, Description, Images, Sizes, Stock}

  /** `validateProduct(product)`: one error per failing field. */
  function ValidateProduct(p: Product): (r: Report<ProductField>)
    ensures Name in r.errors <==> !Present(p.name)
    ensures Price in r.errors <==> p.price.None? || p.price.value <= 0
    ensures Category in r.errors <==> !Present(p.category)
    ensures Description in r.errors <==> !Present(p.description)
    ensures Images in r.errors <==> !NonEmpty(p.images)
    ensures Sizes in r.errors <==> !NonEmpty(p.sizes)
    ensures Stock in r.errors <==> p.stock.None?
    ensures forall f :: f in r.errors ==> r.errors[f] == ErrorMessage(f)
    ensures r.isValid <==> forall k :: k !in r.errors
  {
    ReportOf(map f | f in AllFields && Fails(p, f) :: ErrorMessage(f))
  }

  /** A product is valid iff every required field is there, the price is positive and the stock is a number, zero included. */
  lemma ValidProductIff(p: Product)
    ensures ValidateProduct(p).isValid <==>
              Present(p.name) && p.price.Some? && p.price.value > 0 && Present(p.category)
              && Present(p.description) && NonEmpty(p.images) && NonEmpty(p.sizes) && p.stock.Some?
  {
    var r := ValidateProduct(p);
    if !r.isValid {
      var k :| k in r.errors;
    }
  }

  /** `calculateDiscountedPrice(price, discountPercentage)`, in exact arithmetic. */
  function DiscountedPrice(price: real, percent: real): (r: real)
    ensures percent == 0.0 ==> r == price
    ensures percent == 100.0 ==> r == 0.0
    ensures price >= 0.0 && 0.0 <= percent <= 100.0 ==> 0.0 <= r <= price
    ensures price - r == price * percent / 100.0
  {
    price * (1.0 - percent / 100.0)
  }

  /** A bigger discount never gives a higher price, and discounting is additive over prices. */
  lemma DiscountMonotoneAndLinear(price: real, a: real, b: real, other: real)
    requires price >= 0.0 && a <= b
    ensures DiscountedPrice(price, b) <= DiscountedPrice(price, a)
    ensures DiscountedPrice(price + other, a) == DiscountedPrice(price, a) + DiscountedPrice(other, a)
  {
    assert price * (b - a) / 100.0 >= 0.0;
  }

  datatype StockStatus = OutOfStock | LowStock | InStock {
    function Label(): string
    {
      match this
      case OutOfStock => "Out of Stock"
      case LowStock => "Low Stock"
      case InStock => "In Stock"
    }

    /** Position on the scale from out of stock to in stock. */
    function Rank(): nat
    {
      match this
      case OutOfStock => 0
      case LowStock => 1
      case InStock => 2
    }
  }

  /** The stock below which a product counts as low. */
  const LowStockBelow: int := 5

  /** `getStockStatus(stock)`. */
  function GetStockStatus(stock: int): (r: StockStatus)
    ensures r == OutOfStock <==> stock <= 0
    ensures r == LowStock <==> 1 <= stock < LowStockBelow
    ensures r == InStock <==> stock >= LowStockBelow
  {
    if stock <= 0 then OutOfStock
    else if stock < LowStockBelow then LowStock
    else InStock
  }

  /** More stock never gives a worse status. */
  lemma StockStatusMonotone(a: int, b: int)
    requires a <= b
    ensures GetStockStatus(a).Rank() <= GetStockStatus(b).Rank()
  {
  }
}
