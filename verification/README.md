# iYo-bwabaga storefront rules, modelled in Dafny

This project models the small, pure rules of the iYo-bwabaga storefront and
proves properties about them. The storefront is a Next.js shop backed by
Supabase; everything else in it is page rendering and database calls. The
modelled rules are:

- **Anonymous cart** (`useCart`, shopper not signed in). Line items are kept
  in a sequence and keyed by (product id, size) for add and by the numeric
  line `id` for update and remove. The module also models the line total and
  the line count (`cart_store.dfy`, module `CartStore`).
- **Cart page** (`cart/page.jsx`). This covers its own quantity buttons with
  the "below 1 is ignored" guard, removal, and the order summary: subtotal, a
  flat shipping fee, 15 % tax and the total (`cart_page.dfy`). `checkout.dfy`
  shows that the summary equals the order helper `calculateOrderTotals` given
  the same fee and rate.
- **Order rules** (`types/order.js`): `validateOrder` with its per-item error
  list, `calculateOrderTotals`, and the cancel and refund rules
  (`order_rules.dfy`).
- **Remote cart rows** (`db.cart` in the Supabase client). The `cart` table
  is modelled as a finite map from (user id, product id) to quantity
  (`remote_cart.dfy`).
- **Validators** (`utils/validation.js`):
  - the Luhn card check (`luhn.dfy`), following ISO/IEC 7812-1, Annex B;
  - the e-mail, password and phone patterns, `isRequired`, and
    `validateForm` with its "the last failing rule wins" order
    (`validation.dfy`).
- **Record helpers** (`users.dfy`, `products.dfy`):
  - user validation, the display name and initials;
  - address validation and the preference whitelist;
  - product validation, the discounted price and the stock status.
- **Route guard** (`middleware.js`): which paths need a session, and the
  redirect decision (`route_guard.dfy`).
- **Small UI state** (the remaining files):
  - the quantity stepper and size guard of the product page;
  - selection, deletion and search on the admin products page;
  - status update, search and status badge on the admin orders page;
  - the per-category count on the analytics page.

Conventions:

- Money is integer cents. Tax and totals are exact `real`s. The cart page's
  shipping fee of 10 is 1000 cents.
- A field that JavaScript may find `undefined` or `null` is an `Option`. A
  string or number field is "present" when it is truthy.
- A string is a sequence of Unicode characters. Where the code compares a
  `.length` or a regular expression counts characters, the length is the
  number of UTF-16 code units (`Text.Utf16Length`).
- An error object's keys are a datatype of the record's fields. Each field
  names its JavaScript key through `Key()`.
- The clock reading `Date.now()` and the `URL` constructor are parameters.

Facts of the code that the model keeps as they are:

- No code merges an anonymous cart into the remote cart at sign-in. On a
  user change the provider either fetches remote rows or reads local
  storage, so no merge is modelled.
- The cart page reads a flat `item.price`, while the anonymous cart stores
  the price as `item.product.price`. Each is modelled as its own code
  reads it.
- The order-status badge knows 'pending', 'processing', 'completed' and
  'cancelled'. 'completed' is not an order status, and 'shipped',
  'delivered' and 'refunded' fall to the gray badge with no icon.
  `AdminOrders.BadgeCoverage` states this.

## Model

| member | source | states |
|---|---|---|
| CartStore.FindLine | src/lib/hooks/useCart.js:86-88 | The index found holds the (product id, size) pair and no earlier line does. None means no line holds it. |
| CartStore.AddToCart | src/lib/hooks/useCart.js:77-94 | An already-present pair keeps the number of lines. A new pair appends exactly one line after the old cart, carrying the product snapshot, the quantity, the size and the clock reading. |
| CartStore.AddToCartSpec | src/lib/hooks/useCart.js:86-93 | The first line with the pair is raised by exactly the added amount and every other line is unchanged. With no such line the result is the old cart plus the new line. |
| CartStore.AddPreservesUniqueKeys | src/lib/hooks/useCart.js:86-94 | Adding keeps "at most one line per (product id, size)". |
| CartStore.AddTwice | src/lib/hooks/useCart.js:86-94 | Two adds of one pair equal one add of the summed quantity. |
| CartStore.AddEachIsOneAdd | src/lib/hooks/useCart.js:86-94 | Any non-empty run of adds of one pair equals one add of the sum of the amounts. |
| CartStore.DefaultAddsCountUnits | src/lib/hooks/useCart.js:42 | With the default amount 1, n adds of a new pair append exactly one line, of quantity n. |
| CartStore.AddRaisesTotal | src/lib/hooks/useCart.js:165-169 | Adding q units raises the cart total by q times the price snapshot of the line that receives them. For an existing line that is its old price, not the price passed in. |
| CartStore.AddExistingKeepsCount | src/lib/hooks/useCart.js:173 | The line count is unchanged by adding units to an existing pair, so it counts lines, not units. |
| CartStore.UpdateQuantity | src/lib/hooks/useCart.js:116-118 | The length and every field except quantity are kept. Only lines with the matching id take the new quantity, which has no lower bound. An unknown id changes nothing. Uniqueness of pairs is kept. |
| CartStore.RemoveItem | src/lib/hooks/useCart.js:139 | The result is an in-order subsequence. Every line whose id differs keeps all its copies and no line with the id survives, so it equals the input when the id is absent. |
| CartStore.RemoveIdempotent | src/lib/hooks/useCart.js:139 | Removing twice is removing once. |
| CartStore.RemovePreservesUniqueKeys | src/lib/hooks/useCart.js:139 | Removal keeps "at most one line per (product id, size)". |
| CartStore.ClearCart | src/lib/hooks/useCart.js:160 | Clearing yields the empty cart. |
| CartStore.EmptyTotal | src/lib/hooks/useCart.js:165-169 | A cleared cart totals 0. |
| CartStore.CartTotal | src/lib/hooks/useCart.js:165-169 | The snapshot price times the quantity, summed over the lines. `EmptyTotal`, `TotalAppend` and `AddRaisesTotal` state how it behaves. |
| CartStore.ItemsCount | src/lib/hooks/useCart.js:173 | The number of lines, whatever their quantities. `AddExistingKeepsCount` states the consequence. |
| CartStore.TotalAppend | src/lib/hooks/useCart.js:165-169 | The total is additive over a split of the cart. |
| CartPage.UpdateQuantity | src/app/cart/page.jsx:27-35 | A new quantity below 1 leaves the lines unchanged. Otherwise exactly the lines with that id take it, the others and the length are kept, and "every quantity at least 1" is preserved. |
| CartPage.Decrement | src/app/cart/page.jsx:112 | The length is kept and other lines are unchanged. At quantity 1 or less nothing changes; otherwise the clicked line's id takes one less. |
| CartPage.Increment | src/app/cart/page.jsx:119 | The length is kept and other lines are unchanged. From a non-negative quantity the clicked line's id takes one more. |
| CartPage.MinusAtOneIsNoop | src/app/cart/page.jsx:112 | Minus on a line of quantity 1 changes nothing. |
| CartPage.ButtonsKeepQuantitiesPositive | src/app/cart/page.jsx:111-123 | Plus and minus keep every quantity at least 1. |
| CartPage.RemoveItem | src/app/cart/page.jsx:37-40 | Removal keeps, in order, every copy of each line whose id differs and none with the id, and preserves positive quantities. |
| CartPage.OrderSummary | src/app/cart/page.jsx:42-45 | Shipping is the constant fee whatever the lines are. Tax is 15 % of the subtotal, and the total is 1.15 times the subtotal plus shipping. |
| CartPage.SubtotalAppend | src/app/cart/page.jsx:42 | A single line contributes price times quantity. The subtotal is additive, and totals add up less one shipping fee. |
| CartPage.EmptyCartCostsShipping | src/app/cart/page.jsx:42-45 | An empty cart has subtotal 0 and totals exactly the shipping fee. |
| CartPage.WorkedExample | src/app/cart/page.jsx:42-45 | Lines of 10.00 x 2 and 5.50 x 1 give a subtotal of 25.50, tax of 3.825 and a total of 39.325. |
| Checkout.SameSubtotal | src/app/cart/page.jsx:42 | The page's subtotal equals the order helper's subtotal of the same lines. |
| Checkout.SummaryAgreesWithOrderTotals | src/types/order.js:84-95 | The page's subtotal, shipping, tax and total equal `calculateOrderTotals(items, 10, 0.15)`. |
| OrderRules.ItemMessages | src/types/order.js:67-71 | Each of product id, quantity and price has a message exactly when that field is invalid, with its own text. The item has any message exactly when it fails. |
| OrderRules.CollectItemErrors | src/types/order.js:66-72 | At most one entry per item. `CollectOnlyFailing`, `CollectIndexOrdered` and `CollectAllFailing` state its content. |
| OrderRules.CollectOnlyFailing | src/types/order.js:66-72 | Every collected entry is a failing item with its own index and its own messages. |
| OrderRules.CollectIndexOrdered | src/types/order.js:66-72 | The collected entries are in strictly increasing index order. |
| OrderRules.CollectAllFailing | src/types/order.js:66-72 | Every failing item has an entry. |
| OrderRules.SomeItemErrorIffSomeFailure | src/types/order.js:72-74 | There is an item error list exactly when some item fails. |
| OrderRules.ItemsEntry | src/types/order.js:60-75 | An absent or empty item list gets its message. Otherwise the items key is set exactly when some item fails, to the ordered list of exactly the failing items. |
| OrderRules.ValidateOrder | src/types/order.js:56-81 | Valid means no error key. A missing user id, falsy address or missing payment method each sets its own key with its own message. The items key is the items entry. |
| OrderRules.ValidItemHasNoError | src/types/order.js:68-70 | An item with a product id, a quantity of at least 1 and a positive price is not reported. |
| OrderRules.ZeroPriceOrQuantityFails | src/types/order.js:69-70 | A price or quantity of 0 or less is reported. A price of 0 counts because it is falsy. |
| OrderRules.CalculateOrderTotals | src/types/order.js:84-95 | The subtotal is the sum of price times quantity, tax is the subtotal times the rate, and shipping is echoed. The total is subtotal times (1 + rate) plus shipping, and it is at least the subtotal when nothing is negative. |
| OrderRules.CalculateOrderTotalsWithDefaults | src/types/order.js:84 | With the defaults, shipping is 0, tax is 15 % of the subtotal and the total is 1.15 times the subtotal. |
| OrderRules.SubtotalAppend | src/types/order.js:85 | The subtotal of two concatenated item lists is the sum of their subtotals. |
| OrderRules.PositiveItemsPositiveSubtotal | src/types/order.js:85 | Items with positive prices and quantities give a non-negative subtotal, which is positive for a non-empty order. |
| OrderRules.CancelRefundRules | src/types/order.js:98-106 | Cancel is allowed iff the status is pending or processing. Refund is allowed iff the status is delivered and the payment is paid. No order allows both. |
| OrderRules.CanCancelOrder | src/types/order.js:98-101 | The status is one of the cancellable statuses. `CancelRefundRules` names them. |
| OrderRules.CanRefundOrder | src/types/order.js:103-106 | The order is delivered and paid. `CancelRefundRules` states it never overlaps cancelling. |
| RemoteCart.AddItem | src/lib/supabase/client.js:335-363 | An existing (user, product) row is raised by the quantity. A missing one is inserted with it. No other row changes and the key set grows by at most that key. |
| RemoteCart.AddOne | src/lib/supabase/client.js:335 | With the default quantity, the row ends at its old quantity (or 0) plus 1. |
| RemoteCart.UpdateQuantity | src/lib/supabase/client.js:365-374 | Only that row's quantity is set, with no bound. No row is created and others are unchanged. |
| RemoteCart.RemoveItem | src/lib/supabase/client.js:376-383 | Only that row is deleted, and the other rows keep their values. |
| RemoteCart.ClearCart | src/lib/supabase/client.js:385-392 | The rows that remain are exactly the other users' rows, unchanged. |
| RemoteCart.ItemsOf | src/lib/supabase/client.js:323-333 | A user's items are exactly that user's rows, by product id. |
| RemoteCart.AddItemTwice | src/lib/supabase/client.js:343-360 | Two adds of one key are one add of the summed quantity. |
| RemoteCart.RemoveItemIdempotent | src/lib/supabase/client.js:376-380 | Removing an absent row is a no-op, and removing twice is removing once. |
| RemoteCart.ClearCartEmptiesOnlyThatUser | src/lib/supabase/client.js:385-389 | After clearing, the user has no items and every other user's items are as before. |
| RemoteCart.AddItemIsPerUser | src/lib/supabase/client.js:356-358 | An add for one user leaves every other user's items unchanged. |
| Luhn.Strip | src/lib/utils/validation.js:55 | The stripped text has no whitespace or dash. It keeps every copy of every other character, in order. |
| Luhn.StripSkipsSeparator | src/lib/utils/validation.js:55 | A separator inserted anywhere does not change the stripped text. |
| Luhn.SeparatorsIgnored | src/lib/utils/validation.js:53-58 | A separator inserted anywhere does not change the verdict. |
| Luhn.OnlySeparatorsRejected | src/lib/utils/validation.js:58 | Text of separators only, or empty text, is rejected. |
| Luhn.CardAccepted | src/lib/utils/validation.js:53-79 | After stripping, one or more digits whose Luhn sum is divisible by 10. `IsValidCreditCard` computes it. |
| Luhn.Checksum | src/lib/utils/validation.js:61-76 | The right-to-left loop computes the Luhn sum: every second digit from the check digit is doubled, less 9 above 9. |
| Luhn.IsValidCreditCard | src/lib/utils/validation.js:53-79 | The function returns exactly the acceptance predicate: after stripping, one or more digits whose Luhn sum is divisible by 10. |
| Luhn.PlainDigits | src/lib/utils/validation.js:58-78 | For digit-only text the verdict is "Luhn sum divisible by 10". |
| Luhn.LuhnTermInjective | src/lib/utils/validation.js:67-72 | Doubling-and-reducing keeps distinct digits distinct, within 0..9. |
| Luhn.LuhnSumUpdate | src/lib/utils/validation.js:64-76 | Changing one digit changes the sum by exactly the change of that place's term. |
| Luhn.DetectsSingleDigitError | src/lib/utils/validation.js:61-78 | Any single mistyped digit in an accepted number makes it rejected. |
| Luhn.KnownNumber | src/lib/utils/validation.js:61-78 | 79927398713 has a Luhn sum divisible by 10, and 79927398710 does not. |
| Validation.EmailMatcherIsPattern | src/lib/utils/validation.js:3 | The decision procedure accepts exactly the texts the e-mail regular expression matches. An accepted text has exactly one '@'. |
| Validation.EmailIgnoresCase | src/lib/utils/validation.js:3 | Lower- or upper-casing the text does not change the verdict (the `i` flag). |
| Validation.IsValidEmail | src/lib/utils/validation.js:2-5 | A decision procedure for the e-mail pattern. `EmailMatcherIsPattern` shows it agrees with the regular expression. |
| Validation.PasswordMeaning | src/lib/utils/validation.js:9 | A password is accepted iff it has at least 8 UTF-16 code units, no line terminator, and a lowercase letter, an uppercase letter and a digit. |
| Validation.PasswordCountsCodeUnits | src/lib/utils/validation.js:9 | Six characters, three of them outside the Basic Multilingual Plane, are nine UTF-16 code units and are accepted. |
| Validation.IsValidPassword | src/lib/utils/validation.js:8-11 | The three lookaheads and `.{8,}$` of the pattern. `PasswordMeaning` states it plainly. |
| Validation.PhoneMeaning | src/lib/utils/validation.js:15 | A phone is accepted iff what follows an optional leading '+' is 10 or more digits, whitespace characters or dashes. |
| Validation.PhoneCountsSeparators | src/lib/utils/validation.js:15 | Ten dashes are accepted, and a letter inside the number is rejected. |
| Validation.IsValidPhone | src/lib/utils/validation.js:14-17 | The phone pattern. `PhoneMeaning` states it plainly. |
| Validation.IsRequiredVersusTruthy | src/lib/utils/validation.js:30-34 | `isRequired` is truthiness, except that 0 and false count as given and an empty array or object does not. |
| Validation.IsRequired | src/lib/utils/validation.js:30-34 | A given value: not undefined, null or '', and not an empty array or object. `IsRequiredVersusTruthy` relates it to truthiness. |
| Validation.LastFailureMeaning | src/lib/utils/validation.js:92-112 | No error iff every check passes. Otherwise the error is that of the failing check with no failing check after it. |
| Validation.ChainIsLastFailure | src/lib/utils/validation.js:92-112 | The seven overwriting `if` statements leave the error of the last failing check. |
| Validation.LaterRuleOverwrites | src/lib/utils/validation.js:89-113 | For a present value the field's error is that of the last failing rule, in source order. |
| Validation.FieldErrorCases | src/lib/utils/validation.js:86-113 | A required field that is missing or empty gets "required" and no other check. A falsy optional field gets nothing. A given value gets the last failing rule. |
| Validation.ValidateForm | src/lib/utils/validation.js:82-117 | Only fields named in the rules are reported. A missing required field reads 'This field is required', and a missing optional field is absent. A given value is reported iff a rule fails, with the message of the last failing rule; lengths are UTF-16 code units. |
| Validation.ReportOf | src/types/user.js:52-55 | `isValid` holds iff the error object has no key. |
| Users.ValidateUser | src/types/user.js:31-56 | The e-mail key is set iff the e-mail is missing ('Email is required') or malformed ('Invalid email address'). The name key is set iff the name is missing ('Full name is required'). The phone key is set only for a given bad phone ('Invalid phone number'), and the password key only for a given password of fewer than 8 UTF-16 code units ('Password must be at least 8 characters'). |
| Text.Utf16Length | src/types/user.js:48 | `.length` counts UTF-16 code units: between the number of characters and twice it, and equal to it when no character lies outside the Basic Multilingual Plane. |
| Users.ValidUserIff | src/types/user.js:31-56 | A user is valid iff the e-mail is well formed, a name is given, and any phone and password given are acceptable. |
| Users.DisplayName | src/types/user.js:59-62 | No user gives 'Guest', and a non-empty name gives the name. Otherwise the result is a prefix of the e-mail without '@', or a TypeError exactly when the e-mail is missing. |
| Users.DisplayNameIsSplitPiece | src/types/user.js:61 | Without a name the display name is exactly `email.split('@')[0]`. |
| Users.AvatarFallback | src/types/user.js:64-72 | The initials have at most 2 characters, and are 'G' without a user or name. |
| Users.AvatarIsWordStarts | src/types/user.js:65-71 | For every user with a name, the initials are the first two word starts of the name, uppercased. |
| Users.SplitWordStarts | src/types/user.js:67-69 | The first characters of the space-separated parts are exactly the word starts, so empty parts add nothing. |
| Users.AvatarExample | src/types/user.js:67-69 | " a  b " has word starts "ab": leading, doubled and trailing spaces add no initials. |
| Users.ValidateAddress | src/types/user.js:75-87 | Each of street, city, country and postal code is flagged iff missing, with its own message. Valid iff all four are given. |
| Users.Pick | src/types/user.js:106-114 | The chosen value is an allowed string: the given value if allowed, else the fallback. |
| Users.ValidatePreferences | src/types/user.js:98-116 | The keys are the defaults' plus the input's. Language, currency and theme are always allowed values. |
| Users.PreferencesWhitelist | src/types/user.js:106-114 | An allowed language, currency or theme is kept, and anything else becomes 'en', 'USD' or 'light'. |
| Users.PreferencesKeepOthers | src/types/user.js:103-105 | Other given keys keep their value, and default keys absent from the input take the default. |
| Users.PreferencesIdempotent | src/types/user.js:98-116 | Validating validated preferences changes nothing. |
| Users.EmptyPreferencesAreDefaults | src/types/user.js:90-105 | The empty object yields exactly the defaults. |
| Products.ValidateProduct | src/types/product.js:56-71 | Each field is flagged iff it fails, with its own message. Price must be a positive number, and stock must be a number, 0 included. Valid iff there is no error. |
| Products.ValidProductIff | src/types/product.js:56-71 | A product is valid iff name, category and description are given, images and sizes are non-empty, the price is positive and the stock is a number. |
| Products.DiscountedPrice | src/types/product.js:74-76 | 0 % gives the price and 100 % gives 0. The saving is price × percent / 100, and the result lies between 0 and the price for 0–100 %. |
| Products.DiscountMonotoneAndLinear | src/types/product.js:74-76 | A bigger discount never gives a higher price, and discounting is additive over prices. |
| Products.GetStockStatus | src/types/product.js:79-83 | Out of stock iff stock ≤ 0, low iff 1–4, in stock iff ≥ 5. |
| Products.StockStatusMonotone | src/types/product.js:79-83 | More stock never gives a worse status. |
| RouteGuard.Route | src/middleware.js:25-45 | The login redirect, carrying the pathname, happens iff the path is protected and there is no session. The dashboard redirect happens iff it is an auth path with a session, and everything else passes. |
| RouteGuard.PrefixListsDisjoint | src/middleware.js:10-23 | No path starts with both a protected and an auth prefix. |
| RouteGuard.AtMostOneRedirect | src/middleware.js:33-43 | A login redirect is never for an auth path, and a dashboard redirect never for a protected one. |
| RouteGuard.NoRedirectCases | src/middleware.js:34-43 | A protected path with a session, or an auth path without one, passes through. |
| RouteGuard.PrefixMatchIsLoose | src/middleware.js:25-27 | '/administrator' and '/orders-archive' are protected and '/products' is not. |
| ProductDetail.FromInitialQuantityPositive | src/components/products/ProductDetail.jsx:7-8 | From the initial state, no click sequence brings the quantity below 1. |
| ProductDetail.Step | src/components/products/ProductDetail.jsx:90-118 | One click: minus never goes below 1, plus adds 1, and picking a size sets it and leaves the quantity. |
| ProductDetail.QuantityStaysPositive | src/components/products/ProductDetail.jsx:109-118 | From any quantity of at least 1, every click sequence keeps it at least 1. |
| ProductDetail.MinusThenPlus | src/components/products/ProductDetail.jsx:109-118 | Above 1, minus then plus restores the state. |
| ProductDetail.AddToCart | src/components/products/ProductDetail.jsx:10-16 | There is no call iff no non-empty size is selected. Otherwise the call is (product, quantity, size). |
| ProductDetail.SizeIsLastPick | src/components/products/ProductDetail.jsx:90 | After any clicks, the selected size is the last one picked, or the earlier one if none was picked. |
| ProductDetail.CallOnlyAfterPick | src/components/products/ProductDetail.jsx:10-16 | From the initial state, the cart is called iff the last size picked is non-empty, with the current quantity and that size. |
| AdminProducts.Delete | src/app/admin/products/page.jsx:65 | Deletion keeps, in order, every copy of each product whose id differs and none with the id. |
| AdminProducts.DeleteAbsentIsNoop | src/app/admin/products/page.jsx:65 | Deleting an id no product has changes nothing. |
| AdminProducts.BulkDelete | src/app/admin/products/page.jsx:81-82 | Bulk deletion keeps, in order, every copy of each unselected product and none of the selected, and empties the selection. |
| AdminProducts.BulkDeletePartners | src/app/admin/products/page.jsx:81-82 | An empty selection deletes nothing, and a selection of one id is a single delete. |
| AdminProducts.Toggle | src/app/admin/products/page.jsx:89-95 | The id's membership flips, every other id's is kept, and "no duplicate ids" is preserved. |
| AdminProducts.ToggleTwice | src/app/admin/products/page.jsx:89-95 | Toggling twice restores the selection as a set. |
| AdminProducts.SelectAll | src/app/admin/products/page.jsx:163-169 | Checking selects every product's id in list order, and unchecking selects none. |
| AdminProducts.Filtered | src/app/admin/products/page.jsx:97-100 | The filter throws iff some product has no name, or has no category and a name without the term. Otherwise the result keeps, in order, every copy of each product whose name or category contains the term ignoring case, and nothing else. |
| AdminProducts.EmptySearchKeepsAll | src/app/admin/products/page.jsx:97-100 | An empty term keeps every product when every product has a name, and throws otherwise. |
| AdminOrders.UpdateStatus | src/app/admin/orders/page.jsx:93-95 | The length is kept, and only orders with the matching id change, taking the new status. |
| AdminOrders.UpdateStatusTouchesOnlyStatus | src/app/admin/orders/page.jsx:93-95 | Every field but the status is unchanged, and repeating the update changes nothing. |
| AdminOrders.Filtered | src/app/admin/orders/page.jsx:131-138 | The filter throws iff some order's id lacks the term and its profile or name is missing, or its name lacks the term and its e-mail is missing. Otherwise the result keeps, in order, every copy of each order whose id, customer name or e-mail contains the term ignoring case, and nothing else. |
| AdminOrders.TestMeaning | src/app/admin/orders/page.jsx:131-138 | The search callback returns exactly on the searchable orders, and then returns whether the order matches. |
| AdminOrders.EmptySearchKeepsAll | src/app/admin/orders/page.jsx:131-138 | An empty term keeps every order and never throws, since every id contains it. |
| AdminOrders.StatusColor | src/app/admin/orders/page.jsx:116-129 | Each of the four badge statuses gets its colour, and gray is given iff the status is not one of them. |
| AdminOrders.StatusIcon | src/app/admin/orders/page.jsx:101-114 | Each of the four badge statuses gets its icon, and there is none iff the status is not one of them. |
| AdminOrders.BadgeCoverage | src/app/admin/orders/page.jsx:101-129 | There is an icon iff the colour is not gray. Shipped, delivered and refunded orders get the gray badge, and 'completed' is no order status. |
| AdminOrders.StatusLabel | src/app/admin/orders/page.jsx:254 | The label has the status's length, its first character uppercased and the rest unchanged. It equals the status ignoring case. |
| AdminOrders.LabelExample | src/app/admin/orders/page.jsx:254 | 'pending' is labelled 'Pending'. |
| Analytics.Bump | src/app/admin/analytics/page.jsx:116 | A new category is appended with count 1. Otherwise its entry goes up by 1 in place, every other entry and the length are kept, and distinct names stay distinct. |
| Analytics.ProcessCategoryData | src/app/admin/analytics/page.jsx:114-124 | Entry names are distinct, there are no more entries than products, and every count is at least 1. |
| Analytics.EmptyInputEmptyOutput | src/app/admin/analytics/page.jsx:114-124 | No products give no entries. |
| Analytics.OneEntryPerCategory | src/app/admin/analytics/page.jsx:115-121 | Entry names are distinct, and a category has an entry iff some product has it. |
| Analytics.ValueIsCount | src/app/admin/analytics/page.jsx:116 | Each entry's value is the number of products in its category, so at least 1. |
| Analytics.ValuesSumToLength | src/app/admin/analytics/page.jsx:115-118 | The values add up to the number of products. |

## Left out

- Signed-in cart branches of `useCart`, the user-change effect, and every Supabase call other than `db.cart`: remote I/O followed by a refetch, through a library that is not part of this model.
- Local storage and its JSON (de)serialisation: browser I/O. `JSON.parse` has no fallback there.
- Concurrency, including the check-then-insert race of `db.cart.addItem`: rows are updated one call at a time. Duplicate (user, product) rows cannot be represented, because the table is a map.
- Floating-point arithmetic and display rounding (`toFixed`, `Intl.NumberFormat`, `formatOrderHistory`): money is exact.
- Dates and the clock: `Date.now()` for a new line id is a parameter, and date-based analytics are out.
- `isValidUrl` (the `URL` constructor) is a parameter of `ValidateForm`. `isInRange`, `isValidFileSize` and `isValidFileType` depend on `Number()` coercion and the browser `File` object and are not modelled.
- Unicode case mapping: `toLowerCase` and `toUpperCase` map ASCII letters only. `\s` is modelled with ECMAScript's full WhiteSpace and LineTerminator set.
- Users.AvatarFallback: a word's initial is a whole character. For a word starting outside the Basic Multilingual Plane, JavaScript's `n[0]` is a lone surrogate code unit, which a sequence of Unicode characters cannot hold.
- AdminOrders.StatusLabel: `charAt(0)` is taken as the first character, for the same reason. Order statuses are ASCII words.
- CartStore.AddEachIsOneAdd: the adds are applied one after another, each seeing the previous result. `addToCart` reads `cartItems` as of the last render and raises an existing line by mutating it in place, so two calls within one render keep both adds for an existing pair but lose the first add of a new pair. That interleaving is not modelled, and the same holds for `CartStore.AddTwice`.
- RemoteCart.AddItem: every `db.cart` call is modelled as succeeding. A failed insert or update returns `{ data, error }` and leaves the table unchanged, and `addItem` ignores the error of its lookup. Error results are not modelled.
- Analytics.ValueIsCount: category names are plain keys. A category named after an `Object.prototype` member, such as "constructor" or "__proto__", makes `acc[category] || 0` read an inherited value, so its count becomes a string or the entry is lost. This also limits `Analytics.OneEntryPerCategory`.
- Validation.ValidateForm: form values are strings, so `isRequired` on an array or object value is stated separately by `Validation.IsRequiredVersusTruthy`. A falsy rule number (0) or empty `matches` name counts as an absent rule.
- Users.ValidatePreferences: the argument is an object. A `null` or non-object argument is not modelled.
- Products.ValidateProduct: a number field that JavaScript could hold as `NaN` or a non-number is `None` or an integer.
- Analytics.OneEntryPerCategory: entries are listed in first-occurrence order. `Object.entries` would list integer-like category names first, so order is not claimed to match the page.
- RouteGuard.Route: the Next.js `config.matcher`, which decides whether the middleware runs at all, is not modelled.
- Luhn.KnownNumber: stated at the checksum level. That the first number is accepted and the second rejected follows with `Luhn.PlainDigits`.
- JavaScript type coercions in comparisons (`==`, string/number mixes): every field has one type.
