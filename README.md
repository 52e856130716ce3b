# Tiffin-wala client: cart and order arithmetic

A Dafny model of the logic inside the tiffin-wala food-ordering web client. The rest of the client is views and fetch hooks. The model covers:

- **The restaurant detail page's cart.** Adding a menu item raises the quantity of its line or appends a line with quantity 1. Removing a line drops every line with its id. Each change also writes the cart to session storage under `cartItems-<restaurantId>`. The checkout request built from the cart carries the cart's cost plus the delivery price.
- **The order totals of four views.** The order summary beside the menu, the order-history list, the order-status panel and the order-management card each compute them slightly differently.
- **The order-history list's status filter and its four sort options.**
- **The order API's clean-up of fetched orders and invoices.** The model also covers the error handling of the checkout-session and status-update requests, and the retry schedule of the checkout mutation.

All amounts are whole paise. JavaScript values are modelled explicitly in module `EcmaScript`:

- numbers are integers or NaN;
- truthiness and `||`;
- the property reads and object spreads applied to fetched JSON;
- thrown exceptions;
- `parseInt` (ECMA-262, section 19.2.5), `parseFloat` on decimal integers (section 19.2.4), ToNumber on strings (section 7.1.4.1.1) and `toString` on integers.

The modules follow the source files:

| module | file |
|---|---|
| `Types`, `Amounts` | the order, restaurant and menu types the views share, and sums of amounts |
| `DetailPage` | `src/pages/DetailPage.tsx`: cart functions, checkout request, class `CartSession` for the cart state and its session storage |
| `OrderSummary` | `src/components/OrderSummary.tsx` |
| `OrderHistoryList` | `src/components/OrderHistoryList.tsx` |
| `OrderStatusDetail` | `src/components/OrderStatusDetail.tsx` |
| `OrderItemCard` | `src/components/OrderItemCard.tsx` |
| `OrderApi` | `src/api/OrderApi.ts` |
| `Consistency` | how the totals of the views agree for one order |

The `reduce` calls fold from the left. The model folds from the right (head first). For integer addition, and for addition of numbers that may be NaN, both give the same sum. The cart's cost `DetailPage.TotalCost` multiplies `quantity * price`, as the detail page's `getTotalCost` does (src/pages/DetailPage.tsx:122). The order summary's `getTotalCost` (src/components/OrderSummary.tsx:30) and the checkout total (src/pages/DetailPage.tsx:95) write `price * quantity`; the model computes both from `TotalCost`, which gives the same integer. `OrderSummary.RowTotals` keeps the summary's `price * quantity` and is proved to add up to `TotalCost`. The order-history list and the status panel multiply quantity by price, and the order card multiplies price by quantity, as their sources do.

The page's Checkout button calls `onCheckout({} as UserFormData)` (src/pages/DetailPage.tsx:184). Every delivery field of the request is therefore undefined; `DetailPage.CheckoutButton` states this.

## Model

| member | source | states |
|---|---|---|
| Amounts.SumNumbersValue | src/components/OrderStatusDetail.tsx:10-15 | a sum of numbers is a number exactly when every term is; it is then the sum of the values |
| Amounts.SumOverMap | src/components/OrderStatusDetail.tsx:10-15 | the `reduce` equals the sum of the mapped amounts |
| Amounts.SumOverConcat | src/components/OrderItemCard.tsx:28-31 | the `reduce` is additive over concatenation |
| Types.FindMenuItem | src/components/OrderHistoryList.tsx:43-45 | `find` by id: no result exactly when no menu item has the id; otherwise the first item with that id |
| DetailPage.FindLine | src/pages/DetailPage.tsx:41-43 | no line found exactly when no cart line has the id; a found line is in the cart and has the id |
| DetailPage.AddItem | src/pages/DetailPage.tsx:39-63 | the cart keeps its length when the item has a line and grows by one otherwise; every existing line keeps its id and price; afterwards the item has a line |
| DetailPage.AddExisting | src/pages/DetailPage.tsx:47-52 | with unique ids, adding an item that has a line raises only that line's quantity by one; length, order and every other line are kept |
| DetailPage.AddNew | src/pages/DetailPage.tsx:53-63 | adding an item with no line appends `{_id, name, price, quantity: 1}` after the unchanged lines |
| DetailPage.AddPreservesUniqueIds | src/pages/DetailPage.tsx:41-63 | adding keeps the cart's ids unique |
| DetailPage.RemoveLines | src/pages/DetailPage.tsx:76-78 | the filtered cart is no longer than the cart and no line has the removed id |
| DetailPage.RemoveLinesContents | src/pages/DetailPage.tsx:76-78 | a line is kept exactly when it was in the cart and has a different id |
| DetailPage.RemoveLinesConcat | src/pages/DetailPage.tsx:76-78 | removal distributes over concatenation, so the kept lines stay in order |
| DetailPage.RemoveAbsent | src/pages/DetailPage.tsx:76-78 | removing an id no line has leaves the cart unchanged |
| DetailPage.RemovePreservesUniqueIds | src/pages/DetailPage.tsx:76-78 | removing keeps the cart's ids unique |
| DetailPage.RemoveIdempotent | src/pages/DetailPage.tsx:76-78 | removing the same id twice is removing it once |
| DetailPage.RemoveOnlyLine | src/pages/DetailPage.tsx:76-78 | when only line k has its id, removing that id is the cart with line k cut out |
| DetailPage.RemoveUniqueLine | src/pages/DetailPage.tsx:76-78 | with unique ids, removing a line's id takes out exactly that line, keeping order |
| DetailPage.TotalCost | src/pages/DetailPage.tsx:121-124 | definition of the cart's cost (sum of quantity times price); see TotalCostConcat and TotalCostNonNegative |
| DetailPage.TotalCostNonNegative | src/pages/DetailPage.tsx:121-124 | with non-negative quantities and prices the cost is not negative |
| DetailPage.TotalCostConcat | src/pages/DetailPage.tsx:121-124 | the cart's cost is additive over concatenation |
| DetailPage.TotalCostUpdate | src/pages/DetailPage.tsx:121-124 | replacing one line changes the cost by the difference of the two lines' quantity times price |
| DetailPage.TotalCostIncrement | src/pages/DetailPage.tsx:121-124 | one more unit of a line raises the cost by that line's price |
| DetailPage.TotalCostAfterAddExisting | src/pages/DetailPage.tsx:121-124 | with unique ids, adding an item already in the cart raises the cost by the stored line's price |
| DetailPage.TotalCostAfterAdd | src/pages/DetailPage.tsx:121-124 | with unique ids, an add raises the cost by the stored line's price, or by the item's price for a new line |
| DetailPage.TotalCostWithout | src/pages/DetailPage.tsx:121-124 | cutting line k out lowers the cost by that line's quantity times price |
| DetailPage.TotalCostAfterRemove | src/pages/DetailPage.tsx:121-124 | with unique ids, removing a line lowers the cost by its price times quantity |
| DetailPage.CheckoutLineOf | src/pages/DetailPage.tsx:100-105 | a request line keeps the cart line's id, name and price, and its quantity string reads back as the quantity under both `parseInt` and `parseFloat` |
| DetailPage.Checkout | src/pages/DetailPage.tsx:89-115 | no request exactly when the restaurant is absent; the request names the restaurant and copies the form's five delivery fields, defined or not |
| DetailPage.CheckoutButton | src/pages/DetailPage.tsx:183-186 | the button sends a request exactly for a non-empty cart of a loaded restaurant, and every delivery field of that request is undefined |
| DetailPage.CheckoutPayload | src/pages/DetailPage.tsx:94-115 | the request's total is the cost plus the delivery price; it has one line per cart line, in order, with the line's id, name and price, and a quantity string that `parseInt` reads back as the quantity |
| DetailPage.StorageKeyInjective | src/pages/DetailPage.tsx:65-68 | two restaurants with different ids use different storage keys |
| DetailPage.StorageWrite | src/pages/DetailPage.tsx:65-68 | writing one restaurant's cart leaves the other restaurants' stored carts unchanged, and keeps every stored cart's ids unique when the written cart's are |
| DetailPage.CartSession.constructor | src/pages/DetailPage.tsx:34-37 | the cart starts as the one stored for the restaurant, or empty; it has unique ids when the stored carts do |
| DetailPage.CartSession.AddToCart | src/pages/DetailPage.tsx:39-72 | the new cart is the added-to cart; it is stored under this restaurant's key; the carts stored for other restaurants are unchanged; unique ids are kept in the cart and in storage; with unique ids the cost rises by the stored line's price, or by the item's price for a new line |
| DetailPage.CartSession.RemoveFromCart | src/pages/DetailPage.tsx:74-87 | the new cart is the filtered cart; it is stored under this restaurant's key; the carts stored for other restaurants are unchanged; unique ids are kept in the cart and in storage; with unique ids the cost falls by the removed line's quantity times price; removing an absent id changes nothing |
| OrderSummary.SubtotalIsLineSum | src/components/OrderSummary.tsx:121 | the displayed subtotal is the line sum alone; the total is the subtotal plus the delivery fee |
| OrderSummary.RowTotals | src/components/OrderSummary.tsx:90 | one row per cart line, each `price * quantity`, and the rows add up to the cart's cost |
| OrderSummary.GetTotalCost | src/components/OrderSummary.tsx:28-34 | the total is the sum of the rows plus the delivery price |
| OrderSummary.Subtotal | src/components/OrderSummary.tsx:121 | the rows add up to the displayed subtotal |
| OrderSummary.ItemCountBadge | src/components/OrderSummary.tsx:42-46 | definition of the badge; see BadgeCountsLines and EmptyCart |
| OrderSummary.EmptyCart | src/components/OrderSummary.tsx:104 | an empty cart shows the empty message and no badge; its subtotal is 0 and its total is the delivery fee |
| OrderSummary.BadgeCountsLines | src/components/OrderSummary.tsx:42-46 | a non-empty cart's badge shows the number of lines; changing a quantity leaves the badge unchanged |
| OrderSummary.TotalCostPermutation | src/components/OrderSummary.tsx:29-32 | two carts with the same lines, in any order, cost the same |
| OrderSummary.TotalIndependentOfOrder | src/components/OrderSummary.tsx:28-34 | the total does not depend on the order of the lines |
| EcmaScript.Or | src/api/OrderApi.ts:24 | `a \|\| b` is truthy exactly when `a` or `b` is |
| EcmaScript.TrimStart | src/components/OrderHistoryList.tsx:46 | only leading white space is dropped, and the rest does not start with white space |
| EcmaScript.TrimEnd | src/api/OrderApi.ts:170 | only trailing white space is dropped, and the rest does not end with white space |
| EcmaScript.DigitValue | src/components/OrderHistoryList.tsx:46 | a character's digit value is below 10 exactly for the decimal digits |
| EcmaScript.LeadingDigits | src/components/OrderHistoryList.tsx:46 | the length of the longest prefix of digits in the radix |
| EcmaScript.SignedDigitPrefix | src/components/OrderHistoryList.tsx:46 | the parse is NaN exactly when no digit comes first |
| EcmaScript.NatToString | src/pages/DetailPage.tsx:103 | `toString` gives decimal digits only, at least one, with a leading zero only for 0 |
| EcmaScript.DigitsValueOfNatToString | src/pages/DetailPage.tsx:103 | the digits of `n.toString()` have the value n |
| EcmaScript.ParseIntToString | src/pages/DetailPage.tsx:103 | the decimal string of an integer, followed by a non-digit, is read back as that integer by `parseInt` and by `parseFloat` |
| EcmaScript.ParseIntOfIntToString | src/pages/DetailPage.tsx:103 | `parseInt(n.toString())` and `parseFloat(n.toString())` are n |
| EcmaScript.StringToNumberOfIntToString | src/components/OrderItemCard.tsx:29 | ToNumber reads `n.toString()` back as n |
| EcmaScript.NoDigitsIsNaN | src/components/OrderHistoryList.tsx:46 | a string with no digit after white space and a sign parses to NaN under `parseInt`, and under `parseFloat` when it does not start with `.` or `I` |
| EcmaScript.ParseDecimalPrefix | src/components/OrderHistoryList.tsx:46 | white space, a run of decimal digits and a non-digit: `parseInt` gives the run's value unless the run is `0` followed by `x` or `X`, and so does `parseFloat` unless the run is followed by `.`, `e` or `E` |
| EcmaScript.ParseHexPrefix | src/components/OrderHistoryList.tsx:46 | white space, `0x` and a run of hexadecimal digits: `parseInt` gives the run's value in radix 16 (NaN for an empty run) while `parseFloat` gives 0 |
| EcmaScript.ParseInt | src/components/OrderHistoryList.tsx:46 | definition of `parseInt` with no radix; see ParseDecimalPrefix, ParseHexPrefix, NoDigitsIsNaN and ParseIntOfIntToString |
| EcmaScript.ParseFloat | src/components/OrderStatusDetail.tsx:11 | definition of `parseFloat` on integer prefixes; see ParseDecimalPrefix, ParseHexPrefix and NoDigitsIsNaN |
| EcmaScript.StringToNumber | src/components/OrderItemCard.tsx:29 | definition of ToNumber on strings; see StringToNumberOfIntToString |
| EcmaScript.IntToString | src/pages/DetailPage.tsx:103 | definition of `toString` on integers; see ParseIntOfIntToString and StringToNumberOfIntToString |
| OrderHistoryList.LineTotalCases | src/components/OrderHistoryList.tsx:43-48 | a line adds 0 when no menu item matches or when its quantity has no leading digits; otherwise it adds quantity times price |
| OrderHistoryList.CalculateOrderTotal | src/components/OrderHistoryList.tsx:41-52 | definition of the order total; see DisplayedTotalsAddUp, ItemsTotalConcat and LineTotalCases |
| OrderHistoryList.LineTotals | src/components/OrderHistoryList.tsx:42-49 | one amount per line, each that line's parsed quantity times its menu price, and together they add up to the lines' `reduce` |
| OrderHistoryList.ItemsTotalConcat | src/components/OrderHistoryList.tsx:42-49 | the lines' total is additive over concatenation |
| OrderHistoryList.DisplayedTotalsAddUp | src/components/OrderHistoryList.tsx:152-158 | the displayed line amounts plus the delivery fee are `calculateOrderTotal` |
| OrderHistoryList.StatusColor | src/components/OrderHistoryList.tsx:58-73 | a status gets the gray default exactly when it is none of the five statuses |
| OrderHistoryList.StatusColorsDistinct | src/components/OrderHistoryList.tsx:58-73 | the five statuses get five distinct classes; a string gets the gray default exactly when it is not one of them |
| OrderHistoryList.FilterByStatus | src/components/OrderHistoryList.tsx:76 | an order is kept exactly when it passes the filter, as often as in the input |
| OrderHistoryList.FilterAll | src/components/OrderHistoryList.tsx:76 | with "all" the filter keeps every order, in order |
| OrderHistoryList.FilterByStatusConcat | src/components/OrderHistoryList.tsx:76 | the filter distributes over concatenation, so kept orders stay in input order |
| OrderHistoryList.Compare | src/components/OrderHistoryList.tsx:77-90 | definition of the comparator; see CompareIsKeyDifference |
| OrderHistoryList.CompareIsKeyDifference | src/components/OrderHistoryList.tsx:77-90 | each comparator is the difference of a per-order key: negated or plain `createdAt`, negated or plain total, or 0 |
| OrderHistoryList.Insert | src/components/OrderHistoryList.tsx:77-90 | insertion adds exactly the one order |
| OrderHistoryList.SortOrders | src/components/OrderHistoryList.tsx:77-90 | the sorted list is a permutation of its input |
| OrderHistoryList.WithKeyMember | src/components/OrderHistoryList.tsx:77-90 | an order is in the orders with key k exactly when it is in the list and its key is k |
| OrderHistoryList.InsertSorted | src/components/OrderHistoryList.tsx:77-90 | insertion keeps a list ordered by the key |
| OrderHistoryList.SortOrdersSorted | src/components/OrderHistoryList.tsx:77-90 | the sorted list is ordered by the key |
| OrderHistoryList.InsertWithKey | src/components/OrderHistoryList.tsx:77-90 | an inserted order goes before every order with the same key |
| OrderHistoryList.SortOrdersStable | src/components/OrderHistoryList.tsx:77-90 | orders with equal keys keep their input order |
| OrderHistoryList.SortedSameClassesEqual | src/components/OrderHistoryList.tsx:77-90 | two key-ordered lists with the same orders per key, in the same order, are equal |
| OrderHistoryList.StableSortIsUnique | src/components/OrderHistoryList.tsx:77-90 | every stable sort with the comparator gives the same list as the model's sort |
| OrderHistoryList.UnknownOptionKeepsOrder | src/components/OrderHistoryList.tsx:87-88 | an unknown option leaves the list as it is |
| OrderHistoryList.FilteredAndSortedOrders | src/components/OrderHistoryList.tsx:75-90 | the displayed list is a permutation of the filtered orders |
| OrderHistoryList.FilteredAndSortedContents | src/components/OrderHistoryList.tsx:75-90 | the displayed list holds exactly the filtered orders, with multiplicity; with "all" it is a permutation of the input |
| OrderHistoryList.FilteredAndSortedOrder | src/components/OrderHistoryList.tsx:79-88 | priceAsc gives non-decreasing totals and priceDesc non-increasing ones; newest gives non-increasing `createdAt` and oldest non-decreasing; an unknown option gives the filtered order |
| OrderStatusDetail.ItemTotalCases | src/components/OrderStatusDetail.tsx:39 | a line's amount is a number exactly when its quantity parses; it is then the quantity times the menu price, or times 0 when no menu item matches |
| OrderStatusDetail.ItemTotal | src/components/OrderStatusDetail.tsx:39 | definition of a line's amount; see ItemTotalCases |
| OrderStatusDetail.ItemTotals | src/components/OrderStatusDetail.tsx:35-39 | one listed amount per line, and together they add up to the subtotal |
| OrderStatusDetail.Subtotal | src/components/OrderStatusDetail.tsx:10-15 | definition of the subtotal; see SubtotalValue |
| OrderStatusDetail.Total | src/components/OrderStatusDetail.tsx:16-17 | definition of the total; see TotalFallback and EmptyOrderTotal |
| OrderStatusDetail.SubtotalValue | src/components/OrderStatusDetail.tsx:10-15 | the subtotal is a number exactly when every quantity parses, and is then the sum of the line amounts |
| OrderStatusDetail.TotalFallback | src/components/OrderStatusDetail.tsx:17 | a non-zero stored total is shown as it is; a zero one is replaced by subtotal plus fee, which is a number exactly when every quantity parses |
| OrderStatusDetail.EmptyOrderTotal | src/components/OrderStatusDetail.tsx:10-17 | no lines and a zero stored total give subtotal 0 and total equal to the delivery fee |
| OrderItemCard.LineAmounts | src/components/OrderItemCard.tsx:72 | one listed amount per line, each `menuItem.price * quantity`, and together they add up to the `reduce` of `getTotalAmount` |
| OrderItemCard.LineAmount | src/components/OrderItemCard.tsx:29 | definition of a line's amount; see LineAmountCases, LineAmountOfDecimal and LineAmountOfEmpty |
| OrderItemCard.GetTotalAmount | src/components/OrderItemCard.tsx:27-33 | definition of the card's total; see TotalValue, TotalAdditive and TotalAtLeastDelivery |
| OrderItemCard.LineAmountOfDecimal | src/components/OrderItemCard.tsx:29 | a line whose quantity is the decimal string of n amounts to price times n |
| OrderItemCard.LineAmountOfEmpty | src/components/OrderItemCard.tsx:29 | an empty quantity string counts as 0 |
| OrderItemCard.LineAmountCases | src/components/OrderItemCard.tsx:29 | a line's amount is a number exactly when its quantity converts to one, and is then price times that number |
| OrderItemCard.ItemsTotalConcat | src/components/OrderItemCard.tsx:28-31 | the lines' total is additive over concatenation |
| OrderItemCard.TotalAdditive | src/components/OrderItemCard.tsx:27-33 | appending lines adds exactly their amounts to the total |
| OrderItemCard.DisplayedTotalsAddUp | src/components/OrderItemCard.tsx:72-84 | the listed amounts plus the delivery fee are the displayed total |
| OrderItemCard.EmptyOrderTotal | src/components/OrderItemCard.tsx:27-33 | no lines gives the delivery price |
| OrderItemCard.TotalValue | src/components/OrderItemCard.tsx:27-33 | the total is a number exactly when every quantity converts to one, and is then the sum of the listed amounts plus the delivery price |
| OrderItemCard.LineAmountNonNegative | src/components/OrderItemCard.tsx:29 | a non-negative price and quantity give a non-negative number |
| OrderItemCard.ItemsTotalNonNegative | src/components/OrderItemCard.tsx:28-31 | non-negative prices and quantities give a non-negative line total |
| OrderItemCard.TotalAtLeastDelivery | src/components/OrderItemCard.tsx:27-33 | with non-negative prices and quantities the total is a number of at least the delivery price |
| OrderApi.NormalPrice | src/api/OrderApi.ts:23 | the result is a number: the original when that was a number, else 0 |
| OrderApi.NormalizeOrderItem | src/api/OrderApi.ts:21-25 | fails exactly on a null or undefined line; the price is defaulted, a falsy quantity becomes "1", other properties are kept |
| OrderApi.NormalizeOrderItems | src/api/OrderApi.ts:21-25 | succeeds exactly when no line is nullish; then it keeps the length and cleans up each line |
| OrderApi.NormalizeOrderList | src/api/OrderApi.ts:19-27 | succeeds exactly when every order's clean-up does; then it keeps the length and cleans up each order |
| OrderApi.NormalizeOrder | src/api/OrderApi.ts:19-27 | definition of one order's clean-up; see NormalizeOrderSpec and NormalizeOrderIdempotent |
| OrderApi.FetchMyOrders | src/api/OrderApi.ts:15-30 | definition of the orders query's result, a failed request rejecting with its exception; see FetchMyOrdersSpec and FetchMyOrdersIdempotent |
| OrderApi.NormalizeOrderSpec | src/api/OrderApi.ts:19-27 | an order's clean-up succeeds exactly for an object whose `cartItems` is an array without nullish lines; it then cleans up every line, defaults `totalAmount` to 0 unless it is a number, and keeps every other field |
| OrderApi.FetchMyOrdersSpec | src/api/OrderApi.ts:15-30 | a failed request rejects with its exception; a non-array response is returned unchanged; an array fails exactly when some order is ill-shaped, and otherwise keeps its length with each order cleaned up |
| OrderApi.NormalizeOrderItemIdempotent | src/api/OrderApi.ts:21-25 | a cleaned-up line is its own clean-up |
| OrderApi.NormalizeOrderItemsIdempotent | src/api/OrderApi.ts:21-25 | cleaned-up lines are their own clean-up |
| OrderApi.NormalizeOrderIdempotent | src/api/OrderApi.ts:19-27 | a cleaned-up order is its own clean-up |
| OrderApi.FetchMyOrdersIdempotent | src/api/OrderApi.ts:18-30 | cleaning up a cleaned-up response changes nothing |
| OrderApi.NormalizeInvoiceItem | src/api/OrderApi.ts:167-171 | fails exactly on a nullish line; a falsy price becomes 0, `total` is `(price \|\| 0) * (quantity \|\| 1)`, other properties are kept |
| OrderApi.NormalizeInvoiceItems | src/api/OrderApi.ts:167-171 | succeeds exactly when no line is nullish; then it keeps the length and cleans up each line |
| OrderApi.InvoiceLineTotalNumeric | src/api/OrderApi.ts:170 | with numeric or missing fields, a line's total is price times quantity; a missing or zero price counts as 0 and a missing or zero quantity as 1 |
| OrderApi.InvoiceLineTotalNaN | src/api/OrderApi.ts:170 | a non-numeric string price or quantity makes the total NaN |
| OrderApi.NormalizeInvoice | src/api/OrderApi.ts:164-177 | definition of the invoice clean-up; see GetInvoiceSpec |
| OrderApi.GetInvoice | src/api/OrderApi.ts:153-182 | definition of the invoice query's result, a failed request rethrowing its exception; see GetInvoiceSpec and GetInvoiceIdempotent |
| OrderApi.GetInvoiceSpec | src/api/OrderApi.ts:155-182 | no id gives null whatever the request would produce; with an id, a failed request rethrows its exception; a falsy response is returned unchanged; a truthy one succeeds exactly when `items` is an array without nullish lines, and then has its lines cleaned up, subtotal/deliveryFee/totalAmount defaulted to 0 when falsy, and every other field kept |
| OrderApi.NormalizeInvoiceItemIdempotent | src/api/OrderApi.ts:167-171 | a cleaned-up invoice line is its own clean-up |
| OrderApi.NormalizeInvoiceItemsIdempotent | src/api/OrderApi.ts:167-171 | cleaned-up invoice lines are their own clean-up |
| OrderApi.GetInvoiceIdempotent | src/api/OrderApi.ts:164-179 | cleaning up a cleaned-up invoice changes nothing |
| OrderApi.NotContainsWithoutFirstChar | src/api/OrderApi.ts:78 | a string without the first character of `sub` does not include `sub` |
| OrderApi.CreateCheckoutSession | src/api/OrderApi.ts:61-85 | definition of one checkout-session request's outcome; see CreateCheckoutSessionSpec |
| OrderApi.CreateCheckoutSessionSpec | src/api/OrderApi.ts:64-84 | resolves exactly when the body is truthy, and then with the body; a falsy body rejects with "Unable to create checkout session"; a fetch failure becomes the connection error; any other failure is rethrown |
| OrderApi.UpdateOrder | src/api/OrderApi.ts:119-130 | definition of the status-update request, its ensures reading off its three cases: resolves exactly when the body is truthy, and then with the body; a falsy body rejects with "Failed to update order status"; failures propagate |
| OrderApi.Pow2 | src/api/OrderApi.ts:94 | `2 ** n` is at least 1 |
| OrderApi.RetryDelay | src/api/OrderApi.ts:94 | the delay is between 1000 and 30000 ms |
| OrderApi.Pow2Monotone | src/api/OrderApi.ts:94 | `2 ** n` does not decrease |
| OrderApi.RetryDelayMonotone | src/api/OrderApi.ts:94 | the delay is non-decreasing in the attempt index |
| OrderApi.RetryDelaySchedule | src/api/OrderApi.ts:94 | the delays are 1000, 2000, 4000, 8000 and 16000 ms, then 30000 from index 5 on |
| OrderApi.Retrying | src/api/OrderApi.ts:92-94 | definition of the retry loop; see RetryingSpec |
| OrderApi.CheckoutMutation | src/api/OrderApi.ts:87-107 | definition of the checkout mutation; see CheckoutMutationSpec |
| OrderApi.RetryingSpec | src/api/OrderApi.ts:92-94 | at most 3 retries; the result is the last call's outcome and every earlier call failed; a failure means every retry was used; the k-th delay is `retryDelay` of the failures so far |
| OrderApi.CheckoutMutationSpec | src/api/OrderApi.ts:87-107 | checkout succeeds exactly when one of the first four requests returns a truthy body, and then with the first such body; the waits are a prefix of 1000, 2000, 4000 ms |
| Consistency.SummaryShowsCheckoutTotal | src/pages/DetailPage.tsx:94-97 | the checkout total is the order summary's total; the page's own "Total Cost" is that total less the delivery price |
| Consistency.PlacedLineAmounts | src/pages/DetailPage.tsx:100-105 | the stored order's lines carry the cart's ids, and their quantity strings parse back to the cart's quantities |
| Consistency.HistoryTotalIsCheckoutTotal | src/components/OrderHistoryList.tsx:41-52 | when the cart's prices are the menu's, the history list recomputes the checkout total |
| Consistency.PlacedLinesMatch | src/components/OrderStatusDetail.tsx:10-15 | a stored order's lines read back as the cart's lines |
| Consistency.ItemTotalsAreRows | src/components/OrderStatusDetail.tsx:35-39 | the status panel's line amounts are the order summary's rows |
| Consistency.StatusSubtotalOfLines | src/components/OrderStatusDetail.tsx:10-15 | the status panel's subtotal is the cart's cost |
| Consistency.StatusTotalOfSubtotal | src/components/OrderStatusDetail.tsx:17 | a stored total equal to subtotal plus fee is shown, whichever branch of `\|\|` is taken |
| Consistency.StatusTotalIsCheckoutTotal | src/components/OrderStatusDetail.tsx:10-17 | when the cart's prices are the menu's, the status panel shows the cart's cost as its subtotal and the checkout total as its total |

## Left out

- HTTP, authentication and react-query are not modelled: `getAccessTokenSilently`, the axios client, caching, `refetchInterval`, `enabled`, `refetchOnWindowFocus`, toasts, `reset`, `onMutate` and `onSettled`. Each request is a parameter holding either the response body or the exception the request threw, and every query and mutation that the model covers propagates that exception.
- The retry index passed to `retryDelay` is taken to be the number of failures so far, so the first retry waits 1000 ms. This is how react-query calls it; react-query itself is not part of this model.
- `IsFetchFailure` only recognises `Error` exceptions. The message texts of engine-raised TypeErrors are not modelled, so a TypeError never counts as a fetch failure.
- The redirect `window.location.href = data.url` after checkout is not modelled.
- `UserFormData` may have fields beyond the five delivery fields that `onCheckout` copies; the others are not read and are not modelled.
- `handleStatusChange` in the order card only forwards to the update request, which `UpdateOrder` models.
- Rendering is not modelled: JSX, `formatPrice`, `Intl.NumberFormat`, `toFixed`, `toLocaleString` and the capitalised status labels.
- Console logging is not modelled: the invoice query's `console.log` of the response and `console.error` of a failure (src/api/OrderApi.ts:161, 181, 192). Logging changes no value the model computes.
- `DetailPage.CartSession` is bound to one restaurant id for its whole lifetime. In the page, `restaurantId` comes from the route on every render, while the cart state is loaded only when the page mounts. If the route parameter changed without a remount, the page would keep the previous restaurant's cart and write it under the new restaurant's key on the next add or remove. The model does not capture this.
- Session storage holds the cart as a sequence, not as a JSON string. `JSON.stringify` and `JSON.parse` are not modelled.
- A stored cart that is present but empty-string (falsy) would load as an empty cart; the model's map has no such entry.
- `createdAt` is an integer time value. `new Date(...).getTime()` on the stored string is not modelled.
- `parseFloat` is modelled only on a sign followed by decimal digits. Fractions, exponents and `Infinity` are not modelled, since quantities are decimal integers.
- ToNumber on strings is modelled only for decimal integer literals; hexadecimal, binary, octal, fractional, exponent and `Infinity` literals are not modelled. ToNumber of an array or object is NaN in the model, whereas JavaScript converts some arrays (`[5]`) to numbers.
- Numbers are unbounded integers. Floating-point rounding, integers above 2^53 and `toString` of numbers of 10^21 or more are not modelled.
- `{...v}` of a string or an array is modelled as copying no properties.
- Prices and delivery prices are integers, so `deliveryPrice || 0` and `price || 0` are the identity and are written as such.
- `Consistency.PlacedOrder` is an assumption about what the backend stores for a checkout request. The backend is not part of this model.
- `src/api/OrderApi.tsx` holds a second set of order hooks. Its `useGetMyOrders` (lines 8-37) returns the response without clean-up, and its checkout mutation has the same `retryDelay` (line 102). `src/api/RestaurantApi.tsx` shares only the `retryDelay` formula (line 77). Neither file is modelled separately.
- The views without arithmetic (invoice printing, modals, header, menu forms) and `src/services/apiClient.ts` are not part of this model.
- `OrderHistoryList.SortOrders` is an insertion sort. `Array.prototype.sort` is only required to be stable, and `OrderHistoryList.StableSortIsUnique` shows every stable sort gives the same list. The input array is not modified in the source either, as `.sort` runs on the fresh array from `.filter`.
- The order card's `Order` type is not part of this model. Its line quantity is taken to be the string the checkout stores, as in the order-history list and the status panel. ToNumber on that string is modelled for decimal integers only.
- `DetailPage.CartSession`: unique ids in the stored carts are kept by both updates but not required. A cart written to session storage by other code could hold duplicate ids; the cost lemmas about adding and removing then do not apply.
