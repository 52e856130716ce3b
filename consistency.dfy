/** How the totals of the different views relate for one order: the total the
    detail page sends at checkout, the one the order summary shows, and the ones
    the order-history list and the order-status panel recompute from the stored
    order. The backend is not part of this model, so what it stores for a checkout
    request is stated here as an explicit assumption, `PlacedOrder`. */
module Consistency {
  import opened Types
  import opened EcmaScript
  import opened Amounts
  import opened DetailPage
  import OrderSummary
  import OrderHistoryList
  import OrderStatusDetail

  /** The order taken to be stored for a checkout request: its lines carry the
      request's ids, names and quantity strings, it keeps the request's delivery
      details and total, and it refers to the restaurant the request was made for. */
  function PlacedOrder(req: CheckoutRequest, id: string, createdAt: int, restaurant: Restaurant): Order {
    var lines := req.cartItems;
    Order(id, "placed", createdAt,
          seq(|lines|, i requires 0 <= i < |lines| => OrderLine(lines[i].menuItemId, lines[i].name, lines[i].quantity)),
          restaurant, req.deliveryDetails, req.totalAmount)
  }

  /** Every cart line's price is the menu's price for its id. */
  predicate PricesMatchMenu(cart: seq<CartItem>, menu: seq<MenuItem>) {
    forall i :: 0 <= i < |cart| ==> MenuPriceOrZero(menu, cart[i].id) == cart[i].price
  }

  /** The total the checkout sends is the one the order summary shows, and the
      page's own "Total Cost" is that total without the delivery price. */
  lemma SummaryShowsCheckoutTotal(cart: seq<CartItem>, restaurant: Restaurant, form: UserFormData)
    ensures var req := Checkout(cart, Some(restaurant), form).value;
            req.totalAmount == OrderSummary.GetTotalCost(restaurant, cart)
            && TotalCost(cart) == req.totalAmount - restaurant.deliveryPrice
            && OrderSummary.Subtotal(restaurant, cart) == TotalCost(cart)
  {
  }

  /** The stored order's lines carry the cart's ids, and their quantity strings
      parse back to the cart's quantities. */
  lemma PlacedLineAmounts(cart: seq<CartItem>, restaurant: Restaurant, form: UserFormData, id: string, createdAt: int)
    ensures var order := PlacedOrder(Checkout(cart, Some(restaurant), form).value, id, createdAt, restaurant);
            |order.cartItems| == |cart|
            && forall i :: 0 <= i < |cart| ==>
                 order.cartItems[i].menuItemId == cart[i].id
                 && ParseInt(order.cartItems[i].quantity) == Finite(cart[i].quantity)
                 && ParseFloat(order.cartItems[i].quantity) == Finite(cart[i].quantity)
  {
    CheckoutPayload(cart, restaurant, form);
    forall i | 0 <= i < |cart|
      ensures ParseFloat(IntToString(cart[i].quantity)) == Finite(cart[i].quantity)
    {
      ParseIntOfIntToString(cart[i].quantity);
    }
  }

  /** When the cart's prices are the menu's, the order-history list recomputes the
      stored order's total as exactly the total sent at checkout. */
  lemma HistoryTotalIsCheckoutTotal(cart: seq<CartItem>, restaurant: Restaurant, form: UserFormData,
                                    id: string, createdAt: int)
    requires PricesMatchMenu(cart, restaurant.menuItems)
    ensures var req := Checkout(cart, Some(restaurant), form).value;
            OrderHistoryList.CalculateOrderTotal(PlacedOrder(req, id, createdAt, restaurant)) == req.totalAmount
  {
    var req := Checkout(cart, Some(restaurant), form).value;
    var order := PlacedOrder(req, id, createdAt, restaurant);
    PlacedLineAmounts(cart, restaurant, form, id, createdAt);
    var rows := OrderSummary.RowTotals(cart);
    var shown := OrderHistoryList.DisplayedLineTotals(order);
    forall i | 0 <= i < |cart|
      ensures shown[i] == rows[i]
    {
      assert OrderHistoryList.QuantityOrZero(order.cartItems[i].quantity) == cart[i].quantity;
      assert shown[i] == cart[i].quantity * cart[i].price;
    }
    assert shown == rows;
    OrderHistoryList.DisplayedTotalsAddUp(order);
  }

  /** The stored lines read back as the cart's lines: same number, each quantity
      parses to the cart's quantity and each menu price is the cart's price. */
  predicate LinesMatch(order: Order, cart: seq<CartItem>) {
    && |order.cartItems| == |cart|
    && forall i :: 0 <= i < |cart| ==>
         ParseFloat(order.cartItems[i].quantity) == Finite(cart[i].quantity)
         && MenuPriceOrZero(order.restaurant.menuItems, order.cartItems[i].menuItemId) == cart[i].price
  }

  lemma PlacedLinesMatch(cart: seq<CartItem>, restaurant: Restaurant, form: UserFormData, id: string, createdAt: int)
    requires PricesMatchMenu(cart, restaurant.menuItems)
    ensures LinesMatch(PlacedOrder(Checkout(cart, Some(restaurant), form).value, id, createdAt, restaurant), cart)
  {
    PlacedLineAmounts(cart, restaurant, form, id, createdAt);
  }

  lemma ItemTotalsAreRows(order: Order, cart: seq<CartItem>)
    requires LinesMatch(order, cart)
    ensures |OrderStatusDetail.ItemTotals(order)| == |OrderSummary.RowTotals(cart)|
    ensures forall i :: 0 <= i < |cart| ==>
              OrderStatusDetail.ItemTotals(order)[i] == Finite(OrderSummary.RowTotals(cart)[i])
  {
    forall i | 0 <= i < |cart|
      ensures OrderStatusDetail.ItemTotals(order)[i] == Finite(OrderSummary.RowTotals(cart)[i])
    {
      OrderStatusDetail.ItemTotalCases(order.cartItems[i], order.restaurant.menuItems);
    }
  }

  /** Numbers that are the integers of a list, one by one, are all finite and
      have that list as their values. */
  lemma FiniteValues(items: seq<Number>, rows: seq<int>)
    requires |items| == |rows| && forall i :: 0 <= i < |rows| ==> items[i] == Finite(rows[i])
    ensures AllFinite(items) && Values(items) == rows
  {
  }

  lemma StatusSubtotalOfLines(order: Order, cart: seq<CartItem>)
    requires LinesMatch(order, cart)
    ensures OrderStatusDetail.Subtotal(order) == Finite(TotalCost(cart))
  {
    var items := OrderStatusDetail.ItemTotals(order);
    var rows := OrderSummary.RowTotals(cart);
    ItemTotalsAreRows(order, cart);
    FiniteValues(items, rows);
    SumNumbersValue(items);
  }

  lemma StatusTotalOfSubtotal(order: Order, subtotal: int)
    requires OrderStatusDetail.Subtotal(order) == Finite(subtotal)
    requires order.totalAmount == subtotal + order.restaurant.deliveryPrice
    ensures OrderStatusDetail.Total(order) == Finite(order.totalAmount)
  {
  }

  /** Under the same condition the order-status panel shows the total sent at
      checkout, whether it takes the stored total or recomputes it. */
  lemma StatusTotalIsCheckoutTotal(cart: seq<CartItem>, restaurant: Restaurant, form: UserFormData,
                                   id: string, createdAt: int)
    requires PricesMatchMenu(cart, restaurant.menuItems)
    ensures var req := Checkout(cart, Some(restaurant), form).value;
            OrderStatusDetail.Subtotal(PlacedOrder(req, id, createdAt, restaurant)) == Finite(TotalCost(cart))
            && OrderStatusDetail.Total(PlacedOrder(req, id, createdAt, restaurant)) == Finite(req.totalAmount)
  {
    var req := Checkout(cart, Some(restaurant), form).value;
    var order := PlacedOrder(req, id, createdAt, restaurant);
    assert order.totalAmount == TotalCost(cart) + order.restaurant.deliveryPrice;
    PlacedLinesMatch(cart, restaurant, form, id, createdAt);
    StatusSubtotalOfLines(order, cart);
    StatusTotalOfSubtotal(order, TotalCost(cart));
  }
}
