/** The order-status panel: each line's amount, the subtotal, the delivery fee and
    the total, computed with `parseFloat` on the stored quantities. Unlike the
    order-history list, an unparsable quantity is not replaced by 0 here, so the
    amounts are JavaScript numbers that may be NaN. */
module OrderStatusDetail {
  import opened Types
  import opened EcmaScript
  import opened Amounts

  /** `parseFloat(item.quantity) * (menuItem?.price || 0)` */
  function ItemTotal(line: OrderLine, menu: seq<MenuItem>): Number {
    Mul(ParseFloat(line.quantity), Finite(MenuPriceOrZero(menu, line.menuItemId)))
  }

  /** The line amount as a function of the line, for a given menu. */
  function ItemTotalIn(menu: seq<MenuItem>): OrderLine -> Number {
    line => ItemTotal(line, menu)
  }

  /** The subtotal: the `reduce` over the order's lines. */
  function Subtotal(order: Order): Number {
    SumOver(order.cartItems, ItemTotalIn(order.restaurant.menuItems))
  }

  function DeliveryFee(order: Order): int {
    order.restaurant.deliveryPrice
  }

  /** `order.totalAmount || (subtotal + deliveryFee)`: the stored total unless it is
      0, in which case the recomputed one. */
  function Total(order: Order): Number {
    if order.totalAmount != 0 then Finite(order.totalAmount)
    else Add(Subtotal(order), Finite(DeliveryFee(order)))
  }

  /** The per-line amounts the panel lists; they add up to the subtotal. */
  function ItemTotals(order: Order): (r: seq<Number>)
    ensures |r| == |order.cartItems|
    ensures SumNumbers(r) == Subtotal(order)
  {
    SumOverMap(order.cartItems, ItemTotalIn(order.restaurant.menuItems));
    MapOver(order.cartItems, ItemTotalIn(order.restaurant.menuItems))
  }

  /** Every quantity of these lines has a numeric prefix. */
  predicate QuantitiesParse(lines: seq<OrderLine>) {
    forall i :: 0 <= i < |lines| ==> ParseFloat(lines[i].quantity).Finite?
  }

  /** A line's amount is a number exactly when its quantity parses, and is then the
      quantity times the menu price (0 for an item missing from the menu). */
  lemma ItemTotalCases(line: OrderLine, menu: seq<MenuItem>)
    ensures ItemTotal(line, menu).Finite? <==> ParseFloat(line.quantity).Finite?
    ensures ItemTotal(line, menu).Finite? ==>
              ItemTotal(line, menu).value == ParseFloat(line.quantity).value * MenuPriceOrZero(menu, line.menuItemId)
  {
  }

  /** The subtotal is a number exactly when every quantity parses (a single
      unparsable quantity makes it NaN), and is then the sum of the listed line
      amounts. */
  lemma SubtotalValue(order: Order)
    ensures Subtotal(order).Finite? <==> QuantitiesParse(order.cartItems)
    ensures Subtotal(order).Finite? ==>
              AllFinite(ItemTotals(order)) && Subtotal(order) == Finite(Sum(Values(ItemTotals(order))))
  {
    var lines, menu := order.cartItems, order.restaurant.menuItems;
    SumNumbersValue(ItemTotals(order));
    assert AllFinite(ItemTotals(order)) <==> QuantitiesParse(lines) by {
      forall i | 0 <= i < |lines|
        ensures ItemTotals(order)[i].Finite? <==> ParseFloat(lines[i].quantity).Finite?
      {
        ItemTotalCases(lines[i], menu);
      }
    }
  }

  /** A non-zero stored total is shown as it is; a zero one is replaced by the
      subtotal plus the delivery fee, which is a number exactly when every quantity
      parses. */
  lemma TotalFallback(order: Order)
    ensures order.totalAmount != 0 ==> Total(order) == Finite(order.totalAmount)
    ensures order.totalAmount == 0 ==> (Total(order).Finite? <==> QuantitiesParse(order.cartItems))
    ensures order.totalAmount == 0 && Total(order).Finite? ==>
              Total(order).value == Subtotal(order).value + DeliveryFee(order)
  {
    if order.totalAmount == 0 {
      SubtotalValue(order);
    }
  }

  /** An order without lines and without a stored total costs its delivery fee. */
  lemma EmptyOrderTotal(order: Order)
    requires order.cartItems == [] && order.totalAmount == 0
    ensures Subtotal(order) == Finite(0)
    ensures Total(order) == Finite(order.restaurant.deliveryPrice)
  {
  }
}
