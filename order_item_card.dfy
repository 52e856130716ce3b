/** The order card of the restaurant's order-management view. Its orders come with
    each line's menu item filled in and the delivery price on the order itself. A
    line's quantity is the string the checkout stored, so `price * quantity` goes
    through ToNumber: a decimal quantity gives price times quantity, an empty one
    0, and any other string NaN, which then spreads to the card's total. */
module OrderItemCard {
  import opened Types
  import opened EcmaScript
  import opened Amounts

  datatype PopulatedLine = PopulatedLine(menuItem: MenuItem, quantity: string)

  datatype PopulatedOrder = PopulatedOrder(
    id: string,
    status: string,
    restaurantName: string,
    cartItems: seq<PopulatedLine>,
    deliveryPrice: int)

  /** `item.menuItem.price * item.quantity` */
  function LineAmount(line: PopulatedLine): Number {
    Mul(Finite(line.menuItem.price), StringToNumber(line.quantity))
  }

  /** The line amount as a function of the line. */
  const LineAmountOf: PopulatedLine -> Number := line => LineAmount(line)

  /** The `reduce` of `getTotalAmount` over the lines, starting from 0. */
  function ItemsTotal(lines: seq<PopulatedLine>): Number {
    SumOver(lines, LineAmountOf)
  }

  /** `getTotalAmount()`: the lines' amounts plus the order's delivery price. */
  function GetTotalAmount(order: PopulatedOrder): Number {
    Add(ItemsTotal(order.cartItems), Finite(order.deliveryPrice))
  }

  /** The per-line amounts the card lists. */
  function LineTotals(order: PopulatedOrder): seq<Number> {
    LineAmounts(order.cartItems)
  }

  /** The amounts of the lines, in order; they add up to the lines' total. */
  function LineAmounts(lines: seq<PopulatedLine>): (r: seq<Number>)
    ensures |r| == |lines|
    ensures forall i :: 0 <= i < |lines| ==> r[i] == LineAmount(lines[i])
    ensures SumNumbers(r) == ItemsTotal(lines)
  {
    SumOverMap(lines, LineAmountOf);
    MapOver(lines, LineAmountOf)
  }

  /** A line whose quantity is the decimal string of n (as the checkout writes it)
      amounts to price times n. */
  lemma LineAmountOfDecimal(item: MenuItem, n: int)
    ensures LineAmount(PopulatedLine(item, IntToString(n))) == Finite(item.price * n)
  {
    StringToNumberOfIntToString(n);
  }

  /** An empty quantity counts as 0. */
  lemma LineAmountOfEmpty(item: MenuItem)
    ensures LineAmount(PopulatedLine(item, "")) == Finite(0)
  {
  }

  /** A line amounts to a number exactly when its quantity converts to one, and is
      then the price times that number. */
  lemma LineAmountCases(line: PopulatedLine)
    ensures LineAmount(line).Finite? <==> StringToNumber(line.quantity).Finite?
    ensures LineAmount(line).Finite? ==>
              LineAmount(line).value == line.menuItem.price * StringToNumber(line.quantity).value
  {
  }

  lemma ItemsTotalConcat(a: seq<PopulatedLine>, b: seq<PopulatedLine>)
    ensures ItemsTotal(a + b) == Add(ItemsTotal(a), ItemsTotal(b))
  {
    SumOverConcat(a, b, LineAmountOf);
  }

  /** Appending lines to an order adds exactly their amounts to its total. */
  lemma TotalAdditive(order: PopulatedOrder, extra: seq<PopulatedLine>)
    ensures GetTotalAmount(order.(cartItems := order.cartItems + extra)) == Add(GetTotalAmount(order), ItemsTotal(extra))
  {
    ItemsTotalConcat(order.cartItems, extra);
  }

  /** The listed line amounts and the delivery fee add up to the displayed total. */
  lemma DisplayedTotalsAddUp(order: PopulatedOrder)
    ensures Add(SumNumbers(LineTotals(order)), Finite(order.deliveryPrice)) == GetTotalAmount(order)
  {
  }

  /** An order without lines costs its delivery price. */
  lemma EmptyOrderTotal(order: PopulatedOrder)
    requires order.cartItems == []
    ensures GetTotalAmount(order) == Finite(order.deliveryPrice)
  {
  }

  /** Every quantity of these lines converts to a number. */
  predicate QuantitiesConvert(lines: seq<PopulatedLine>) {
    forall i :: 0 <= i < |lines| ==> StringToNumber(lines[i].quantity).Finite?
  }

  /** The total is a number exactly when every quantity converts to one (a single
      non-numeric quantity makes it NaN), and is then the sum of the listed line
      amounts plus the delivery price. */
  lemma TotalValue(order: PopulatedOrder)
    ensures GetTotalAmount(order).Finite? <==> QuantitiesConvert(order.cartItems)
    ensures GetTotalAmount(order).Finite? ==>
              GetTotalAmount(order) == Finite(Sum(Values(LineTotals(order))) + order.deliveryPrice)
  {
    var lines := order.cartItems;
    SumNumbersValue(LineTotals(order));
    assert AllFinite(LineTotals(order)) <==> QuantitiesConvert(lines) by {
      forall i | 0 <= i < |lines|
        ensures LineTotals(order)[i].Finite? <==> StringToNumber(lines[i].quantity).Finite?
      {
        LineAmountCases(lines[i]);
      }
    }
  }

  /** A non-negative price and a quantity that converts to a non-negative number. */
  predicate NonNegativeLine(line: PopulatedLine) {
    line.menuItem.price >= 0 && StringToNumber(line.quantity).Finite? && StringToNumber(line.quantity).value >= 0
  }

  predicate NonNegativeLines(lines: seq<PopulatedLine>) {
    forall i :: 0 <= i < |lines| ==> NonNegativeLine(lines[i])
  }

  lemma LineAmountNonNegative(line: PopulatedLine)
    requires NonNegativeLine(line)
    ensures LineAmount(line).Finite? && LineAmount(line).value >= 0
  {
    var p, q := line.menuItem.price, StringToNumber(line.quantity).value;
    assert p * q >= 0 by {
      assert p >= 0 && q >= 0;
    }
  }

  lemma {:induction false} ItemsTotalNonNegative(lines: seq<PopulatedLine>)
    requires NonNegativeLines(lines)
    ensures ItemsTotal(lines).Finite? && ItemsTotal(lines).value >= 0
  {
    if lines != [] {
      assert NonNegativeLines(lines[1..]) by {
        forall i | 0 <= i < |lines[1..]|
          ensures lines[1..][i] == lines[i + 1]
        {
        }
      }
      ItemsTotalNonNegative(lines[1..]);
      LineAmountNonNegative(lines[0]);
    }
  }

  /** With non-negative prices and quantities the total is a number of at least
      the delivery price. */
  lemma TotalAtLeastDelivery(order: PopulatedOrder)
    requires NonNegativeLines(order.cartItems)
    ensures GetTotalAmount(order).Finite? && GetTotalAmount(order).value >= order.deliveryPrice
  {
    ItemsTotalNonNegative(order.cartItems);
  }
}
