/** The order-summary card beside the menu: the cart's rows, the subtotal, the
    delivery fee, the total and the item-count badge. */
module OrderSummary {
  import opened Types
  import opened Amounts
  import opened DetailPage

  /** Each row's amount, `price * quantity`, in cart order; the rows add up to the
      cart's cost. */
  function RowTotals(cart: seq<CartItem>): (r: seq<int>)
    ensures |r| == |cart|
    ensures forall i :: 0 <= i < |cart| ==> r[i] == cart[i].price * cart[i].quantity
    ensures Sum(r) == TotalCost(cart)
  {
    if cart == [] then []
    else
      var rest := RowTotals(cart[1..]);
      assert ([cart[0].price * cart[0].quantity] + rest)[1..] == rest;
      [cart[0].price * cart[0].quantity] + rest
  }

  /** `getTotalCost()`: the cart's cost plus the restaurant's delivery price, which
      is the sum of the rows plus the delivery fee. */
  function GetTotalCost(restaurant: Restaurant, cart: seq<CartItem>): (r: int)
    ensures r == Sum(RowTotals(cart)) + restaurant.deliveryPrice
  {
    TotalCost(cart) + restaurant.deliveryPrice
  }

  /** The displayed subtotal, `getTotalCost() - restaurant.deliveryPrice`: the rows
      add up to it. */
  function Subtotal(restaurant: Restaurant, cart: seq<CartItem>): (r: int)
    ensures r == Sum(RowTotals(cart))
  {
    GetTotalCost(restaurant, cart) - restaurant.deliveryPrice
  }

  /** The "<n> items" badge, shown only for a non-empty cart. */
  function ItemCountBadge(cart: seq<CartItem>): Option<nat> {
    if |cart| > 0 then Some(|cart|) else None
  }

  /** The "Your cart is empty" message. */
  predicate ShowsEmptyMessage(cart: seq<CartItem>) {
    |cart| == 0
  }

  /** The subtotal is the cart's cost alone: the total less the delivery fee. */
  lemma SubtotalIsLineSum(restaurant: Restaurant, cart: seq<CartItem>)
    ensures Subtotal(restaurant, cart) == TotalCost(cart)
    ensures GetTotalCost(restaurant, cart) == Subtotal(restaurant, cart) + restaurant.deliveryPrice
  {
  }

  /** An empty cart shows the empty-cart message, no badge, a subtotal of 0 and the
      delivery fee as its total. */
  lemma EmptyCart(restaurant: Restaurant)
    ensures ShowsEmptyMessage([]) && ItemCountBadge([]) == None
    ensures Subtotal(restaurant, []) == 0
    ensures GetTotalCost(restaurant, []) == restaurant.deliveryPrice
  {
  }

  /** The badge counts lines, not units: changing a line's quantity leaves it as it
      is. */
  lemma BadgeCountsLines(cart: seq<CartItem>, k: nat, quantity: int)
    requires k < |cart|
    ensures ItemCountBadge(cart) == Some(|cart|)
    ensures ItemCountBadge(cart[k := cart[k].(quantity := quantity)]) == ItemCountBadge(cart)
  {
  }

  lemma {:induction false} TotalCostPermutation(a: seq<CartItem>, b: seq<CartItem>)
    requires multiset(a) == multiset(b)
    ensures TotalCost(a) == TotalCost(b)
    decreases |a|
  {
    if a == [] {
      assert |b| == |multiset(b)| == 0;
    } else {
      var x := a[0];
      assert x in multiset(b);
      var i :| 0 <= i < |b| && b[i] == x;
      var pre, post := b[..i], b[i + 1..];
      assert b == pre + ([x] + post);
      assert a == [x] + a[1..];
      assert multiset(a[1..]) == multiset(pre + post) by {
        assert multiset([x] + post) == multiset{x} + multiset(post);
        assert multiset(b) == multiset(pre) + multiset([x] + post);
        assert multiset(pre + post) == multiset(pre) + multiset(post);
        assert multiset(a) == multiset([x]) + multiset(a[1..]);
        calc {
          multiset(a[1..]);
          multiset(a) - multiset{x};
          multiset(b) - multiset{x};
          multiset(pre) + multiset(post);
        }
      }
      TotalCostPermutation(a[1..], pre + post);
      TotalCostConcat(pre, [x] + post);
      TotalCostConcat([x], post);
      TotalCostConcat(pre, post);
      TotalCostConcat([x], a[1..]);
    }
  }

  /** The total does not depend on the order of the lines. */
  lemma TotalIndependentOfOrder(restaurant: Restaurant, a: seq<CartItem>, b: seq<CartItem>)
    requires multiset(a) == multiset(b)
    ensures GetTotalCost(restaurant, a) == GetTotalCost(restaurant, b)
  {
    TotalCostPermutation(a, b);
  }
}
