/** The order-history list: each order's total recomputed from the restaurant's
    menu, the status badge colours, and the list filtered by status and sorted by
    date or by total. */
module OrderHistoryList {
  import opened Types
  import opened EcmaScript
  import opened Amounts

  const OrderStatusList: seq<string> := ["placed", "paid", "inProgress", "outForDelivery", "delivered"]

  const SortOptions: seq<string> := ["newest", "oldest", "priceDesc", "priceAsc"]

  // ---------------------------------------------------------------------------
  // Order totals

  /** `parseInt(quantity) || 0`: NaN and zero both give 0. */
  function QuantityOrZero(quantity: string): int {
    match ParseInt(quantity)
    case Finite(n) => n
    case NaN => 0
  }

  /** A line's amount: its parsed quantity times the price of the menu item with the
      line's id, or 0 when the menu has no such item. */
  function LineTotal(line: OrderLine, menu: seq<MenuItem>): int {
    QuantityOrZero(line.quantity) * MenuPriceOrZero(menu, line.menuItemId)
  }

  /** The `reduce` of `calculateOrderTotal` over the order's lines. */
  function ItemsTotal(lines: seq<OrderLine>, menu: seq<MenuItem>): int {
    if lines == [] then 0 else LineTotal(lines[0], menu) + ItemsTotal(lines[1..], menu)
  }

  /** `calculateOrderTotal(order)`: the lines' amounts plus the delivery price
      (`deliveryPrice || 0` is the delivery price itself for an integer). */
  function CalculateOrderTotal(order: Order): int {
    ItemsTotal(order.cartItems, order.restaurant.menuItems) + order.restaurant.deliveryPrice
  }

  /** The amounts of the lines, in order; they add up to the lines' total. */
  function LineTotals(lines: seq<OrderLine>, menu: seq<MenuItem>): (r: seq<int>)
    ensures |r| == |lines|
    ensures forall i :: 0 <= i < |lines| ==> r[i] == LineTotal(lines[i], menu)
    ensures Sum(r) == ItemsTotal(lines, menu)
  {
    if lines == [] then []
    else
      var x, rest := LineTotal(lines[0], menu), LineTotals(lines[1..], menu);
      assert ([x] + rest)[1..] == rest;
      [x] + rest
  }

  /** The per-line amounts the list displays under each order. */
  function DisplayedLineTotals(order: Order): seq<int> {
    LineTotals(order.cartItems, order.restaurant.menuItems)
  }

  /** A line adds nothing when the menu has no item with its id or when its quantity
      has no leading digits; otherwise it adds quantity times price. */
  lemma LineTotalCases(line: OrderLine, menu: seq<MenuItem>)
    ensures FindMenuItem(menu, line.menuItemId).None? ==> LineTotal(line, menu) == 0
    ensures ParseInt(line.quantity).NaN? ==> LineTotal(line, menu) == 0
    ensures (ParseInt(line.quantity).Finite? && FindMenuItem(menu, line.menuItemId).Some?) ==>
              LineTotal(line, menu) == ParseInt(line.quantity).value * FindMenuItem(menu, line.menuItemId).value.price
  {
  }

  lemma {:induction false} ItemsTotalConcat(a: seq<OrderLine>, b: seq<OrderLine>, menu: seq<MenuItem>)
    ensures ItemsTotal(a + b, menu) == ItemsTotal(a, menu) + ItemsTotal(b, menu)
  {
    if a == [] {
      assert a + b == b;
    } else {
      assert (a + b)[0] == a[0];
      assert (a + b)[1..] == a[1..] + b;
      ItemsTotalConcat(a[1..], b, menu);
    }
  }

  /** The displayed line amounts plus the displayed delivery fee add up to the
      displayed order total. */
  lemma DisplayedTotalsAddUp(order: Order)
    ensures Sum(DisplayedLineTotals(order)) + order.restaurant.deliveryPrice == CalculateOrderTotal(order)
  {
  }

  // ---------------------------------------------------------------------------
  // Status badge

  const DefaultStatusColor := "bg-gray-200 text-gray-700"

  /** `getStatusColor(status)` */
  function StatusColor(status: string): (r: string)
    ensures r == DefaultStatusColor <==> status !in OrderStatusList
  {
    if status == "placed" then "bg-yellow-200 text-yellow-700"
    else if status == "paid" then "bg-blue-200 text-blue-700"
    else if status == "inProgress" then "bg-orange-200 text-orange-700"
    else if status == "outForDelivery" then "bg-purple-200 text-purple-700"
    else if status == "delivered" then "bg-green-200 text-green-700"
    else DefaultStatusColor
  }

  /** The five statuses get five different classes, none of them the gray default,
      and every other string gets the default. */
  lemma StatusColorsDistinct(a: string, b: string)
    ensures a in OrderStatusList && b in OrderStatusList && a != b ==> StatusColor(a) != StatusColor(b)
    ensures StatusColor(a) == DefaultStatusColor <==> a !in OrderStatusList
  {
  }

  // ---------------------------------------------------------------------------
  // Filter

  /** `selectedStatus === "all" || order.status === selectedStatus` */
  predicate PassesFilter(order: Order, selectedStatus: string) {
    selectedStatus == "all" || order.status == selectedStatus
  }

  /** `orders.filter(...)`: the orders that pass, in their order. */
  function FilterByStatus(orders: seq<Order>, selectedStatus: string): (r: seq<Order>)
    ensures forall o :: multiset(r)[o] == if PassesFilter(o, selectedStatus) then multiset(orders)[o] else 0
    ensures forall o :: o in r <==> o in orders && PassesFilter(o, selectedStatus)
  {
    if orders == [] then []
    else
      assert orders == [orders[0]] + orders[1..];
      if PassesFilter(orders[0], selectedStatus) then [orders[0]] + FilterByStatus(orders[1..], selectedStatus)
      else FilterByStatus(orders[1..], selectedStatus)
  }

  /** With status "all" every order passes, in order. */
  lemma {:induction false} FilterAll(orders: seq<Order>)
    ensures FilterByStatus(orders, "all") == orders
  {
    if orders != [] {
      FilterAll(orders[1..]);
    }
  }

  /** The filter distributes over concatenation, so the kept orders stay in their
      input order. */
  lemma {:induction false} FilterByStatusConcat(a: seq<Order>, b: seq<Order>, selectedStatus: string)
    ensures FilterByStatus(a + b, selectedStatus) == FilterByStatus(a, selectedStatus) + FilterByStatus(b, selectedStatus)
  {
    if a == [] {
      assert a + b == b;
    } else {
      assert (a + b)[0] == a[0];
      assert (a + b)[1..] == a[1..] + b;
      FilterByStatusConcat(a[1..], b, selectedStatus);
    }
  }

  // ---------------------------------------------------------------------------
  // Sort

  /** The comparator handed to `sort`, case by case. */
  function Compare(sortOption: string, a: Order, b: Order): int {
    if sortOption == "newest" then b.createdAt - a.createdAt
    else if sortOption == "oldest" then a.createdAt - b.createdAt
    else if sortOption == "priceDesc" then CalculateOrderTotal(b) - CalculateOrderTotal(a)
    else if sortOption == "priceAsc" then CalculateOrderTotal(a) - CalculateOrderTotal(b)
    else 0
  }

  /** The integer each comparator orders by, ascending. */
  function SortKey(sortOption: string, order: Order): int {
    if sortOption == "newest" then -order.createdAt
    else if sortOption == "oldest" then order.createdAt
    else if sortOption == "priceDesc" then -CalculateOrderTotal(order)
    else if sortOption == "priceAsc" then CalculateOrderTotal(order)
    else 0
  }

  /** Every comparator is the difference of the keys, so sorting with it is sorting
      by the key. */
  lemma CompareIsKeyDifference(sortOption: string, a: Order, b: Order)
    ensures Compare(sortOption, a, b) == SortKey(sortOption, a) - SortKey(sortOption, b)
  {
  }

  ghost predicate SortedByKey(s: seq<Order>, sortOption: string) {
    forall i, j :: 0 <= i < j < |s| ==> SortKey(sortOption, s[i]) <= SortKey(sortOption, s[j])
  }

  /** Puts `x` before the first order whose key is not smaller than its own. */
  function Insert(x: Order, s: seq<Order>, sortOption: string): (r: seq<Order>)
    ensures multiset(r) == multiset(s) + multiset{x}
    ensures forall y :: y in r <==> y in s || y == x
  {
    if s == [] then [x]
    else if SortKey(sortOption, x) <= SortKey(sortOption, s[0]) then [x] + s
    else
      assert s == [s[0]] + s[1..];
      [s[0]] + Insert(x, s[1..], sortOption)
  }

  /** `Array.prototype.sort` with the comparator, which is required to be stable: an
      insertion sort that keeps orders with equal keys in their input order. */
  function SortOrders(s: seq<Order>, sortOption: string): (r: seq<Order>)
    ensures multiset(r) == multiset(s)
  {
    if s == [] then []
    else
      assert s == [s[0]] + s[1..];
      Insert(s[0], SortOrders(s[1..], sortOption), sortOption)
  }

  /** The orders of `s` whose key is `k`, in their order. */
  function WithKey(s: seq<Order>, sortOption: string, k: int): seq<Order> {
    if s == [] then []
    else if SortKey(sortOption, s[0]) == k then [s[0]] + WithKey(s[1..], sortOption, k)
    else WithKey(s[1..], sortOption, k)
  }

  lemma {:induction false} WithKeyMember(s: seq<Order>, sortOption: string, k: int, x: Order)
    ensures x in WithKey(s, sortOption, k) <==> x in s && SortKey(sortOption, x) == k
  {
    if s != [] {
      WithKeyMember(s[1..], sortOption, k, x);
      assert s == [s[0]] + s[1..];
    }
  }

  lemma {:induction false} InsertSorted(x: Order, s: seq<Order>, sortOption: string)
    requires SortedByKey(s, sortOption)
    ensures SortedByKey(Insert(x, s, sortOption), sortOption)
  {
    if s != [] && SortKey(sortOption, x) > SortKey(sortOption, s[0]) {
      var t := s[1..];
      assert SortedByKey(t, sortOption) by {
        forall i, j | 0 <= i < j < |t| ensures SortKey(sortOption, t[i]) <= SortKey(sortOption, t[j]) {
          assert t[i] == s[i + 1] && t[j] == s[j + 1];
        }
      }
      InsertSorted(x, t, sortOption);
      var r' := Insert(x, t, sortOption);
      var r := [s[0]] + r';
      forall j | 0 <= j < |r'| ensures SortKey(sortOption, s[0]) <= SortKey(sortOption, r'[j]) {
        var y := r'[j];
        assert y in r';
        if y != x {
          var i :| 0 <= i < |t| && t[i] == y;
          assert s[i + 1] == y;
        }
      }
      forall i, j | 0 <= i < j < |r| ensures SortKey(sortOption, r[i]) <= SortKey(sortOption, r[j]) {
        assert r[j] == r'[j - 1];
        if i > 0 {
          assert r[i] == r'[i - 1];
        }
      }
    }
  }

  /** The sorted list is ordered by the key. */
  lemma {:induction false} SortOrdersSorted(s: seq<Order>, sortOption: string)
    ensures SortedByKey(SortOrders(s, sortOption), sortOption)
  {
    if s != [] {
      SortOrdersSorted(s[1..], sortOption);
      InsertSorted(s[0], SortOrders(s[1..], sortOption), sortOption);
    }
  }

  lemma {:induction false} InsertWithKey(x: Order, s: seq<Order>, sortOption: string, k: int)
    ensures WithKey(Insert(x, s, sortOption), sortOption, k)
         == (if SortKey(sortOption, x) == k then [x] else []) + WithKey(s, sortOption, k)
  {
    var kx := SortKey(sortOption, x);
    if s == [] {
      assert [x][1..] == [];
    } else if kx <= SortKey(sortOption, s[0]) {
      var r := [x] + s;
      assert r[0] == x && r[1..] == s;
    } else {
      var r' := Insert(x, s[1..], sortOption);
      var r := [s[0]] + r';
      assert Insert(x, s, sortOption) == r;
      assert r[0] == s[0] && r[1..] == r';
      InsertWithKey(x, s[1..], sortOption, k);
      var rest := WithKey(s[1..], sortOption, k);
      assert WithKey(r', sortOption, k) == (if kx == k then [x] else []) + rest;
      if SortKey(sortOption, s[0]) == k {
        assert kx != k;
        assert WithKey(r, sortOption, k) == [s[0]] + WithKey(r', sortOption, k);
      } else {
        assert WithKey(r, sortOption, k) == WithKey(r', sortOption, k);
      }
    }
  }

  /** The sort is stable: for every key, the orders with that key come out in the
      order they went in. */
  lemma {:induction false} SortOrdersStable(s: seq<Order>, sortOption: string, k: int)
    ensures WithKey(SortOrders(s, sortOption), sortOption, k) == WithKey(s, sortOption, k)
  {
    if s != [] {
      SortOrdersStable(s[1..], sortOption, k);
      InsertWithKey(s[0], SortOrders(s[1..], sortOption), sortOption, k);
    }
  }

  lemma SortedHeadIsLeast(u: seq<Order>, sortOption: string, y: Order)
    requires SortedByKey(u, sortOption) && y in u
    ensures SortKey(sortOption, u[0]) <= SortKey(sortOption, y)
  {
    var i :| 0 <= i < |u| && u[i] == y;
  }

  lemma {:induction false} SortedSameClassesEqual(t: seq<Order>, u: seq<Order>, sortOption: string)
    requires SortedByKey(t, sortOption) && SortedByKey(u, sortOption)
    requires forall k :: WithKey(t, sortOption, k) == WithKey(u, sortOption, k)
    ensures t == u
    decreases |t|
  {
    if t == [] || u == [] {
      var v := if t == [] then u else t;
      if v != [] {
        var k := SortKey(sortOption, v[0]);
        WithKeyMember(v, sortOption, k, v[0]);
      }
    } else {
      var a, b := t[0], u[0];
      var ka, kb := SortKey(sortOption, a), SortKey(sortOption, b);
      WithKeyMember(t, sortOption, ka, a);
      WithKeyMember(u, sortOption, ka, a);
      SortedHeadIsLeast(u, sortOption, a);
      WithKeyMember(u, sortOption, kb, b);
      WithKeyMember(t, sortOption, kb, b);
      SortedHeadIsLeast(t, sortOption, b);
      assert WithKey(t, sortOption, ka) == [a] + WithKey(t[1..], sortOption, ka);
      assert WithKey(u, sortOption, ka) == [b] + WithKey(u[1..], sortOption, ka);
      assert WithKey(t, sortOption, ka) == WithKey(u, sortOption, ka);
      assert WithKey(t, sortOption, ka)[0] == a && WithKey(u, sortOption, ka)[0] == b;
      forall k ensures WithKey(t[1..], sortOption, k) == WithKey(u[1..], sortOption, k) {
        if k == ka {
          assert ([a] + WithKey(t[1..], sortOption, k))[1..] == WithKey(t[1..], sortOption, k);
          assert ([b] + WithKey(u[1..], sortOption, k))[1..] == WithKey(u[1..], sortOption, k);
        } else {
          assert WithKey(t, sortOption, k) == WithKey(t[1..], sortOption, k);
          assert WithKey(u, sortOption, k) == WithKey(u[1..], sortOption, k);
        }
      }
      assert SortedByKey(t[1..], sortOption) by {
        forall i, j | 0 <= i < j < |t[1..]| ensures SortKey(sortOption, t[1..][i]) <= SortKey(sortOption, t[1..][j]) {
          assert t[1..][i] == t[i + 1] && t[1..][j] == t[j + 1];
        }
      }
      assert SortedByKey(u[1..], sortOption) by {
        forall i, j | 0 <= i < j < |u[1..]| ensures SortKey(sortOption, u[1..][i]) <= SortKey(sortOption, u[1..][j]) {
          assert u[1..][i] == u[i + 1] && u[1..][j] == u[j + 1];
        }
      }
      SortedSameClassesEqual(t[1..], u[1..], sortOption);
      assert t == [a] + t[1..] && u == [b] + u[1..];
    }
  }

  /** Any arrangement that is ordered by the key and keeps equal-key orders in input
      order is the one `SortOrders` gives: every stable sort with this comparator
      produces the same list. */
  lemma StableSortIsUnique(s: seq<Order>, t: seq<Order>, sortOption: string)
    requires SortedByKey(t, sortOption)
    requires forall k :: WithKey(t, sortOption, k) == WithKey(s, sortOption, k)
    ensures t == SortOrders(s, sortOption)
  {
    var u := SortOrders(s, sortOption);
    SortOrdersSorted(s, sortOption);
    forall k ensures WithKey(t, sortOption, k) == WithKey(u, sortOption, k) {
      SortOrdersStable(s, sortOption, k);
    }
    SortedSameClassesEqual(t, u, sortOption);
  }

  lemma {:induction false} WithKeyAll(s: seq<Order>, sortOption: string, k: int)
    requires forall i :: 0 <= i < |s| ==> SortKey(sortOption, s[i]) == k
    ensures WithKey(s, sortOption, k) == s
  {
    if s != [] {
      WithKeyAll(s[1..], sortOption, k);
    }
  }

  /** An option none of the comparator's cases names compares every pair as equal,
      and the stable sort leaves the list as it is. */
  lemma UnknownOptionKeepsOrder(s: seq<Order>, sortOption: string)
    requires sortOption !in SortOptions
    ensures SortOrders(s, sortOption) == s
  {
    var r := SortOrders(s, sortOption);
    assert forall i :: 0 <= i < |s| ==> SortKey(sortOption, s[i]) == 0;
    assert forall i :: 0 <= i < |r| ==> SortKey(sortOption, r[i]) == 0;
    WithKeyAll(s, sortOption, 0);
    WithKeyAll(r, sortOption, 0);
    SortOrdersStable(s, sortOption, 0);
  }

  // ---------------------------------------------------------------------------
  // The displayed list

  /** `filteredAndSortedOrders` */
  function FilteredAndSortedOrders(orders: seq<Order>, selectedStatus: string, sortOption: string): (r: seq<Order>)
    ensures multiset(r) == multiset(FilterByStatus(orders, selectedStatus))
  {
    SortOrders(FilterByStatus(orders, selectedStatus), sortOption)
  }

  /** The displayed list holds exactly the orders that pass the filter, each as
      often as in the input; with "all" it is a permutation of the input. */
  lemma FilteredAndSortedContents(orders: seq<Order>, selectedStatus: string, sortOption: string)
    ensures var r := FilteredAndSortedOrders(orders, selectedStatus, sortOption);
      && multiset(r) == multiset(FilterByStatus(orders, selectedStatus))
      && (forall o :: o in r <==> o in orders && PassesFilter(o, selectedStatus))
      && (selectedStatus == "all" ==> multiset(r) == multiset(orders))
  {
    var f := FilterByStatus(orders, selectedStatus);
    var r := SortOrders(f, sortOption);
    assert forall o :: o in r <==> o in multiset(r);
    assert forall o :: o in f <==> o in multiset(f);
    if selectedStatus == "all" {
      FilterAll(orders);
    }
  }

  /** The displayed list is ordered as the chosen option says; an unknown option
      shows the filtered orders in their original order. */
  lemma FilteredAndSortedOrder(orders: seq<Order>, selectedStatus: string, sortOption: string)
    ensures var r := FilteredAndSortedOrders(orders, selectedStatus, sortOption);
      && (sortOption == "priceAsc" ==>
            forall i, j :: 0 <= i < j < |r| ==> CalculateOrderTotal(r[i]) <= CalculateOrderTotal(r[j]))
      && (sortOption == "priceDesc" ==>
            forall i, j :: 0 <= i < j < |r| ==> CalculateOrderTotal(r[i]) >= CalculateOrderTotal(r[j]))
      && (sortOption == "newest" ==>
            forall i, j :: 0 <= i < j < |r| ==> r[i].createdAt >= r[j].createdAt)
      && (sortOption == "oldest" ==>
            forall i, j :: 0 <= i < j < |r| ==> r[i].createdAt <= r[j].createdAt)
      && (sortOption !in SortOptions ==> r == FilterByStatus(orders, selectedStatus))
  {
    var f := FilterByStatus(orders, selectedStatus);
    SortOrdersSorted(f, sortOption);
    if sortOption !in SortOptions {
      UnknownOptionKeepsOrder(f, sortOption);
    }
  }
}
