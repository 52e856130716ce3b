/** The records the client receives from the backend, as the views use them
    (the declarations of `@/types` are not part of this model; these are inferred
    from the fields the core reads). Amounts are whole paise. */
module Types {

  datatype Option<T> = None | Some(value: T)

  datatype MenuItem = MenuItem(id: string, name: string, price: int)

  datatype Restaurant = Restaurant(
    id: string,
    restaurantName: string,
    deliveryPrice: int,
    menuItems: seq<MenuItem>)

  /** A line of a stored order: the quantity is kept as a string. */
  datatype OrderLine = OrderLine(menuItemId: string, name: string, quantity: string)

  /** The delivery details of a checkout request or a stored order; a field the
      sender left undefined is `None`. */
  datatype DeliveryDetails = DeliveryDetails(
    email: Option<string>,
    name: Option<string>,
    addressLine1: Option<string>,
    city: Option<string>,
    country: Option<string>)

  /** A stored order; `createdAt` is the creation time as an integer timestamp. */
  datatype Order = Order(
    id: string,
    status: string,
    createdAt: int,
    cartItems: seq<OrderLine>,
    restaurant: Restaurant,
    deliveryDetails: DeliveryDetails,
    totalAmount: int)

  /** `menu.find(mi => mi._id === id)`: the first menu item with that id. */
  function FindMenuItem(menu: seq<MenuItem>, id: string): (r: Option<MenuItem>)
    ensures r.None? <==> forall i :: 0 <= i < |menu| ==> menu[i].id != id
    ensures r.Some? ==> exists i :: 0 <= i < |menu| && menu[i] == r.value && menu[i].id == id
                                    && forall j :: 0 <= j < i ==> menu[j].id != id
  {
    if menu == [] then None
    else if menu[0].id == id then Some(menu[0])
    else
      var r := FindMenuItem(menu[1..], id);
      assert r.Some? ==> exists i :: 0 <= i < |menu[1..]| && menu[1..][i] == r.value && menu[1..][i].id == id
                                    && forall j :: 0 <= j < i ==> menu[1..][j].id != id;
      assert r.Some? ==> exists i :: 1 <= i < |menu| && menu[i] == r.value && menu[i].id == id
                                    && forall j :: 0 <= j < i ==> menu[j].id != id;
      r
  }

  /** `menu.find(mi => mi._id === id)?.price || 0`: the price of the first item with
      that id, and 0 when there is none (a price of 0 stays 0). */
  function MenuPriceOrZero(menu: seq<MenuItem>, id: string): int {
    match FindMenuItem(menu, id)
    case Some(m) => m.price
    case None => 0
  }
}

/** Sums of amounts, as integers and as JavaScript numbers. */
module Amounts {
  import opened EcmaScript

  function Sum(xs: seq<int>): int {
    if xs == [] then 0 else xs[0] + Sum(xs[1..])
  }

  lemma {:induction false} SumConcat(a: seq<int>, b: seq<int>)
    ensures Sum(a + b) == Sum(a) + Sum(b)
  {
    if a == [] {
      assert a + b == b;
    } else {
      assert (a + b)[1..] == a[1..] + b;
      SumConcat(a[1..], b);
    }
  }

  /** A sum of JavaScript numbers: NaN as soon as one of them is. */
  function SumNumbers(xs: seq<Number>): Number {
    if xs == [] then Finite(0) else Add(xs[0], SumNumbers(xs[1..]))
  }

  predicate AllFinite(xs: seq<Number>) {
    forall i :: 0 <= i < |xs| ==> xs[i].Finite?
  }

  /** The integer values of numbers that are all finite. */
  function Values(xs: seq<Number>): (r: seq<int>)
    requires AllFinite(xs)
    ensures |r| == |xs| && forall i :: 0 <= i < |xs| ==> xs[i] == Finite(r[i])
  {
    seq(|xs|, i requires 0 <= i < |xs| => xs[i].value)
  }

  /** A sum of numbers is a number exactly when all of them are, and is then the sum
      of their values. */
  lemma {:induction false} SumNumbersValue(xs: seq<Number>)
    ensures SumNumbers(xs).Finite? <==> AllFinite(xs)
    ensures AllFinite(xs) ==> SumNumbers(xs) == Finite(Sum(Values(xs)))
  {
    if xs != [] {
      SumNumbersValue(xs[1..]);
      if xs[0].Finite? && AllFinite(xs[1..]) {
        forall i | 0 <= i < |xs|
          ensures xs[i].Finite?
        {
          if i > 0 {
            assert xs[i] == xs[1..][i - 1];
          }
        }
        assert Values(xs)[1..] == Values(xs[1..]);
      }
    }
  }

  /** A `reduce` that adds up an amount per element, starting from 0. */
  function SumOver<T>(xs: seq<T>, amount: T -> Number): Number {
    if xs == [] then Finite(0) else Add(amount(xs[0]), SumOver(xs[1..], amount))
  }

  /** The amounts of the elements, in order: the `map` a view lists them with. */
  function MapOver<T>(xs: seq<T>, amount: T -> Number): (r: seq<Number>)
    ensures |r| == |xs|
    ensures forall i :: 0 <= i < |xs| ==> r[i] == amount(xs[i])
  {
    seq(|xs|, i requires 0 <= i < |xs| => amount(xs[i]))
  }

  /** Summing the listed amounts gives the `reduce`. */
  lemma {:induction false} SumOverMap<T>(xs: seq<T>, amount: T -> Number)
    ensures SumNumbers(MapOver(xs, amount)) == SumOver(xs, amount)
  {
    if xs != [] {
      SumOverMap(xs[1..], amount);
      assert MapOver(xs, amount)[1..] == MapOver(xs[1..], amount);
    }
  }

  /** The `reduce` is additive over concatenation. */
  lemma {:induction false} SumOverConcat<T>(a: seq<T>, b: seq<T>, amount: T -> Number)
    ensures SumOver(a + b, amount) == Add(SumOver(a, amount), SumOver(b, amount))
  {
    if a == [] {
      assert a + b == b;
    } else {
      assert (a + b)[0] == a[0];
      assert (a + b)[1..] == a[1..] + b;
      SumOverConcat(a[1..], b, amount);
    }
  }
}
