/** The restaurant page's cart: adding and removing lines, the cart's total cost,
    the copy of the cart kept in session storage under a per-restaurant key, and
    the checkout request built from the cart. */
module DetailPage {
  import opened Types
  import opened EcmaScript

  /** A cart line: a menu item's id, name and unit price, and how many of it. */
  datatype CartItem = CartItem(id: string, name: string, price: int, quantity: int)

  /** `cart.find(line => line._id === id)` */
  function FindLine(cart: seq<CartItem>, id: string): (r: Option<CartItem>)
    ensures r.None? <==> forall i :: 0 <= i < |cart| ==> cart[i].id != id
    ensures r.Some? ==> r.value in cart && r.value.id == id
  {
    if cart == [] then None
    else if cart[0].id == id then Some(cart[0])
    else FindLine(cart[1..], id)
  }

  /** The `map` that adds one to the quantity of every line with the given id. */
  function IncrementLines(cart: seq<CartItem>, id: string): seq<CartItem> {
    seq(|cart|, i requires 0 <= i < |cart| =>
      if cart[i].id == id then cart[i].(quantity := cart[i].quantity + 1) else cart[i])
  }

  /** The cart after `addToCart(item)`: when a line for the item exists its quantity
      goes up by one, otherwise a line with quantity 1 is appended. */
  function AddItem(cart: seq<CartItem>, item: MenuItem): (r: seq<CartItem>)
    ensures |r| == if FindLine(cart, item.id).Some? then |cart| else |cart| + 1
    ensures forall i :: 0 <= i < |cart| ==> r[i].id == cart[i].id && r[i].price == cart[i].price
    ensures FindLine(r, item.id).Some?
  {
    if FindLine(cart, item.id).Some? then IncrementLines(cart, item.id)
    else
      var r := cart + [CartItem(item.id, item.name, item.price, 1)];
      assert r[|cart|].id == item.id;
      r
  }

  /** The cart after `removeFromCart` of a line with the given id: the `filter` that
      keeps the lines with a different id, in their order. */
  function RemoveLines(cart: seq<CartItem>, id: string): (r: seq<CartItem>)
    ensures |r| <= |cart|
    ensures forall i :: 0 <= i < |r| ==> r[i].id != id
  {
    if cart == [] then []
    else if cart[0].id != id then [cart[0]] + RemoveLines(cart[1..], id)
    else RemoveLines(cart[1..], id)
  }

  function LineCost(item: CartItem): int {
    item.quantity * item.price
  }

  /** `getTotalCost(cart)`: the sum of quantity times price over the lines (the
      `reduce` folds from the left; integer addition gives the same sum). */
  function TotalCost(cart: seq<CartItem>): int {
    if cart == [] then 0 else LineCost(cart[0]) + TotalCost(cart[1..])
  }

  ghost predicate UniqueIds(cart: seq<CartItem>) {
    forall i, j :: 0 <= i < j < |cart| ==> cart[i].id != cart[j].id
  }

  // ---------------------------------------------------------------------------
  // Adding and removing lines

  /** Adding an item that has a line in a cart with unique ids changes only that
      line, whose quantity goes up by one; length and order are kept. */
  lemma AddExisting(cart: seq<CartItem>, item: MenuItem, k: nat)
    requires UniqueIds(cart)
    requires k < |cart| && cart[k].id == item.id
    ensures AddItem(cart, item) == cart[k := cart[k].(quantity := cart[k].quantity + 1)]
  {
    assert FindLine(cart, item.id).Some?;
    var r := AddItem(cart, item);
    forall i | 0 <= i < |cart|
      ensures r[i] == cart[k := cart[k].(quantity := cart[k].quantity + 1)][i]
    {
      if i != k {
        assert cart[i].id != item.id;
      }
    }
  }

  /** Adding an item with no line appends the line {id, name, price, quantity 1}. */
  lemma AddNew(cart: seq<CartItem>, item: MenuItem)
    requires forall i :: 0 <= i < |cart| ==> cart[i].id != item.id
    ensures AddItem(cart, item) == cart + [CartItem(item.id, item.name, item.price, 1)]
  {
  }

  lemma AddPreservesUniqueIds(cart: seq<CartItem>, item: MenuItem)
    requires UniqueIds(cart)
    ensures UniqueIds(AddItem(cart, item))
  {
    if FindLine(cart, item.id).Some? {
      var r := AddItem(cart, item);
      assert forall i :: 0 <= i < |cart| ==> r[i].id == cart[i].id;
    }
  }

  lemma {:induction false} RemoveLinesConcat(a: seq<CartItem>, b: seq<CartItem>, id: string)
    ensures RemoveLines(a + b, id) == RemoveLines(a, id) + RemoveLines(b, id)
  {
    if a == [] {
      assert a + b == b;
    } else {
      assert (a + b)[0] == a[0];
      assert (a + b)[1..] == a[1..] + b;
      RemoveLinesConcat(a[1..], b, id);
    }
  }

  /** Removing an id that no line has leaves the cart as it was. */
  lemma {:induction false} RemoveAbsent(cart: seq<CartItem>, id: string)
    requires forall i :: 0 <= i < |cart| ==> cart[i].id != id
    ensures RemoveLines(cart, id) == cart
  {
    if cart != [] {
      RemoveAbsent(cart[1..], id);
    }
  }

  /** The lines left are exactly the original lines with a different id. */
  lemma {:induction false} RemoveLinesContents(cart: seq<CartItem>, id: string)
    ensures forall x :: x in RemoveLines(cart, id) <==> x in cart && x.id != id
  {
    if cart != [] {
      RemoveLinesContents(cart[1..], id);
      assert cart == [cart[0]] + cart[1..];
    }
  }

  lemma {:induction false} RemovePreservesUniqueIds(cart: seq<CartItem>, id: string)
    requires UniqueIds(cart)
    ensures UniqueIds(RemoveLines(cart, id))
  {
    if cart != [] {
      var tail := cart[1..];
      assert UniqueIds(tail) by {
        forall i, j | 0 <= i < j < |tail| ensures tail[i].id != tail[j].id {
          assert tail[i] == cart[i + 1] && tail[j] == cart[j + 1];
        }
      }
      RemovePreservesUniqueIds(tail, id);
      if cart[0].id != id {
        var rest := RemoveLines(tail, id);
        RemoveLinesContents(tail, id);
        var r := [cart[0]] + rest;
        forall i, j | 0 <= i < j < |r| ensures r[i].id != r[j].id {
          if i == 0 {
            assert r[j] == rest[j - 1] && rest[j - 1] in tail;
            var m :| 0 <= m < |tail| && tail[m] == rest[j - 1];
            assert cart[m + 1] == tail[m];
          } else {
            assert r[i] == rest[i - 1] && r[j] == rest[j - 1];
          }
        }
      }
    }
  }

  /** Removing the same id twice is the same as removing it once. */
  lemma RemoveIdempotent(cart: seq<CartItem>, id: string)
    ensures RemoveLines(RemoveLines(cart, id), id) == RemoveLines(cart, id)
  {
    RemoveAbsent(RemoveLines(cart, id), id);
  }

  lemma {:induction false} RemoveOnlyLine(cart: seq<CartItem>, k: nat)
    requires k < |cart|
    requires forall i :: 0 <= i < |cart| && i != k ==> cart[i].id != cart[k].id
    ensures RemoveLines(cart, cart[k].id) == cart[..k] + cart[k + 1..]
  {
    var id, tail := cart[k].id, cart[1..];
    if k == 0 {
      assert forall i :: 0 <= i < |tail| ==> tail[i] == cart[i + 1];
      RemoveAbsent(tail, id);
    } else {
      assert tail[k - 1] == cart[k];
      assert forall i :: 0 <= i < |tail| ==> tail[i] == cart[i + 1];
      RemoveOnlyLine(tail, k - 1);
      assert cart[..k] == [cart[0]] + tail[..k - 1];
      assert cart[k + 1..] == tail[k..];
    }
  }

  /** In a cart with unique ids, removing a line's id takes out exactly that line. */
  lemma RemoveUniqueLine(cart: seq<CartItem>, k: nat)
    requires UniqueIds(cart) && k < |cart|
    ensures RemoveLines(cart, cart[k].id) == cart[..k] + cart[k + 1..]
  {
    RemoveOnlyLine(cart, k);
  }

  // ---------------------------------------------------------------------------
  // Total cost

  /** With non-negative quantities and prices the cart's cost is not negative. */
  lemma {:induction false} TotalCostNonNegative(cart: seq<CartItem>)
    requires forall i :: 0 <= i < |cart| ==> cart[i].quantity >= 0 && cart[i].price >= 0
    ensures TotalCost(cart) >= 0
  {
    if cart != [] {
      var tail := cart[1..];
      assert forall i :: 0 <= i < |tail| ==> tail[i] == cart[i + 1];
      TotalCostNonNegative(tail);
      var q, p := cart[0].quantity, cart[0].price;
      assert q * p >= 0 by {
        assert q >= 0 && p >= 0;
      }
    }
  }

  lemma {:induction false} TotalCostConcat(a: seq<CartItem>, b: seq<CartItem>)
    ensures TotalCost(a + b) == TotalCost(a) + TotalCost(b)
  {
    if a == [] {
      assert a + b == b;
    } else {
      assert (a + b)[0] == a[0];
      assert (a + b)[1..] == a[1..] + b;
      TotalCostConcat(a[1..], b);
    }
  }

  lemma TotalCostUpdate(cart: seq<CartItem>, k: nat, y: CartItem)
    requires k < |cart|
    ensures TotalCost(cart[k := y]) == TotalCost(cart) - LineCost(cart[k]) + LineCost(y)
  {
    assert cart == cart[..k] + ([cart[k]] + cart[k + 1..]);
    assert cart[k := y] == cart[..k] + ([y] + cart[k + 1..]);
    TotalCostConcat(cart[..k], [cart[k]] + cart[k + 1..]);
    TotalCostConcat(cart[..k], [y] + cart[k + 1..]);
    TotalCostConcat([cart[k]], cart[k + 1..]);
    TotalCostConcat([y], cart[k + 1..]);
  }

  lemma OneMore(q: int, p: int)
    ensures (q + 1) * p == q * p + p
  {
  }

  /** One more unit of a line raises the total by the line's price. */
  lemma TotalCostIncrement(cart: seq<CartItem>, k: nat)
    requires k < |cart|
    ensures TotalCost(cart[k := cart[k].(quantity := cart[k].quantity + 1)]) == TotalCost(cart) + cart[k].price
  {
    var y := cart[k].(quantity := cart[k].quantity + 1);
    TotalCostUpdate(cart, k, y);
    assert LineCost(y) == LineCost(cart[k]) + cart[k].price by {
      OneMore(cart[k].quantity, cart[k].price);
    }
  }

  lemma TotalCostAfterAddExisting(cart: seq<CartItem>, item: MenuItem, k: nat)
    requires UniqueIds(cart)
    requires k < |cart| && cart[k].id == item.id
    ensures TotalCost(AddItem(cart, item)) == TotalCost(cart) + cart[k].price
  {
    AddExisting(cart, item, k);
    TotalCostIncrement(cart, k);
  }

  /** With unique ids, adding an item with a line raises the total by that line's
      stored price; adding a new item raises it by the item's price. */
  lemma TotalCostAfterAdd(cart: seq<CartItem>, item: MenuItem)
    requires UniqueIds(cart)
    ensures forall k :: 0 <= k < |cart| && cart[k].id == item.id ==>
              TotalCost(AddItem(cart, item)) == TotalCost(cart) + cart[k].price
    ensures (forall i :: 0 <= i < |cart| ==> cart[i].id != item.id) ==>
              TotalCost(AddItem(cart, item)) == TotalCost(cart) + item.price
  {
    forall k | 0 <= k < |cart| && cart[k].id == item.id
      ensures TotalCost(AddItem(cart, item)) == TotalCost(cart) + cart[k].price
    {
      TotalCostAfterAddExisting(cart, item, k);
    }
    if forall i :: 0 <= i < |cart| ==> cart[i].id != item.id {
      AddNew(cart, item);
      TotalCostConcat(cart, [CartItem(item.id, item.name, item.price, 1)]);
    }
  }

  lemma TotalCostWithout(cart: seq<CartItem>, k: nat)
    requires k < |cart|
    ensures TotalCost(cart[..k] + cart[k + 1..]) == TotalCost(cart) - LineCost(cart[k])
  {
    var pre, post := cart[..k], cart[k + 1..];
    assert cart == pre + ([cart[k]] + post);
    TotalCostConcat(pre, [cart[k]] + post);
    TotalCostConcat([cart[k]], post);
    TotalCostConcat(pre, post);
    assert TotalCost([cart[k]]) == LineCost(cart[k]);
  }

  /** With unique ids, removing a line lowers the total by that line's price times
      its quantity. */
  lemma TotalCostAfterRemove(cart: seq<CartItem>, k: nat)
    requires UniqueIds(cart) && k < |cart|
    ensures TotalCost(RemoveLines(cart, cart[k].id)) == TotalCost(cart) - cart[k].quantity * cart[k].price
  {
    RemoveUniqueLine(cart, k);
    TotalCostWithout(cart, k);
  }

  // ---------------------------------------------------------------------------
  // Checkout

  /** The checkout form's data; a field the form does not supply is `None`
      (undefined). */
  datatype UserFormData = UserFormData(
    email: Option<string>,
    name: Option<string>,
    addressLine1: Option<string>,
    city: Option<string>,
    country: Option<string>)

  /** `{} as UserFormData`, which is what the page's Checkout button passes. */
  const EmptyForm := UserFormData(None, None, None, None, None)

  /** A line of the checkout request; the quantity travels as a decimal string. */
  datatype CheckoutLine = CheckoutLine(menuItemId: string, name: string, quantity: string, price: int)

  datatype CheckoutRequest = CheckoutRequest(
    cartItems: seq<CheckoutLine>,
    restaurantId: string,
    deliveryDetails: DeliveryDetails,
    totalAmount: int)

  function CheckoutLineOf(item: CartItem): (r: CheckoutLine)
    ensures r.menuItemId == item.id && r.name == item.name && r.price == item.price
    ensures ParseInt(r.quantity) == Finite(item.quantity) && ParseFloat(r.quantity) == Finite(item.quantity)
  {
    ParseIntOfIntToString(item.quantity);
    CheckoutLine(item.id, item.name, IntToString(item.quantity), item.price)
  }

  /** The request `onCheckout(userFormData)` sends: none while the restaurant has
      not loaded; otherwise one line per cart line, the form's delivery fields, and
      a total of the cart's cost plus the restaurant's delivery price. */
  function Checkout(cart: seq<CartItem>, restaurant: Option<Restaurant>, form: UserFormData)
    : (r: Option<CheckoutRequest>)
    ensures r.None? <==> restaurant.None?
    ensures r.Some? ==> r.value.restaurantId == restaurant.value.id
    ensures r.Some? ==>
              r.value.deliveryDetails == DeliveryDetails(form.email, form.name, form.addressLine1, form.city, form.country)
  {
    match restaurant
    case None => None
    case Some(rest) =>
      Some(CheckoutRequest(
        seq(|cart|, i requires 0 <= i < |cart| => CheckoutLineOf(cart[i])),
        rest.id,
        DeliveryDetails(form.email, form.name, form.addressLine1, form.city, form.country),
        TotalCost(cart) + rest.deliveryPrice))
  }

  /** A click on the page's Checkout button, which calls `onCheckout` with an empty
      form. The button is disabled for an empty cart and only shown once the
      restaurant has loaded. A request is sent exactly for a non-empty cart of a
      loaded restaurant, and it carries no delivery details: every field is
      undefined. */
  function CheckoutButton(cart: seq<CartItem>, restaurant: Option<Restaurant>): (r: Option<CheckoutRequest>)
    ensures r.Some? <==> cart != [] && restaurant.Some?
    ensures r.Some? ==> r.value.deliveryDetails == DeliveryDetails(None, None, None, None, None)
  {
    if cart == [] then None else Checkout(cart, restaurant, EmptyForm)
  }

  /** The checkout request carries every cart line, in order, under its id, with a
      quantity string that `parseInt` reads back as the line's quantity, and a
      total that is the page's total cost plus the delivery price. */
  lemma CheckoutPayload(cart: seq<CartItem>, restaurant: Restaurant, form: UserFormData)
    ensures var r := Checkout(cart, Some(restaurant), form);
      && r.Some?
      && r.value.totalAmount == TotalCost(cart) + restaurant.deliveryPrice
      && |r.value.cartItems| == |cart|
      && forall i :: 0 <= i < |cart| ==>
           && r.value.cartItems[i].menuItemId == cart[i].id
           && r.value.cartItems[i].name == cart[i].name
           && r.value.cartItems[i].price == cart[i].price
           && ParseInt(r.value.cartItems[i].quantity) == Finite(cart[i].quantity)
  {
    forall i | 0 <= i < |cart| ensures ParseInt(IntToString(cart[i].quantity)) == Finite(cart[i].quantity) {
      ParseIntOfIntToString(cart[i].quantity);
    }
  }

  // ---------------------------------------------------------------------------
  // Session storage

  /** `cartItems-<restaurantId>` */
  function StorageKey(restaurantId: string): string {
    "cartItems-" + restaurantId
  }

  lemma StorageKeyInjective(a: string, b: string)
    requires StorageKey(a) == StorageKey(b)
    ensures a == b
  {
    assert a == StorageKey(a)[10..];
    assert b == StorageKey(b)[10..];
  }

  /** What the page loads for a restaurant: the stored cart, or an empty one. */
  function StoredCart(storage: map<string, seq<CartItem>>, restaurantId: string): seq<CartItem> {
    var key := StorageKey(restaurantId);
    if key in storage then storage[key] else []
  }

  /** Every cart kept in the storage has unique ids. */
  ghost predicate StoredCartsUnique(storage: map<string, seq<CartItem>>) {
    forall key :: key in storage ==> UniqueIds(storage[key])
  }

  /** The page's cart state for one restaurant, together with the session storage
      the page writes it to. */
  class CartSession {
    const restaurantId: string
    var cartItems: seq<CartItem>
    var sessionStorage: map<string, seq<CartItem>>

    /** The in-memory cart is the one stored for this restaurant. */
    ghost predicate Valid()
      reads this
    {
      cartItems == StoredCart(sessionStorage, restaurantId)
    }

    /** The page opens with the stored cart for the restaurant, or an empty cart. */
    constructor (restaurantId: string, sessionStorage: map<string, seq<CartItem>>)
      ensures this.restaurantId == restaurantId && this.sessionStorage == sessionStorage
      ensures cartItems == StoredCart(sessionStorage, restaurantId)
      ensures Valid()
      ensures StoredCartsUnique(sessionStorage) ==> UniqueIds(cartItems)
    {
      this.restaurantId := restaurantId;
      this.sessionStorage := sessionStorage;
      this.cartItems := StoredCart(sessionStorage, restaurantId);
    }

    /** `addToCart(menuItem)`: updates the cart and writes it under this
        restaurant's key; the carts stored for other restaurants are untouched.
        Unique ids are kept, and the cart's cost goes up by the price of the line
        the item is counted in. */
    method AddToCart(menuItem: MenuItem)
      requires Valid()
      modifies this
      ensures cartItems == AddItem(old(cartItems), menuItem)
      ensures sessionStorage == old(sessionStorage)[StorageKey(restaurantId) := cartItems]
      ensures Valid()
      ensures forall other :: other != restaurantId ==>
                StoredCart(sessionStorage, other) == StoredCart(old(sessionStorage), other)
      ensures UniqueIds(old(cartItems)) ==> UniqueIds(cartItems)
      ensures StoredCartsUnique(old(sessionStorage)) ==> StoredCartsUnique(sessionStorage)
      ensures UniqueIds(old(cartItems)) ==>
                forall k :: 0 <= k < |old(cartItems)| && old(cartItems)[k].id == menuItem.id ==>
                  TotalCost(cartItems) == TotalCost(old(cartItems)) + old(cartItems)[k].price
      ensures UniqueIds(old(cartItems)) && FindLine(old(cartItems), menuItem.id).None? ==>
                TotalCost(cartItems) == TotalCost(old(cartItems)) + menuItem.price
    {
      var updated := AddItem(cartItems, menuItem);
      if UniqueIds(cartItems) {
        AddPreservesUniqueIds(cartItems, menuItem);
        TotalCostAfterAdd(cartItems, menuItem);
      }
      sessionStorage := sessionStorage[StorageKey(restaurantId) := updated];
      cartItems := updated;
      StorageWrite(old(sessionStorage), restaurantId, updated);
    }

    /** `removeFromCart(cartItem)`: drops every line with the item's id and writes
        the cart under this restaurant's key; the carts stored for other restaurants
        are untouched. Unique ids are kept, and the cart's cost goes down by the
        removed line's price times quantity. */
    method RemoveFromCart(cartItem: CartItem)
      requires Valid()
      modifies this
      ensures cartItems == RemoveLines(old(cartItems), cartItem.id)
      ensures sessionStorage == old(sessionStorage)[StorageKey(restaurantId) := cartItems]
      ensures Valid()
      ensures forall other :: other != restaurantId ==>
                StoredCart(sessionStorage, other) == StoredCart(old(sessionStorage), other)
      ensures UniqueIds(old(cartItems)) ==> UniqueIds(cartItems)
      ensures StoredCartsUnique(old(sessionStorage)) ==> StoredCartsUnique(sessionStorage)
      ensures UniqueIds(old(cartItems)) ==>
                forall k :: 0 <= k < |old(cartItems)| && old(cartItems)[k].id == cartItem.id ==>
                  TotalCost(cartItems) == TotalCost(old(cartItems)) - LineCost(old(cartItems)[k])
      ensures FindLine(old(cartItems), cartItem.id).None? ==> cartItems == old(cartItems)
    {
      var updated := RemoveLines(cartItems, cartItem.id);
      if UniqueIds(cartItems) {
        RemovePreservesUniqueIds(cartItems, cartItem.id);
        forall k | 0 <= k < |cartItems| && cartItems[k].id == cartItem.id
          ensures TotalCost(updated) == TotalCost(cartItems) - LineCost(cartItems[k])
        {
          TotalCostAfterRemove(cartItems, k);
        }
      }
      if FindLine(cartItems, cartItem.id).None? {
        RemoveAbsent(cartItems, cartItem.id);
      }
      sessionStorage := sessionStorage[StorageKey(restaurantId) := updated];
      cartItems := updated;
      StorageWrite(old(sessionStorage), restaurantId, updated);
    }
  }

  /** Writing a cart under one restaurant's key leaves every other restaurant's
      stored cart as it was, and keeps the stored carts' ids unique when the
      written cart's are. */
  lemma StorageWrite(storage: map<string, seq<CartItem>>, restaurantId: string, cart: seq<CartItem>)
    ensures forall other :: other != restaurantId ==>
              StoredCart(storage[StorageKey(restaurantId) := cart], other) == StoredCart(storage, other)
    ensures StoredCartsUnique(storage) && UniqueIds(cart) ==>
              StoredCartsUnique(storage[StorageKey(restaurantId) := cart])
  {
    forall other | other != restaurantId
      ensures StoredCart(storage[StorageKey(restaurantId) := cart], other) == StoredCart(storage, other)
    {
      if StorageKey(other) == StorageKey(restaurantId) {
        StorageKeyInjective(other, restaurantId);
      }
    }
  }
}
