/** The order requests of the client: the clean-up applied to fetched orders and
    invoices, the error handling around creating a checkout session and updating
    an order's status, and the retry schedule of the checkout mutation. The HTTP
    requests themselves are parameters: each operation receives what its request
    produced, a response body or a thrown exception. */
module OrderApi {
  import opened EcmaScript

  const Zero := JsNumber(Finite(0))
  const One := JsNumber(Finite(1))

  // ---------------------------------------------------------------------------
  // Fetched orders

  /** `price: typeof item.price === 'number' ? item.price : 0` */
  function NormalPrice(v: JsValue): (r: JsValue)
    ensures r.JsNumber?
    ensures v.JsNumber? ==> r == v
    ensures !v.JsNumber? ==> r == Zero
  {
    if v.JsNumber? then v else Zero
  }

  /** What a cleaned-up line of a fetched order looks like: its price is the original
      one when that was a number and 0 otherwise, its quantity falls back to "1" when
      falsy, and every other property is the original one. */
  ghost predicate NormalizedOrderItem(item: JsValue, r: JsValue) {
    r.JsObject?
    && Get(r, "price") == NormalPrice(Get(item, "price"))
    && Get(r, "quantity") == Or(Get(item, "quantity"), JsString("1"))
    && forall k :: k != "price" && k != "quantity" ==> Get(r, k) == Get(item, k)
  }

  /** `{...item, price: …, quantity: item.quantity || '1'}`: reading a property of a
      null or undefined line throws a TypeError. */
  function NormalizeOrderItem(item: JsValue): (r: Completion<JsValue>)
    ensures r.Normal? <==> !IsNullish(item)
    ensures r.Normal? ==> NormalizedOrderItem(item, r.value)
  {
    if IsNullish(item) then Throw(TypeError)
    else
      Normal(JsObject(Spread(item)["price" := NormalPrice(Get(item, "price"))]
                                  ["quantity" := Or(Get(item, "quantity"), JsString("1"))]))
  }

  /** `order.cartItems.map(…)` over the elements of an array: the first line that
      throws ends the map with its exception. */
  function NormalizeOrderItems(items: seq<JsValue>): (r: Completion<seq<JsValue>>)
    ensures r.Normal? <==> forall i :: 0 <= i < |items| ==> !IsNullish(items[i])
    ensures r.Normal? ==> |r.value| == |items|
    ensures r.Normal? ==> forall i :: 0 <= i < |items| ==> NormalizeOrderItem(items[i]) == Normal(r.value[i])
  {
    if items == [] then Normal([])
    else
      match NormalizeOrderItem(items[0])
      case Throw(e) => Throw(e)
      case Normal(x) =>
        match NormalizeOrderItems(items[1..])
        case Throw(e) => Throw(e)
        case Normal(xs) =>
          assert forall i :: 1 <= i < |items| ==> items[i] == items[1..][i - 1];
          Normal([x] + xs)
  }

  /** `{...order, cartItems: order.cartItems.map(…), totalAmount: …}`: a null or
      undefined order, or one whose `cartItems` is not an array, throws a TypeError
      (reading `cartItems`, or calling a `map` that is not there). */
  function NormalizeOrder(order: JsValue): Completion<JsValue> {
    if IsNullish(order) then Throw(TypeError)
    else
      var items := Get(order, "cartItems");
      if !items.JsArray? then Throw(TypeError)
      else
        match NormalizeOrderItems(items.elements)
        case Throw(e) => Throw(e)
        case Normal(xs) =>
          Normal(JsObject(Spread(order)["cartItems" := JsArray(xs)]
                                       ["totalAmount" := NormalPrice(Get(order, "totalAmount"))]))
  }

  function NormalizeOrderList(orders: seq<JsValue>): (r: Completion<seq<JsValue>>)
    ensures r.Normal? ==> |r.value| == |orders|
    ensures r.Normal? <==> forall i :: 0 <= i < |orders| ==> NormalizeOrder(orders[i]).Normal?
    ensures r.Normal? ==> forall i :: 0 <= i < |orders| ==> NormalizeOrder(orders[i]) == Normal(r.value[i])
  {
    if orders == [] then Normal([])
    else
      match NormalizeOrder(orders[0])
      case Throw(e) => Throw(e)
      case Normal(x) =>
        match NormalizeOrderList(orders[1..])
        case Throw(e) => Throw(e)
        case Normal(xs) =>
          assert forall i :: 1 <= i < |orders| ==> orders[i] == orders[1..][i - 1];
          Normal([x] + xs)
  }

  /** The body of the orders query, given what the request produced: a failed
      request rejects with its exception; an array response has every order cleaned
      up; any other response is returned as it is. */
  function FetchMyOrders(response: Completion<JsValue>): Completion<JsValue> {
    match response
    case Throw(e) => Throw(e)
    case Normal(data) =>
      if Truthy(data) && data.JsArray? then
        match NormalizeOrderList(data.elements)
        case Throw(e) => Throw(e)
        case Normal(xs) => Normal(JsArray(xs))
      else Normal(data)
  }

  /** An order that the clean-up accepts: an object-like value whose `cartItems` is an
      array with no null or undefined line. */
  predicate WellShapedOrder(order: JsValue) {
    !IsNullish(order)
    && Get(order, "cartItems").JsArray?
    && forall i :: 0 <= i < |Get(order, "cartItems").elements| ==> !IsNullish(Get(order, "cartItems").elements[i])
  }

  /** A cleaned-up order: its lines are the cleaned-up original lines, its total is
      the original one when that was a number and 0 otherwise, and every other
      property is the original one. */
  ghost predicate NormalizedOrder(order: JsValue, r: JsValue) {
    Get(order, "cartItems").JsArray? &&
    var items := Get(order, "cartItems").elements;
    r.JsObject?
    && Get(r, "cartItems").JsArray?
    && |Get(r, "cartItems").elements| == |items|
    && (forall i :: 0 <= i < |items| ==> NormalizedOrderItem(items[i], Get(r, "cartItems").elements[i]))
    && Get(r, "totalAmount") == NormalPrice(Get(order, "totalAmount"))
    && forall k :: k != "cartItems" && k != "totalAmount" ==> Get(r, k) == Get(order, k)
  }

  /** The clean-up of one order succeeds exactly on well-shaped orders, and then
      produces the cleaned-up order. */
  lemma NormalizeOrderSpec(order: JsValue)
    ensures NormalizeOrder(order).Normal? <==> WellShapedOrder(order)
    ensures NormalizeOrder(order).Normal? ==> NormalizedOrder(order, NormalizeOrder(order).value)
  {
    if WellShapedOrder(order) {
      var items := Get(order, "cartItems").elements;
      var xs := NormalizeOrderItems(items);
      forall i | 0 <= i < |items|
        ensures NormalizedOrderItem(items[i], xs.value[i])
      {
        assert NormalizeOrderItem(items[i]) == Normal(xs.value[i]);
      }
    }
  }

  /** The orders query rejects with the exception of a failed request, and returns a
      non-array response unchanged; on an array it fails exactly when some order is
      not well shaped, and otherwise returns an array of the same length holding each
      order cleaned up. */
  lemma FetchMyOrdersSpec(data: JsValue, e: Exception)
    ensures FetchMyOrders(Throw(e)) == Throw(e)
    ensures !data.JsArray? ==> FetchMyOrders(Normal(data)) == Normal(data)
    ensures data.JsArray? ==>
              (FetchMyOrders(Normal(data)).Normal? <==> forall i :: 0 <= i < |data.elements| ==> WellShapedOrder(data.elements[i]))
    ensures data.JsArray? && FetchMyOrders(Normal(data)).Normal? ==>
              var r := FetchMyOrders(Normal(data)).value;
              r.JsArray? && |r.elements| == |data.elements|
              && forall i :: 0 <= i < |data.elements| ==> NormalizedOrder(data.elements[i], r.elements[i])
  {
    if data.JsArray? {
      forall i | 0 <= i < |data.elements|
        ensures NormalizeOrder(data.elements[i]).Normal? <==> WellShapedOrder(data.elements[i])
        ensures NormalizeOrder(data.elements[i]).Normal? ==> NormalizedOrder(data.elements[i], NormalizeOrder(data.elements[i]).value)
      {
        NormalizeOrderSpec(data.elements[i]);
      }
    }
  }

  lemma NormalizeOrderItemIdempotent(item: JsValue, x: JsValue)
    requires NormalizeOrderItem(item) == Normal(x)
    ensures NormalizeOrderItem(x) == Normal(x)
  {
    var p := x.properties;
    assert Get(x, "price") == p["price"] && p["price"].JsNumber?;
    assert Truthy(Get(x, "quantity"));
    assert p["price" := p["price"]]["quantity" := p["quantity"]] == p;
  }

  lemma {:induction false} NormalizeOrderItemsIdempotent(items: seq<JsValue>, xs: seq<JsValue>)
    requires NormalizeOrderItems(items) == Normal(xs)
    ensures NormalizeOrderItems(xs) == Normal(xs)
  {
    var r := NormalizeOrderItems(xs);
    forall i | 0 <= i < |xs|
      ensures NormalizeOrderItem(xs[i]) == Normal(xs[i])
    {
      NormalizeOrderItemIdempotent(items[i], xs[i]);
    }
    assert r.Normal?;
    assert r.value == xs;
  }

  lemma NormalizeOrderIdempotent(order: JsValue, x: JsValue)
    requires NormalizeOrder(order) == Normal(x)
    ensures NormalizeOrder(x) == Normal(x)
  {
    var xs := NormalizeOrderItems(Get(order, "cartItems").elements).value;
    var p := x.properties;
    assert Get(x, "cartItems") == JsArray(xs);
    NormalizeOrderItemsIdempotent(Get(order, "cartItems").elements, xs);
    assert Get(x, "totalAmount").JsNumber?;
    assert p["cartItems" := JsArray(xs)]["totalAmount" := p["totalAmount"]] == p;
  }

  /** Cleaning up already cleaned-up orders changes nothing. */
  lemma FetchMyOrdersIdempotent(data: JsValue, r: JsValue)
    requires FetchMyOrders(Normal(data)) == Normal(r)
    ensures FetchMyOrders(Normal(r)) == Normal(r)
  {
    if data.JsArray? {
      var xs := r.elements;
      forall i | 0 <= i < |xs|
        ensures NormalizeOrder(xs[i]) == Normal(xs[i])
      {
        NormalizeOrderIdempotent(data.elements[i], xs[i]);
      }
      assert NormalizeOrderList(xs).value == xs;
    }
  }

  // ---------------------------------------------------------------------------
  // Invoices

  /** `(item.price || 0) * (item.quantity || 1)`: the operands go through ToNumber,
      so a non-numeric string makes the total NaN. */
  function InvoiceLineTotal(item: JsValue): Number {
    Mul(ToNumber(Or(Get(item, "price"), Zero)), ToNumber(Or(Get(item, "quantity"), One)))
  }

  /** What a cleaned-up invoice line looks like: a falsy price becomes 0, the total is
      recomputed, and every other property is the original one. */
  ghost predicate NormalizedInvoiceItem(item: JsValue, x: JsValue) {
    x.JsObject?
    && Get(x, "price") == Or(Get(item, "price"), Zero)
    && Get(x, "total") == JsNumber(InvoiceLineTotal(item))
    && forall k :: k != "price" && k != "total" ==> Get(x, k) == Get(item, k)
  }

  /** `{...item, price: item.price || 0, total: …}` */
  function NormalizeInvoiceItem(item: JsValue): (r: Completion<JsValue>)
    ensures r.Normal? <==> !IsNullish(item)
    ensures r.Normal? ==> NormalizedInvoiceItem(item, r.value)
  {
    if IsNullish(item) then Throw(TypeError)
    else
      Normal(JsObject(Spread(item)["price" := Or(Get(item, "price"), Zero)]
                                  ["total" := JsNumber(InvoiceLineTotal(item))]))
  }

  function NormalizeInvoiceItems(items: seq<JsValue>): (r: Completion<seq<JsValue>>)
    ensures r.Normal? <==> forall i :: 0 <= i < |items| ==> !IsNullish(items[i])
    ensures r.Normal? ==> |r.value| == |items|
    ensures r.Normal? ==> forall i :: 0 <= i < |items| ==> NormalizeInvoiceItem(items[i]) == Normal(r.value[i])
  {
    if items == [] then Normal([])
    else
      match NormalizeInvoiceItem(items[0])
      case Throw(e) => Throw(e)
      case Normal(x) =>
        match NormalizeInvoiceItems(items[1..])
        case Throw(e) => Throw(e)
        case Normal(xs) =>
          assert forall i :: 1 <= i < |items| ==> items[i] == items[1..][i - 1];
          Normal([x] + xs)
  }

  /** The `formattedData` built from a truthy invoice response: its lines cleaned up,
      and `subtotal`, `deliveryFee` and `totalAmount` replaced by 0 when falsy. A
      response whose `items` is not an array throws a TypeError. */
  function NormalizeInvoice(data: JsValue): Completion<JsValue> {
    var items := Get(data, "items");
    if !items.JsArray? then Throw(TypeError)
    else
      match NormalizeInvoiceItems(items.elements)
      case Throw(e) => Throw(e)
      case Normal(xs) =>
        Normal(JsObject(Spread(data)["items" := JsArray(xs)]
                                    ["subtotal" := Or(Get(data, "subtotal"), Zero)]
                                    ["deliveryFee" := Or(Get(data, "deliveryFee"), Zero)]
                                    ["totalAmount" := Or(Get(data, "totalAmount"), Zero)]))
  }

  /** The body of the invoice query for an order id, given what the request produced:
      no id gives null before any request is made; a failed request rethrows its
      exception; a truthy response is cleaned up, and a falsy one is returned as it is. */
  function GetInvoice(orderId: string, response: Completion<JsValue>): Completion<JsValue> {
    if orderId == "" then Normal(JsNull)
    else
      match response
      case Throw(e) => Throw(e)
      case Normal(data) =>
        if Truthy(data) then NormalizeInvoice(data)
        else Normal(data)
  }

  /** An invoice line's total is its price times its quantity, with a missing or zero
      price counting as 0 and a missing or zero quantity counting as 1. */
  lemma InvoiceLineTotalNumeric(item: JsValue, price: int, quantity: int)
    requires Get(item, "price") == JsNumber(Finite(price)) || (price == 0 && IsNullish(Get(item, "price")))
    requires Get(item, "quantity") == JsNumber(Finite(quantity)) || (quantity == 0 && IsNullish(Get(item, "quantity")))
    ensures InvoiceLineTotal(item) == Finite(price * (if quantity == 0 then 1 else quantity))
  {
  }

  /** A line whose price or quantity is a string without a decimal integer in it has a
      NaN total. */
  lemma InvoiceLineTotalNaN(item: JsValue, s: string)
    requires Get(item, "price") == JsString(s) || Get(item, "quantity") == JsString(s)
    requires s != [] && StringToNumber(s).NaN?
    ensures InvoiceLineTotal(item).NaN?
  {
  }

  /** What a cleaned-up invoice looks like. */
  ghost predicate NormalizedInvoice(data: JsValue, r: JsValue) {
    Get(data, "items").JsArray? &&
    var items := Get(data, "items").elements;
    r.JsObject?
    && Get(r, "items").JsArray?
    && |Get(r, "items").elements| == |items|
    && (forall i :: 0 <= i < |items| ==> NormalizedInvoiceItem(items[i], Get(r, "items").elements[i]))
    && Get(r, "subtotal") == Or(Get(data, "subtotal"), Zero)
    && Get(r, "deliveryFee") == Or(Get(data, "deliveryFee"), Zero)
    && Get(r, "totalAmount") == Or(Get(data, "totalAmount"), Zero)
    && forall k :: k != "items" && k != "subtotal" && k != "deliveryFee" && k != "totalAmount" ==>
                   Get(r, k) == Get(data, k)
  }

  /** The invoice query: null without an id whatever the request would produce, the
      exception of a failed request rethrown, a falsy response unchanged, and a truthy
      one cleaned up, which fails exactly when its `items` is not an array free of null
      and undefined lines. */
  lemma GetInvoiceSpec(orderId: string, data: JsValue, e: Exception)
    ensures orderId == "" ==> GetInvoice(orderId, Normal(data)) == Normal(JsNull) && GetInvoice(orderId, Throw(e)) == Normal(JsNull)
    ensures orderId != "" ==> GetInvoice(orderId, Throw(e)) == Throw(e)
    ensures orderId != "" && !Truthy(data) ==> GetInvoice(orderId, Normal(data)) == Normal(data)
    ensures orderId != "" && Truthy(data) ==>
              (GetInvoice(orderId, Normal(data)).Normal? <==>
                 Get(data, "items").JsArray?
                 && forall i :: 0 <= i < |Get(data, "items").elements| ==> !IsNullish(Get(data, "items").elements[i]))
    ensures orderId != "" && Truthy(data) && GetInvoice(orderId, Normal(data)).Normal? ==>
              NormalizedInvoice(data, GetInvoice(orderId, Normal(data)).value)
  {
    if orderId != "" && Truthy(data) && GetInvoice(orderId, Normal(data)).Normal? {
      var items := Get(data, "items").elements;
      var xs := NormalizeInvoiceItems(items).value;
      forall i | 0 <= i < |items|
        ensures NormalizedInvoiceItem(items[i], xs[i])
      {
        assert NormalizeInvoiceItem(items[i]) == Normal(xs[i]);
      }
    }
  }

  lemma NormalizeInvoiceItemIdempotent(item: JsValue, x: JsValue)
    requires NormalizeInvoiceItem(item) == Normal(x)
    ensures NormalizeInvoiceItem(x) == Normal(x)
  {
    var p := x.properties;
    assert Get(x, "price") == Or(Get(item, "price"), Zero);
    assert Or(Get(x, "price"), Zero) == Get(x, "price");
    assert Get(x, "quantity") == Get(item, "quantity");
    assert InvoiceLineTotal(x) == InvoiceLineTotal(item);
    assert p["price" := p["price"]]["total" := p["total"]] == p;
  }

  lemma {:induction false} NormalizeInvoiceItemsIdempotent(items: seq<JsValue>, xs: seq<JsValue>)
    requires NormalizeInvoiceItems(items) == Normal(xs)
    ensures NormalizeInvoiceItems(xs) == Normal(xs)
  {
    var r := NormalizeInvoiceItems(xs);
    forall i | 0 <= i < |xs|
      ensures NormalizeInvoiceItem(xs[i]) == Normal(xs[i])
    {
      NormalizeInvoiceItemIdempotent(items[i], xs[i]);
    }
    assert r.Normal?;
    assert r.value == xs;
  }

  /** Cleaning up an already cleaned-up invoice changes nothing. */
  lemma GetInvoiceIdempotent(orderId: string, data: JsValue, r: JsValue)
    requires GetInvoice(orderId, Normal(data)) == Normal(r)
    ensures GetInvoice(orderId, Normal(r)) == Normal(r)
  {
    if orderId != "" && Truthy(data) {
      var xs := NormalizeInvoiceItems(Get(data, "items").elements).value;
      var p := r.properties;
      assert Get(r, "items") == JsArray(xs);
      NormalizeInvoiceItemsIdempotent(Get(data, "items").elements, xs);
      assert Or(p["subtotal"], Zero) == p["subtotal"];
      assert Or(p["deliveryFee"], Zero) == p["deliveryFee"];
      assert Or(p["totalAmount"], Zero) == p["totalAmount"];
      assert p["items" := JsArray(xs)]["subtotal" := p["subtotal"]]["deliveryFee" := p["deliveryFee"]]
              ["totalAmount" := p["totalAmount"]] == p;
    }
  }

  // ---------------------------------------------------------------------------
  // Checkout session and status update

  const CheckoutSessionError := "Unable to create checkout session"
  const ConnectionError := "Unable to connect to the server. Please make sure the backend is running and accessible."
  const UpdateOrderError := "Failed to update order status"

  /** `error.message?.includes("Failed to fetch")`; the messages of TypeErrors raised
      by the engine are not modelled and do not match. */
  predicate IsFetchFailure(e: Exception) {
    e.Error? && Contains(e.message, "Failed to fetch")
  }

  /** `createCheckoutSessionRequest`: a falsy response body is an error, and inside the
      `catch` a fetch failure is replaced by the connection error while every other
      exception is rethrown. */
  function CreateCheckoutSession(response: Completion<JsValue>): Completion<JsValue> {
    var attempt :=
      match response
      case Throw(e) => Throw(e)
      case Normal(data) => if Truthy(data) then Normal(data) else Throw(Error(CheckoutSessionError));
    match attempt
    case Normal(data) => Normal(data)
    case Throw(e) => if IsFetchFailure(e) then Throw(Error(ConnectionError)) else Throw(e)
  }

  lemma {:induction false} NotContainsWithoutFirstChar(s: string, sub: string)
    requires sub != [] && forall i :: 0 <= i < |s| ==> s[i] != sub[0]
    ensures !Contains(s, sub)
    decreases |s|
  {
    if s != [] {
      assert s[1..][0..] == s[1..];
      NotContainsWithoutFirstChar(s[1..], sub);
      if |sub| <= |s| {
        assert s[..|sub|][0] == s[0];
      }
    }
  }

  /** The checkout request resolves with the response body exactly when that body is
      truthy; a falsy body rejects with "Unable to create checkout session", a fetch
      failure with the connection error, and any other failure with itself. */
  lemma CreateCheckoutSessionSpec(response: Completion<JsValue>)
    ensures CreateCheckoutSession(response).Normal? <==> response.Normal? && Truthy(response.value)
    ensures CreateCheckoutSession(response).Normal? ==> CreateCheckoutSession(response) == response
    ensures response.Normal? && !Truthy(response.value) ==>
              CreateCheckoutSession(response) == Throw(Error(CheckoutSessionError))
    ensures response.Throw? && IsFetchFailure(response.error) ==>
              CreateCheckoutSession(response) == Throw(Error(ConnectionError))
    ensures response.Throw? && !IsFetchFailure(response.error) ==> CreateCheckoutSession(response) == response
  {
    NotContainsWithoutFirstChar(CheckoutSessionError, "Failed to fetch");
  }

  /** `updateOrderRequest`: a falsy response body is an error; failures propagate. */
  function UpdateOrder(response: Completion<JsValue>): (r: Completion<JsValue>)
    ensures r.Normal? <==> response.Normal? && Truthy(response.value)
    ensures r.Normal? ==> r == response
    ensures response.Normal? && !Truthy(response.value) ==> r == Throw(Error(UpdateOrderError))
    ensures response.Throw? ==> r == response
  {
    match response
    case Throw(e) => Throw(e)
    case Normal(data) => if Truthy(data) then Normal(data) else Throw(Error(UpdateOrderError))
  }

  // ---------------------------------------------------------------------------
  // Retries of the checkout mutation

  /** `retry: 3` */
  const RetryCount: nat := 3

  /** The delay cap of `retryDelay`, in milliseconds. */
  const MaxRetryDelay := 30000

  function Pow2(n: nat): (r: nat)
    ensures r >= 1
  {
    if n == 0 then 1 else 2 * Pow2(n - 1)
  }

  /** `retryDelay(attemptIndex) = Math.min(1000 * 2 ** attemptIndex, 30000)`, in
      milliseconds. */
  function RetryDelay(attemptIndex: nat): (d: int)
    ensures 1000 <= d <= MaxRetryDelay
  {
    var backoff := 1000 * Pow2(attemptIndex);
    if backoff < MaxRetryDelay then backoff else MaxRetryDelay
  }

  lemma {:induction false} Pow2Monotone(i: nat, j: nat)
    requires i <= j
    ensures Pow2(i) <= Pow2(j)
    decreases j
  {
    if i < j {
      Pow2Monotone(i, j - 1);
    }
  }

  /** The delay never shrinks from one retry to the next. */
  lemma RetryDelayMonotone(i: nat, j: nat)
    requires i <= j
    ensures RetryDelay(i) <= RetryDelay(j)
  {
    Pow2Monotone(i, j);
  }

  /** The delays double from one second and reach the 30-second cap at the sixth
      retry. */
  lemma RetryDelaySchedule(i: nat)
    ensures RetryDelay(0) == 1000 && RetryDelay(1) == 2000 && RetryDelay(2) == 4000
    ensures RetryDelay(3) == 8000 && RetryDelay(4) == 16000
    ensures i >= 5 ==> RetryDelay(i) == MaxRetryDelay
  {
    assert Pow2(5) == 32;
    if i >= 5 {
      Pow2Monotone(5, i);
    }
  }

  /** The mutation's retry loop: `attempt(n)` is what the n-th call of the request
      produces. A failed call is retried, after `retryDelay(failures so far)`, until
      one succeeds or `retry` retries have been made. The result is the last call's
      outcome and the delays waited. */
  function Retrying(attempt: nat -> Completion<JsValue>, failures: nat): (Completion<JsValue>, seq<int>)
    requires failures <= RetryCount
    decreases RetryCount - failures
  {
    if attempt(failures).Normal? || failures == RetryCount then (attempt(failures), [])
    else
      var (r, delays) := Retrying(attempt, failures + 1);
      (r, [RetryDelay(failures)] + delays)
  }

  /** The checkout mutation: the request of each attempt goes through
      `createCheckoutSessionRequest`, with retries. */
  function CheckoutMutation(responses: nat -> Completion<JsValue>): (Completion<JsValue>, seq<int>) {
    Retrying((n: nat) => CreateCheckoutSession(responses(n)), 0)
  }

  /** At most `retry` retries are made, waiting the doubling delays; the result is the
      outcome of the last call made, every earlier call failed, and the loop stops
      early only on a success. */
  lemma {:induction false} RetryingSpec(attempt: nat -> Completion<JsValue>, failures: nat)
    requires failures <= RetryCount
    ensures var (r, delays) := Retrying(attempt, failures);
            var last := failures + |delays|;
            last <= RetryCount
            && r == attempt(last)
            && (forall n :: failures <= n < last ==> attempt(n).Throw?)
            && (r.Throw? ==> last == RetryCount)
            && forall k :: 0 <= k < |delays| ==> delays[k] == RetryDelay(failures + k)
    decreases RetryCount - failures
  {
    if !(attempt(failures).Normal? || failures == RetryCount) {
      RetryingSpec(attempt, failures + 1);
      var (r, delays) := Retrying(attempt, failures + 1);
      assert Retrying(attempt, failures) == (r, [RetryDelay(failures)] + delays);
    }
  }

  /** The checkout succeeds exactly when one of its first four requests returns a
      truthy body, and then with the first such body; before the first retry it waits
      1 second, then 2, then 4. */
  lemma CheckoutMutationSpec(responses: nat -> Completion<JsValue>)
    ensures var (r, delays) := CheckoutMutation(responses);
            (r.Normal? <==> exists n :: 0 <= n <= RetryCount && responses(n).Normal? && Truthy(responses(n).value))
            && (r.Normal? ==>
                  exists n :: (0 <= n <= RetryCount && r == responses(n)
                               && forall m :: 0 <= m < n ==> !(responses(m).Normal? && Truthy(responses(m).value))))
            && delays == [1000, 2000, 4000][..|delays|]
  {
    var attempt := (n: nat) => CreateCheckoutSession(responses(n));
    RetryingSpec(attempt, 0);
    RetryDelaySchedule(0);
    var (r, delays) := CheckoutMutation(responses);
    forall n | 0 <= n <= RetryCount
      ensures attempt(n).Normal? <==> responses(n).Normal? && Truthy(responses(n).value)
      ensures attempt(n).Normal? ==> attempt(n) == responses(n)
    {
      CreateCheckoutSessionSpec(responses(n));
    }
    assert delays == [1000, 2000, 4000][..|delays|];
  }
}
