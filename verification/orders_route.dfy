/** The orders API (app/api/orders/route.ts): list the caller's orders, and check out
    the caller's active cart into an order. Checkout prices the cart from the
    products table, adds the fee of the chosen shipment method, writes the order, its
    lines and the cart's conversion as three separate writes, and applies no promotion. */
module OrdersRoute {
  import opened Wrappers
  import opened Strings
  import opened Schema
  import opened Db
  import opened Auth
  import opened CartRoute

  // ---------------------------------------------------------------- pricing

  /** `cartItems.reduce((acc, item) => acc + item.products.price * item.quantity, 0)`. */
  function Subtotal(lines: seq<CartLine>): (r: int)
    ensures (forall i :: 0 <= i < |lines| ==> lines[i].price >= 0 && lines[i].quantity >= 0) ==> r >= 0
  {
    if lines == [] then 0 else lines[0].price * lines[0].quantity + Subtotal(lines[1..])
  }

  lemma {:induction false} SubtotalAppend(a: seq<CartLine>, b: seq<CartLine>)
    ensures Subtotal(a + b) == Subtotal(a) + Subtotal(b)
  {
    if a == [] {
      assert a + b == b;
    } else {
      assert (a + b)[1..] == a[1..] + b;
      SubtotalAppend(a[1..], b);
    }
  }

  /** The checkout form's fields, as they arrive in the request body. */
  datatype CheckoutRequest = CheckoutRequest(
    address: string, city: string, country: string, email: string,
    paymentMethod: string, phone: Option<string>, postalCode: string,
    recipientName: string, shipmentMethod: Option<nat>, state: string)

  /** The `orders` row checkout inserts: pending, priced as subtotal plus the shipment
      fee, coded `ORD-<now>`; an empty phone is stored as null. */
  function PlacedOrder(user: UserId, req: CheckoutRequest, methodId: nat, fee: int,
                       lines: seq<CartLine>, now: nat): (o: Order)
    ensures o.userId == user && o.createdBy == user && o.status == Pending
    ensures o.subtotalAmount == Subtotal(lines) && o.totalAmount == o.subtotalAmount + fee
    ensures o.deliveryFeeSnapshot == fee && o.shipmentMethodId == methodId
    ensures o.code == "ORD-" + NatToString(now)
    ensures o.phoneNo.None? <==> req.phone == None || req.phone == Some("")
    ensures o.phoneNo.Some? ==> o.phoneNo == req.phone
    ensures o.contactInfo == req.email && o.recipientName == req.recipientName
    ensures o.country == req.country && o.address == req.address && o.city == req.city
    ensures o.state == req.state && o.postalCode == req.postalCode && o.paymentMethod == req.paymentMethod
  {
    var subtotal := Subtotal(lines);
    Order(user, req.email, req.recipientName, req.country, req.address, req.city, req.state,
          req.postalCode, if req.phone == None || req.phone == Some("") then None else req.phone,
          methodId, fee, req.paymentMethod, subtotal, subtotal + fee, Pending,
          "ORD-" + NatToString(now), now, user)
  }

  /** The `order_items` rows checkout inserts, one per priced cart line, with the
      product name and price copied. */
  function OrderLines(lines: seq<CartLine>, orderId: nat, user: UserId): (items: seq<OrderItem>)
    ensures |items| == |lines|
    ensures forall i :: 0 <= i < |lines| ==>
      items[i] == OrderItem(orderId, lines[i].id, lines[i].name, lines[i].quantity, lines[i].price, user)
  {
    if lines == [] then []
    else [OrderItem(orderId, lines[0].id, lines[0].name, lines[0].quantity, lines[0].price, user)]
         + OrderLines(lines[1..], orderId, user)
  }

  /** Sum of price snapshot times quantity over order lines. */
  function ItemsSubtotal(items: seq<OrderItem>): int {
    if items == [] then 0 else items[0].priceSnapshot * items[0].quantity + ItemsSubtotal(items[1..])
  }

  /** The order's lines add up to the order's subtotal, and its total is that plus the
      delivery fee snapshot: the stored amounts agree with the stored lines. */
  lemma {:induction false} OrderAmountsAgree(user: UserId, req: CheckoutRequest, methodId: nat, fee: int,
                                             lines: seq<CartLine>, now: nat, orderId: nat)
    ensures var o := PlacedOrder(user, req, methodId, fee, lines, now);
      && ItemsSubtotal(OrderLines(lines, orderId, user)) == o.subtotalAmount
      && o.totalAmount == ItemsSubtotal(OrderLines(lines, orderId, user)) + o.deliveryFeeSnapshot
  {
    LinesSubtotal(lines, orderId, user);
  }

  lemma {:induction false} LinesSubtotal(lines: seq<CartLine>, orderId: nat, user: UserId)
    ensures ItemsSubtotal(OrderLines(lines, orderId, user)) == Subtotal(lines)
  {
    if lines != [] {
      LinesSubtotal(lines[1..], orderId, user);
      assert OrderLines(lines, orderId, user)[1..] == OrderLines(lines[1..], orderId, user);
    }
  }

  /** The cart table after checkout converts cart `c`. */
  function Converted(carts: seq<Cart>, c: nat): (r: seq<Cart>)
    requires c < |carts|
    ensures |r| == |carts| && r[c] == Cart(carts[c].owner, CartStatus.Converted)
    ensures forall d :: 0 <= d < |carts| && d != c ==> r[d] == carts[d]
  {
    carts[c := Cart(carts[c].owner, CartStatus.Converted)]
  }

  /** After checking out their active cart the user has no active cart, so the next
      add-to-cart starts a new one; other users' carts are untouched, and the
      one-active-cart-per-user invariant is kept. */
  lemma ConvertEndsActiveCart(carts: seq<Cart>, user: UserId)
    requires OneActiveCartPerUser(carts)
    requires SingleActiveCart(carts, user).Some?
    ensures var after := Converted(carts, SingleActiveCart(carts, user).value);
      && FirstActiveCart(after, user).None?
      && SingleActiveCart(after, user).None?
      && OneActiveCartPerUser(after)
      && forall u :: u != user ==> FirstActiveCart(after, u) == FirstActiveCart(carts, u)
  {
    var c := SingleActiveCart(carts, user).value;
    var after := Converted(carts, c);
    assert forall d :: 0 <= d < |after| ==> after[d] != Cart(user, Active);
    forall u | u != user
      ensures FirstActiveCart(after, u) == FirstActiveCart(carts, u)
    {
      assert forall d :: 0 <= d < |after| ==> (after[d] == Cart(u, Active) <==> carts[d] == Cart(u, Active));
      FirstActiveSame(carts, after, u);
    }
  }

  /** FirstActiveCart only looks at which rows are the user's active cart. */
  lemma FirstActiveSame(a: seq<Cart>, b: seq<Cart>, u: UserId)
    requires |a| == |b|
    requires forall d :: 0 <= d < |a| ==> (a[d] == Cart(u, Active) <==> b[d] == Cart(u, Active))
    ensures FirstActiveCart(a, u) == FirstActiveCart(b, u)
  {
    var fa, fb := FirstActiveCart(a, u), FirstActiveCart(b, u);
    if fa.Some? && fb.Some? {
      assert !(fa.value < fb.value) && !(fb.value < fa.value);
    }
  }

  // ---------------------------------------------------------------- checkout

  /** The database calls of the orders handlers. */
  datatype OrderStep =
    | FindCart      // checkout's `.single()` active-cart lookup (error ignored: no cart)
    | ReadItems     // checkout's cart_items read
    | LookupMethod  // checkout's shipment method lookup (error ignored: no method)
    | InsertOrder
    | InsertItems
    | ConvertCart
    | ListOrders    // GET's orders read

  /** The cart checkout uses, unless its lookup fails. */
  function CheckoutCart(carts: seq<Cart>, user: UserId, faults: map<OrderStep, string>): Option<nat> {
    if FindCart in faults then None else SingleActiveCart(carts, user)
  }

  /** The shipment method checkout uses, unless its lookup fails. */
  function CheckoutMethod(methods: map<nat, ShipmentMethod>, id: Option<nat>, faults: map<OrderStep, string>)
    : Option<ShipmentMethod>
  {
    if LookupMethod in faults || id.None? || id.value !in methods then None else Some(methods[id.value])
  }

  /** POST: create an order from the caller's active cart. The three writes are not
      atomic: a failed write leaves the earlier ones in place. */
  method Checkout(db: Store, header: Option<string>, verify: Verifier, req: CheckoutRequest,
                  now: nat, faults: map<OrderStep, string>)
    returns (r: Reply)
    modifies db`orders, db`orderItems, db`carts
    ensures RequireAuth(header, verify).Rejected? ==> r == RequireAuth(header, verify).reply
    ensures r.status != 200 && r.status != 500 ==>
      db.orders == old(db.orders) && db.orderItems == old(db.orderItems) && db.carts == old(db.carts)
    ensures RequireAuth(header, verify).Authorized? ==>
      var user := RequireAuth(header, verify).payload.sub;
      var cart := CheckoutCart(old(db.carts), user, faults);
      var shipment := CheckoutMethod(db.shipmentMethods, req.shipmentMethod, faults);
      && (cart.None? ==> r == Failure(404, "Cart not found"))
      && (cart.Some? && ReadItems in faults ==> r == Failure(404, "Cart items not found"))
      && (cart.Some? && ReadItems !in faults && shipment.None? ==> r == Failure(404, "Shipment method not found"))
      && (cart.Some? && ReadItems !in faults && shipment.Some? ==>
            var lines := CartLines(db.cartItems, db.products, cart.value);
            var id := |old(db.orders)|;
            var order := PlacedOrder(user, req, req.shipmentMethod.value, shipment.value.fee, lines, now);
            && (InsertOrder in faults ==>
                  r == Failure(500, faults[InsertOrder])
                  && db.orders == old(db.orders) && db.orderItems == old(db.orderItems) && db.carts == old(db.carts))
            && (InsertOrder !in faults ==> db.orders == old(db.orders) + [order])
            && (InsertOrder !in faults && InsertItems in faults ==>
                  r == Failure(500, faults[InsertItems])
                  && db.orderItems == old(db.orderItems) && db.carts == old(db.carts))
            && (InsertOrder !in faults && InsertItems !in faults ==>
                  db.orderItems == old(db.orderItems) + OrderLines(lines, id, user))
            && (InsertOrder !in faults && InsertItems !in faults && ConvertCart in faults ==>
                  r == Failure(500, faults[ConvertCart]) && db.carts == old(db.carts))
            && (InsertOrder !in faults && InsertItems !in faults && ConvertCart !in faults ==>
                  r == Success(200, Some(Created(id)), "Order created successfully")
                  && db.carts == Converted(old(db.carts), cart.value)))
  {
    var auth := RequireAuth(header, verify);
    if IsAuthFailed(auth) {
      return auth.reply;
    }
    var user := auth.payload.sub;
    var cart := CheckoutCart(db.carts, user, faults);
    if cart.None? {
      return Failure(404, "Cart not found");
    }
    if ReadItems in faults {
      return Failure(404, "Cart items not found");
    }
    var lines := CartLines(db.cartItems, db.products, cart.value);
    var shipment := CheckoutMethod(db.shipmentMethods, req.shipmentMethod, faults);
    if shipment.None? {
      return Failure(404, "Shipment method not found");
    }
    var id := |db.orders|;
    var order := PlacedOrder(user, req, req.shipmentMethod.value, shipment.value.fee, lines, now);
    r := WriteOrder(db, order, OrderLines(lines, id, user), Converted(db.carts, cart.value), faults);
  }

  /** Checkout's three writes in their order: the order row, its items, then the cart
      conversion. A failing write answers 500 with its message and stops, leaving the
      earlier writes in place. */
  method WriteOrder(db: Store, order: Order, items: seq<OrderItem>, carts: seq<Cart>,
                    faults: map<OrderStep, string>)
    returns (r: Reply)
    modifies db`orders, db`orderItems, db`carts
    ensures r.status == 200 || r.status == 500
    ensures InsertOrder in faults ==>
      r == Failure(500, faults[InsertOrder])
      && db.orders == old(db.orders) && db.orderItems == old(db.orderItems) && db.carts == old(db.carts)
    ensures InsertOrder !in faults ==> db.orders == old(db.orders) + [order]
    ensures InsertOrder !in faults && InsertItems in faults ==>
      r == Failure(500, faults[InsertItems]) && db.orderItems == old(db.orderItems) && db.carts == old(db.carts)
    ensures InsertOrder !in faults && InsertItems !in faults ==> db.orderItems == old(db.orderItems) + items
    ensures InsertOrder !in faults && InsertItems !in faults && ConvertCart in faults ==>
      r == Failure(500, faults[ConvertCart]) && db.carts == old(db.carts)
    ensures InsertOrder !in faults && InsertItems !in faults && ConvertCart !in faults ==>
      r == Success(200, Some(Created(|old(db.orders)|)), "Order created successfully") && db.carts == carts
  {
    if InsertOrder in faults {
      return Failure(500, faults[InsertOrder]);
    }
    var id := |db.orders|;
    db.orders := db.orders + [order];
    if InsertItems in faults {
      return Failure(500, faults[InsertItems]);
    }
    db.orderItems := db.orderItems + items;
    if ConvertCart in faults {
      return Failure(500, faults[ConvertCart]);
    }
    db.carts := carts;
    r := Success(200, Some(Created(id)), "Order created successfully");
  }

  // ---------------------------------------------------------------- listing

  /** The caller's orders joined with their shipment method's code (an inner join:
      an order whose method is missing is not listed), in table order. */
  function UserOrders(orders: seq<Order>, methods: map<nat, ShipmentMethod>, user: UserId, from: nat := 0)
    : (views: seq<OrderView>)
    requires from <= |orders|
    ensures forall v :: v in views ==>
      from <= v.id < |orders| && v.order == orders[v.id] && v.order.userId == user
      && v.order.shipmentMethodId in methods && v.shipmentMethod == methods[v.order.shipmentMethodId].code
    ensures forall i :: from <= i < |orders| && orders[i].userId == user && orders[i].shipmentMethodId in methods ==>
      OrderView(i, orders[i], methods[orders[i].shipmentMethodId].code) in views
    decreases |orders| - from
  {
    if from == |orders| then []
    else
      var rest := UserOrders(orders, methods, user, from + 1);
      var o := orders[from];
      if o.userId == user && o.shipmentMethodId in methods then
        [OrderView(from, o, methods[o.shipmentMethodId].code)] + rest
      else rest
  }

  /** Newest first. */
  predicate NewestFirst(views: seq<OrderView>) {
    forall i, j :: 0 <= i < j < |views| ==> views[i].order.creationDate >= views[j].order.creationDate
  }

  /** Prepending a view at least as new as every other keeps a list newest first. */
  lemma NewestFirstCons(x: OrderView, t: seq<OrderView>)
    requires NewestFirst(t)
    requires forall w :: w in t ==> w.order.creationDate <= x.order.creationDate
    ensures NewestFirst([x] + t)
  {
    var r := [x] + t;
    forall i, j | 0 <= i < j < |r| ensures r[i].order.creationDate >= r[j].order.creationDate {
      assert r[j] == t[j - 1];
      if i > 0 {
        assert r[i] == t[i - 1];
      }
    }
  }

  /** Insert `v` into a newest-first list, after the views at least as new. */
  function InsertByDate(v: OrderView, sorted: seq<OrderView>): (r: seq<OrderView>)
    ensures |r| == |sorted| + 1 && v in r
  {
    if sorted == [] then [v]
    else if sorted[0].order.creationDate <= v.order.creationDate then [v] + sorted
    else [sorted[0]] + InsertByDate(v, sorted[1..])
  }

  lemma NewestFirstTail(sorted: seq<OrderView>)
    requires NewestFirst(sorted) && sorted != []
    ensures NewestFirst(sorted[1..])
    ensures forall w :: w in sorted[1..] ==> w.order.creationDate <= sorted[0].order.creationDate
  {
    var rest := sorted[1..];
    forall w | w in rest ensures w.order.creationDate <= sorted[0].order.creationDate {
      var k :| 0 <= k < |rest| && rest[k] == w;
      assert sorted[k + 1] == w;
    }
    forall i, j | 0 <= i < j < |rest| ensures rest[i].order.creationDate >= rest[j].order.creationDate {
      assert rest[i] == sorted[i + 1] && rest[j] == sorted[j + 1];
    }
  }

  /** Inserting keeps exactly the views of the list plus `v`. */
  lemma {:induction false} InsertByDateKeeps(v: OrderView, sorted: seq<OrderView>)
    ensures multiset(InsertByDate(v, sorted)) == multiset(sorted) + multiset{v}
  {
    if sorted != [] && sorted[0].order.creationDate > v.order.creationDate {
      var head, rest := sorted[0], sorted[1..];
      InsertByDateKeeps(v, rest);
      assert InsertByDate(v, sorted) == [head] + InsertByDate(v, rest);
      assert sorted == [head] + rest;
      assert multiset(sorted) == multiset{head} + multiset(rest);
    }
  }

  /** Inserting under a bound on the creation dates stays under that bound. */
  lemma {:induction false} InsertByDateBounded(v: OrderView, sorted: seq<OrderView>, bound: int)
    requires v.order.creationDate <= bound
    requires forall w :: w in sorted ==> w.order.creationDate <= bound
    ensures forall w :: w in InsertByDate(v, sorted) ==> w.order.creationDate <= bound
  {
    if sorted != [] && sorted[0].order.creationDate > v.order.creationDate {
      assert forall w :: w in sorted[1..] ==> w in sorted;
      InsertByDateBounded(v, sorted[1..], bound);
    }
  }

  /** Inserting into a newest-first list keeps it newest first. */
  lemma {:induction false} InsertByDateSorted(v: OrderView, sorted: seq<OrderView>)
    requires NewestFirst(sorted)
    ensures NewestFirst(InsertByDate(v, sorted))
  {
    if sorted == [] {
    } else if sorted[0].order.creationDate <= v.order.creationDate {
      NewestFirstCons(v, sorted);
    } else {
      NewestFirstTail(sorted);
      InsertByDateSorted(v, sorted[1..]);
      InsertByDateBounded(v, sorted[1..], sorted[0].order.creationDate);
      NewestFirstCons(sorted[0], InsertByDate(v, sorted[1..]));
    }
  }

  /** `.order('creation_date', { ascending: false })`, as an insertion sort. */
  function NewestFirstOrder(views: seq<OrderView>): (r: seq<OrderView>)
    ensures |r| == |views|
  {
    if views == [] then [] else InsertByDate(views[0], NewestFirstOrder(views[1..]))
  }

  /** The listing is newest first and holds exactly the joined orders. */
  lemma {:induction false} NewestFirstOrderSorts(views: seq<OrderView>)
    ensures NewestFirst(NewestFirstOrder(views))
    ensures multiset(NewestFirstOrder(views)) == multiset(views)
  {
    if views != [] {
      assert views == [views[0]] + views[1..];
      NewestFirstOrderSorts(views[1..]);
      InsertByDateSorted(views[0], NewestFirstOrder(views[1..]));
      InsertByDateKeeps(views[0], NewestFirstOrder(views[1..]));
    }
  }

  /** GET: the caller's orders, newest first, each with its shipment method's code. */
  method ListUserOrders(db: Store, header: Option<string>, verify: Verifier, faults: map<OrderStep, string>)
    returns (r: Reply)
    ensures RequireAuth(header, verify).Rejected? ==> r == RequireAuth(header, verify).reply
    ensures RequireAuth(header, verify).Authorized? && ListOrders in faults ==> r == Failure(500, faults[ListOrders])
    ensures RequireAuth(header, verify).Authorized? && ListOrders !in faults ==>
      && r.status == 200 && r.body.Json? && r.body.response.success
      && r.body.response.message == "Orders fetched successfully"
      && r.body.response.data.Some? && r.body.response.data.value.Orders?
      && var views := r.body.response.data.value.orders;
        && NewestFirst(views)
        && multiset(views) == multiset(UserOrders(db.orders, db.shipmentMethods, RequireAuth(header, verify).payload.sub))
  {
    var auth := RequireAuth(header, verify);
    if IsAuthFailed(auth) {
      return auth.reply;
    }
    if ListOrders in faults {
      return Failure(500, faults[ListOrders]);
    }
    var joined := UserOrders(db.orders, db.shipmentMethods, auth.payload.sub);
    NewestFirstOrderSorts(joined);
    var views := NewestFirstOrder(joined);
    r := Success(200, Some(Orders(views)), "Orders fetched successfully");
  }

  /** A listed order belongs to the caller, and every order of the caller whose
      shipment method exists is listed. */
  lemma ListedOrdersAreTheUsers(orders: seq<Order>, methods: map<nat, ShipmentMethod>, user: UserId, i: nat)
    requires i < |orders| && orders[i].shipmentMethodId in methods
    ensures var listed := NewestFirstOrder(UserOrders(orders, methods, user));
      && (forall v :: v in listed ==> v.order.userId == user && v.id < |orders| && v.order == orders[v.id])
      && (orders[i].userId == user <==> OrderView(i, orders[i], methods[orders[i].shipmentMethodId].code) in listed)
  {
    var views := UserOrders(orders, methods, user);
    var listed := NewestFirstOrder(views);
    NewestFirstOrderSorts(views);
    forall v | v in listed ensures v.order.userId == user && v.id < |orders| && v.order == orders[v.id] {
      assert v in multiset(listed);
    }
    var w := OrderView(i, orders[i], methods[orders[i].shipmentMethodId].code);
    if w in views {
      assert w in multiset(views);
    }
  }
}
