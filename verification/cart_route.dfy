/** The cart API (app/api/cart/route.ts): read the caller's active cart, add a product
    (find-or-create the cart, then find-or-increment the line), set a line's quantity,
    remove a line. Each handler is one sequential run against the store. */
module CartRoute {
  import opened Wrappers
  import opened Schema
  import opened Db
  import opened Auth
  import opened Query

  // ---------------------------------------------------------------- carts

  /** The filter `.eq('user_id', user).eq('status', 'active')`. */
  function IsActiveCartOf(user: UserId): Cart -> bool {
    c => c == Cart(user, Active)
  }

  /** `.single()` on the active-cart filter: found only when exactly one active cart
      of the user exists. */
  function SingleActiveCart(carts: seq<Cart>, user: UserId): (r: Option<nat>)
    ensures r.Some? ==> r.value < |carts| && carts[r.value] == Cart(user, Active)
    ensures r.Some? ==> forall c :: 0 <= c < |carts| && carts[c] == Cart(user, Active) ==> c == r.value
    ensures (forall c :: 0 <= c < |carts| ==> carts[c] != Cart(user, Active)) ==> r.None?
  {
    Single(carts, IsActiveCartOf(user))
  }

  /** `.limit(1)` on the active-cart filter: the first active cart. */
  function FirstActiveCart(carts: seq<Cart>, user: UserId): (r: Option<nat>)
    ensures r.None? <==> forall c :: 0 <= c < |carts| ==> carts[c] != Cart(user, Active)
    ensures r.Some? ==> r.value < |carts| && carts[r.value] == Cart(user, Active)
    ensures r.Some? ==> forall c :: 0 <= c < r.value ==> carts[c] != Cart(user, Active)
  {
    First(carts, IsActiveCartOf(user))
  }

  /** No user has two active carts. */
  ghost predicate OneActiveCartPerUser(carts: seq<Cart>) {
    forall c, d :: 0 <= c < d < |carts| && carts[c].status == Active && carts[d].status == Active ==>
      carts[c].owner != carts[d].owner
  }

  /** While each user has at most one active cart, the `.single()` lookup of GET,
      PATCH, DELETE and checkout finds the same cart as the `.limit(1)` lookup of POST. */
  lemma SingleAgreesWithFirst(carts: seq<Cart>, user: UserId)
    requires OneActiveCartPerUser(carts)
    ensures SingleActiveCart(carts, user) == FirstActiveCart(carts, user)
  {
    SingleIsFirst(carts, IsActiveCartOf(user));
  }

  /** The cart table after POST's find-or-create: unchanged when an active cart exists,
      otherwise with a new active cart appended. */
  function CartsAfterFindOrCreate(carts: seq<Cart>, user: UserId): seq<Cart> {
    if FirstActiveCart(carts, user).None? then carts + [Cart(user, Active)] else carts
  }

  /** The id of the cart POST adds to. */
  function CartUsedByAdd(carts: seq<Cart>, user: UserId): nat {
    match FirstActiveCart(carts, user)
    case Some(c) => c
    case None => |carts|
  }

  /** POST creates an active cart only when the user has none and otherwise reuses
      the first one; either way the one-active-cart-per-user invariant is kept. */
  lemma FindOrCreateKeepsOneActive(carts: seq<Cart>, user: UserId)
    requires OneActiveCartPerUser(carts)
    ensures var after := CartsAfterFindOrCreate(carts, user);
      && OneActiveCartPerUser(after)
      && CartUsedByAdd(carts, user) < |after|
      && after[CartUsedByAdd(carts, user)] == Cart(user, Active)
      && (FirstActiveCart(carts, user).Some? <==> after == carts)
  {
    var after := CartsAfterFindOrCreate(carts, user);
    if FirstActiveCart(carts, user).None? {
      assert after[|carts|] == Cart(user, Active);
      forall c, d | 0 <= c < d < |after| && after[c].status == Active && after[d].status == Active
        ensures after[c].owner != after[d].owner
      {
        if d == |carts| {
          assert carts[c] != Cart(user, Active);
        } else {
          assert after[c] == carts[c] && after[d] == carts[d];
        }
      }
    }
  }

  // ---------------------------------------------------------------- cart lines

  predicate SameLine(item: CartItem, cartId: nat, productId: ProductId) {
    item.cartId == cartId && item.productId == productId
  }

  /** Quantity of the first line of `productId` in cart `cartId`, if there is one. */
  function LineQuantity(items: seq<CartItem>, cartId: nat, productId: ProductId): Option<int> {
    if items == [] then None
    else if SameLine(items[0], cartId, productId) then Some(items[0].quantity)
    else LineQuantity(items[1..], cartId, productId)
  }

  /** No two lines are for the same product in the same cart. */
  predicate UniqueLines(items: seq<CartItem>) {
    items == [] ||
    (LineQuantity(items[1..], items[0].cartId, items[0].productId).None? && UniqueLines(items[1..]))
  }

  /** Position of the first line of `productId` in cart `cartId`: the
      `.eq('cart_id').eq('product_id').limit(1)` query. */
  function FindLine(items: seq<CartItem>, cartId: nat, productId: ProductId): (r: Option<nat>)
    ensures r.Some? ==> r.value < |items| && SameLine(items[r.value], cartId, productId)
    ensures r.Some? ==> LineQuantity(items, cartId, productId) == Some(items[r.value].quantity)
    ensures r.None? <==> LineQuantity(items, cartId, productId).None?
  {
    if items == [] then None
    else if SameLine(items[0], cartId, productId) then Some(0)
    else match FindLine(items[1..], cartId, productId)
      case None => None
      case Some(k) => Some(k + 1)
  }

  /** The line table after adding `qty` of a product: the first matching line is
      incremented, or a new line is appended. */
  function AddToLine(items: seq<CartItem>, cartId: nat, productId: ProductId, qty: int): (r: seq<CartItem>)
    ensures |items| <= |r| <= |items| + 1
    ensures forall i :: 0 <= i < |items| ==> r[i].cartId == items[i].cartId && r[i].productId == items[i].productId
    ensures LineQuantity(r, cartId, productId).Some?
  {
    if items == [] then [CartItem(cartId, productId, qty)]
    else if SameLine(items[0], cartId, productId) then
      [items[0].(quantity := items[0].quantity + qty)] + items[1..]
    else [items[0]] + AddToLine(items[1..], cartId, productId, qty)
  }

  /** AddToLine is what POST's two writes do: update the found line in place, or insert. */
  lemma {:induction false} AddToLineAt(items: seq<CartItem>, cartId: nat, productId: ProductId, qty: int)
    ensures match FindLine(items, cartId, productId)
      case Some(k) => AddToLine(items, cartId, productId, qty) ==
        items[k := CartItem(cartId, productId, items[k].quantity + qty)]
      case None => AddToLine(items, cartId, productId, qty) == items + [CartItem(cartId, productId, qty)]
  {
    if items != [] && !SameLine(items[0], cartId, productId) {
      AddToLineAt(items[1..], cartId, productId, qty);
      assert items == [items[0]] + items[1..];
    }
  }

  /** Adding a product already in the cart increments its quantity by `qty`; adding
      a new one creates its line with quantity `qty`. */
  lemma {:induction false} AddToLineQuantity(items: seq<CartItem>, cartId: nat, productId: ProductId, qty: int)
    ensures LineQuantity(AddToLine(items, cartId, productId, qty), cartId, productId) ==
      match LineQuantity(items, cartId, productId)
      case None => Some(qty)
      case Some(q) => Some(q + qty)
  {
    if items != [] && !SameLine(items[0], cartId, productId) {
      AddToLineQuantity(items[1..], cartId, productId, qty);
    }
  }

  /** Adding a product leaves every other (cart, product) line as it was. */
  lemma {:induction false} AddToLineOthers(items: seq<CartItem>, cartId: nat, productId: ProductId, qty: int,
                                           otherCart: nat, otherProduct: ProductId)
    requires otherCart != cartId || otherProduct != productId
    ensures LineQuantity(AddToLine(items, cartId, productId, qty), otherCart, otherProduct) ==
      LineQuantity(items, otherCart, otherProduct)
  {
    if items != [] && !SameLine(items[0], cartId, productId) {
      AddToLineOthers(items[1..], cartId, productId, qty, otherCart, otherProduct);
    }
  }

  /** Adding never creates a second line for a (cart, product) pair, and grows the
      table by one line exactly when the product was not yet in the cart. */
  lemma {:induction false} AddToLineKeepsUnique(items: seq<CartItem>, cartId: nat, productId: ProductId, qty: int)
    requires UniqueLines(items)
    ensures UniqueLines(AddToLine(items, cartId, productId, qty))
    ensures |AddToLine(items, cartId, productId, qty)| ==
      |items| + (if LineQuantity(items, cartId, productId).None? then 1 else 0)
  {
    if items == [] {
    } else if SameLine(items[0], cartId, productId) {
      var r := AddToLine(items, cartId, productId, qty);
      assert r[1..] == items[1..];
    } else {
      AddToLineKeepsUnique(items[1..], cartId, productId, qty);
      AddToLineOthers(items[1..], cartId, productId, qty, items[0].cartId, items[0].productId);
      var r := AddToLine(items, cartId, productId, qty);
      assert r[1..] == AddToLine(items[1..], cartId, productId, qty);
    }
  }

  /** The line table after PATCH: every line of `productId` in cart `cartId` gets quantity `q`. */
  function SetQuantity(items: seq<CartItem>, cartId: nat, productId: ProductId, q: int): (r: seq<CartItem>)
    ensures |r| == |items|
    ensures forall i :: 0 <= i < |items| ==> r[i].cartId == items[i].cartId && r[i].productId == items[i].productId
  {
    if items == [] then []
    else [if SameLine(items[0], cartId, productId) then items[0].(quantity := q) else items[0]]
         + SetQuantity(items[1..], cartId, productId, q)
  }

  /** PATCH sets the quantity of exactly the matching product's line; every other
      line keeps its quantity. */
  lemma {:induction false} SetQuantityEffect(items: seq<CartItem>, cartId: nat, productId: ProductId, q: int,
                                             c: nat, p: ProductId)
    ensures LineQuantity(SetQuantity(items, cartId, productId, q), c, p) ==
      if c == cartId && p == productId && LineQuantity(items, c, p).Some? then Some(q)
      else LineQuantity(items, c, p)
  {
    if items != [] {
      SetQuantityEffect(items[1..], cartId, productId, q, c, p);
    }
  }

  /** PATCH for a product that is not in the cart changes nothing. */
  lemma {:induction false} SetQuantityAbsent(items: seq<CartItem>, cartId: nat, productId: ProductId, q: int)
    requires LineQuantity(items, cartId, productId).None?
    ensures SetQuantity(items, cartId, productId, q) == items
  {
    if items != [] {
      SetQuantityAbsent(items[1..], cartId, productId, q);
    }
  }

  /** PATCH keeps the lines unique. */
  lemma {:induction false} SetQuantityKeepsUnique(items: seq<CartItem>, cartId: nat, productId: ProductId, q: int)
    requires UniqueLines(items)
    ensures UniqueLines(SetQuantity(items, cartId, productId, q))
  {
    if items != [] {
      SetQuantityKeepsUnique(items[1..], cartId, productId, q);
      SetQuantityEffect(items[1..], cartId, productId, q, items[0].cartId, items[0].productId);
      var r := SetQuantity(items, cartId, productId, q);
      assert r[1..] == SetQuantity(items[1..], cartId, productId, q);
    }
  }

  /** The line table after DELETE: the lines of `productId` in cart `cartId` are gone. */
  function RemoveLines(items: seq<CartItem>, cartId: nat, productId: ProductId): (r: seq<CartItem>)
    ensures |r| <= |items|
  {
    if items == [] then []
    else if SameLine(items[0], cartId, productId) then RemoveLines(items[1..], cartId, productId)
    else [items[0]] + RemoveLines(items[1..], cartId, productId)
  }

  /** DELETE removes only the matching product's line. */
  lemma {:induction false} RemoveLinesEffect(items: seq<CartItem>, cartId: nat, productId: ProductId,
                                             c: nat, p: ProductId)
    ensures LineQuantity(RemoveLines(items, cartId, productId), c, p) ==
      if c == cartId && p == productId then None else LineQuantity(items, c, p)
  {
    if items != [] {
      RemoveLinesEffect(items[1..], cartId, productId, c, p);
    }
  }

  /** DELETE keeps the lines unique. */
  lemma {:induction false} RemoveLinesKeepsUnique(items: seq<CartItem>, cartId: nat, productId: ProductId)
    requires UniqueLines(items)
    ensures UniqueLines(RemoveLines(items, cartId, productId))
  {
    if items != [] {
      RemoveLinesKeepsUnique(items[1..], cartId, productId);
      if !SameLine(items[0], cartId, productId) {
        RemoveLinesEffect(items[1..], cartId, productId, items[0].cartId, items[0].productId);
        var r := RemoveLines(items, cartId, productId);
        assert r[1..] == RemoveLines(items[1..], cartId, productId);
      }
    }
  }

  /** GET's view of a cart: its lines joined with the products table (an inner join, so
      a line whose product is missing is not shown), price and name from the product. */
  function CartLines(items: seq<CartItem>, products: map<ProductId, Product>, cartId: nat): (lines: seq<CartLine>)
    ensures forall l :: l in lines ==> l.id in products && l.price == products[l.id].price && l.name == products[l.id].name
    ensures forall l :: l in lines ==> LineQuantity(items, cartId, l.id).Some?
    ensures |lines| <= |items|
  {
    if items == [] then []
    else
      var rest := CartLines(items[1..], products, cartId);
      var item := items[0];
      if item.cartId == cartId && item.productId in products then
        [ShownLine(item, products)] + rest
      else rest
  }

  /** The filter `.eq('cart_id', cartId)` together with the inner join on products. */
  function IsShownIn(cartId: nat, products: map<ProductId, Product>): CartItem -> bool {
    (i: CartItem) => i.cartId == cartId && i.productId in products
  }

  /** `{ id: item.product_id, name, quantity: item.quantity, price }` for one joined line. */
  function ShownLine(item: CartItem, products: map<ProductId, Product>): CartLine
    requires item.productId in products
  {
    CartLine(item.productId, products[item.productId].name, item.quantity, products[item.productId].price)
  }

  /** Every line of the cart whose product exists is shown, in table order, with its
      own quantity and the product's name and price; nothing else is shown. */
  lemma {:induction false} CartLinesJoin(items: seq<CartItem>, products: map<ProductId, Product>, cartId: nat)
    ensures var ids := Matching(items, IsShownIn(cartId, products)); var lines := CartLines(items, products, cartId);
      |lines| == |ids| && forall k :: 0 <= k < |lines| ==>
        items[ids[k]].cartId == cartId && items[ids[k]].productId in products
        && lines[k] == ShownLine(items[ids[k]], products)
  {
    if items != [] {
      var tail := items[1..];
      var p := IsShownIn(cartId, products);
      CartLinesJoin(tail, products, cartId);
      var kt := Matching(tail, p);
      var rest := CartLines(tail, products, cartId);
      ShiftShown(items, products, cartId, kt, rest);
      MatchingFront(items, p);
      CartLinesFront(items, products, cartId);
      CartLinesStep(items, products, cartId, kt, rest, CartLines(items, products, cartId), Matching(items, p));
    }
  }

  lemma CartLinesFront(items: seq<CartItem>, products: map<ProductId, Product>, cartId: nat)
    requires items != []
    ensures var shown := items[0].cartId == cartId && items[0].productId in products;
      CartLines(items, products, cartId)
        == (if shown then [ShownLine(items[0], products)] else []) + CartLines(items[1..], products, cartId)
  {
  }

  lemma ShiftShown(items: seq<CartItem>, products: map<ProductId, Product>, cartId: nat, kt: seq<nat>, rest: seq<CartLine>)
    requires items != []
    requires |rest| == |kt| && forall k :: 0 <= k < |rest| ==>
      kt[k] < |items[1..]| && items[1..][kt[k]].cartId == cartId && items[1..][kt[k]].productId in products
      && rest[k] == ShownLine(items[1..][kt[k]], products)
    ensures forall k :: 0 <= k < |rest| ==>
      kt[k] < |items| - 1 && items[kt[k] + 1].cartId == cartId && items[kt[k] + 1].productId in products
      && rest[k] == ShownLine(items[kt[k] + 1], products)
  {
  }

  /** Putting the first line back in front of what was shown of the others. */
  lemma CartLinesStep(items: seq<CartItem>, products: map<ProductId, Product>, cartId: nat,
                      kt: seq<nat>, rest: seq<CartLine>, lines: seq<CartLine>, ids: seq<nat>)
    requires items != []
    requires |rest| == |kt| && forall k :: 0 <= k < |rest| ==>
      kt[k] < |items| - 1 && items[kt[k] + 1].cartId == cartId && items[kt[k] + 1].productId in products
      && rest[k] == ShownLine(items[kt[k] + 1], products)
    requires var shown := items[0].cartId == cartId && items[0].productId in products;
      && lines == (if shown then [ShownLine(items[0], products)] else []) + rest
      && ids == (if shown then [0] else []) + Shifted(kt)
    ensures |lines| == |ids| && forall k :: 0 <= k < |lines| ==>
      items[ids[k]].cartId == cartId && items[ids[k]].productId in products
      && lines[k] == ShownLine(items[ids[k]], products)
  {
    var n := if items[0].cartId == cartId && items[0].productId in products then 1 else 0;
    forall k | 0 <= k < |lines| ensures ids[k] < |items| && items[ids[k]].cartId == cartId
      && items[ids[k]].productId in products && lines[k] == ShownLine(items[ids[k]], products) {
      if k >= n {
        assert lines[k] == rest[k - n];
        assert ids[k] == kt[k - n] + 1;
      }
    }
  }

  // ---------------------------------------------------------------- handlers

  /** The database calls of the cart handlers; a call named in a handler's `faults`
      map fails with the mapped message. */
  datatype CartStep =
    | LookupCart    // the `.single()` active-cart lookup (its error is ignored: no cart)
    | ReadLines     // GET's cart_items read (its error is ignored: no lines)
    | ListCarts     // POST's `.limit(1)` active-cart query
    | CreateCart    // POST's cart insert
    | ReadLine      // POST's existing-line query
    | UpdateLine    // POST's increment of the existing line
    | InsertLine    // POST's insert of a new line
    | UpdateLines   // PATCH's update
    | DeleteLines   // DELETE's delete

  /** `typeof quantity === 'number' && quantity > 0 ? quantity : 1`. */
  function RequestedQuantity(quantity: Option<int>): (q: int)
    ensures q >= 1
    ensures quantity.Some? && quantity.value > 0 ==> q == quantity.value
    ensures !(quantity.Some? && quantity.value > 0) ==> q == 1
  {
    if quantity.Some? && quantity.value > 0 then quantity.value else 1
  }

  /** The cart the `.single()` lookup finds, unless that call fails. */
  function LookedUpCart(carts: seq<Cart>, user: UserId, faults: map<CartStep, string>): Option<nat> {
    if LookupCart in faults then None else SingleActiveCart(carts, user)
  }

  /** GET: the caller's cart with its product lines, or success with null data when
      there is no (single) active cart. Reads only. */
  method GetCart(db: Store, header: Option<string>, verify: Verifier, faults: map<CartStep, string>)
    returns (r: Reply)
    ensures RequireAuth(header, verify).Rejected? ==> r == RequireAuth(header, verify).reply
    ensures RequireAuth(header, verify).Authorized? ==>
      var cart := LookedUpCart(db.carts, RequireAuth(header, verify).payload.sub, faults);
      && (cart.None? ==> r == Success(200, None, "Cart not found"))
      && (cart.Some? ==>
            r == Success(200, Some(CartContents(cart.value,
                   if ReadLines in faults then [] else CartLines(db.cartItems, db.products, cart.value))),
                 "Cart fetched successfully"))
  {
    var auth := RequireAuth(header, verify);
    if IsAuthFailed(auth) {
      return auth.reply;
    }
    var cart := LookedUpCart(db.carts, auth.payload.sub, faults);
    if cart.None? {
      return Success(200, None, "Cart not found");
    }
    var lines := if ReadLines in faults then [] else CartLines(db.cartItems, db.products, cart.value);
    r := Success(200, Some(CartContents(cart.value, lines)), "Cart fetched successfully");
  }

  /** POST, first half: the user's first active cart, or a newly inserted one. */
  method FindOrCreateCart(db: Store, user: UserId, faults: map<CartStep, string>) returns (res: Result<nat>)
    modifies db`carts
    ensures ListCarts in faults ==> res == Err(faults[ListCarts]) && db.carts == old(db.carts)
    ensures ListCarts !in faults && FirstActiveCart(old(db.carts), user).None? && CreateCart in faults ==>
      res == Err(faults[CreateCart]) && db.carts == old(db.carts)
    ensures res.Ok? ==>
      res.value == CartUsedByAdd(old(db.carts), user) && db.carts == CartsAfterFindOrCreate(old(db.carts), user)
    ensures res.Ok? <==> ListCarts !in faults && (FirstActiveCart(old(db.carts), user).Some? || CreateCart !in faults)
  {
    if ListCarts in faults {
      return Err(faults[ListCarts]);
    }
    var found := FirstActiveCart(db.carts, user);
    if found.Some? {
      return Ok(found.value);
    }
    if CreateCart in faults {
      return Err(faults[CreateCart]);
    }
    var id := |db.carts|;
    db.carts := db.carts + [Cart(user, Active)];
    res := Ok(id);
  }

  /** POST, second half: increment the cart's line for the product, or insert one. */
  method AddOrIncrementLine(db: Store, cartId: nat, productId: ProductId, qty: int, faults: map<CartStep, string>)
    returns (error: Option<string>)
    modifies db`cartItems
    ensures error.None? ==> db.cartItems == AddToLine(old(db.cartItems), cartId, productId, qty)
    ensures error.Some? ==> db.cartItems == old(db.cartItems)
    ensures error.None? <==>
      ReadLine !in faults && (if LineQuantity(old(db.cartItems), cartId, productId).Some? then UpdateLine !in faults else InsertLine !in faults)
    ensures ReadLine in faults ==> error == Some(faults[ReadLine])
    ensures ReadLine !in faults && LineQuantity(old(db.cartItems), cartId, productId).Some? && UpdateLine in faults ==>
      error == Some(faults[UpdateLine])
    ensures ReadLine !in faults && LineQuantity(old(db.cartItems), cartId, productId).None? && InsertLine in faults ==>
      error == Some(faults[InsertLine])
  {
    if ReadLine in faults {
      return Some(faults[ReadLine]);
    }
    AddToLineAt(db.cartItems, cartId, productId, qty);
    var existing := FindLine(db.cartItems, cartId, productId);
    if existing.Some? {
      if UpdateLine in faults {
        return Some(faults[UpdateLine]);
      }
      var k := existing.value;
      db.cartItems := db.cartItems[k := CartItem(cartId, productId, db.cartItems[k].quantity + qty)];
    } else {
      if InsertLine in faults {
        return Some(faults[InsertLine]);
      }
      db.cartItems := db.cartItems + [CartItem(cartId, productId, qty)];
    }
    error := None;
  }

  /** POST: add `quantity` (default 1) of a product to the caller's cart. A failure
      after the cart was created leaves the new cart in place. */
  method PostCart(db: Store, header: Option<string>, verify: Verifier,
                  productId: Option<ProductId>, quantity: Option<int>, faults: map<CartStep, string>)
    returns (r: Reply)
    modifies db`carts, db`cartItems
    ensures RequireAuth(header, verify).Rejected? ==>
      r == RequireAuth(header, verify).reply && db.carts == old(db.carts) && db.cartItems == old(db.cartItems)
    ensures RequireAuth(header, verify).Authorized? && (productId == None || productId == Some("")) ==>
      r == Failure(400, "productId is required") && db.carts == old(db.carts) && db.cartItems == old(db.cartItems)
    ensures RequireAuth(header, verify).Authorized? && productId.Some? && productId.value != "" ==>
      var user := RequireAuth(header, verify).payload.sub;
      var cartFound := ListCarts !in faults && (FirstActiveCart(old(db.carts), user).Some? || CreateCart !in faults);
      var cartId := CartUsedByAdd(old(db.carts), user);
      var hasLine := LineQuantity(old(db.cartItems), cartId, productId.value).Some?;
      var lineStep := if hasLine then UpdateLine else InsertLine;
      && (ListCarts in faults ==>
            r == Failure(500, faults[ListCarts]) && db.carts == old(db.carts) && db.cartItems == old(db.cartItems))
      && (ListCarts !in faults && !cartFound ==>
            r == Failure(500, faults[CreateCart]) && db.carts == old(db.carts) && db.cartItems == old(db.cartItems))
      && (cartFound ==> db.carts == CartsAfterFindOrCreate(old(db.carts), user))
      && (cartFound && ReadLine in faults ==>
            r == Failure(500, faults[ReadLine]) && db.cartItems == old(db.cartItems))
      && (cartFound && ReadLine !in faults && lineStep in faults ==>
            r == Failure(500, faults[lineStep]) && db.cartItems == old(db.cartItems))
      && (r.status == 200 <==> cartFound && ReadLine !in faults && lineStep !in faults)
      && (r.status == 200 ==>
            r == Success(200, None, "Item added to cart")
            && db.cartItems == AddToLine(old(db.cartItems), cartId, productId.value, RequestedQuantity(quantity)))
  {
    var auth := RequireAuth(header, verify);
    if IsAuthFailed(auth) {
      return auth.reply;
    }
    if productId == None || productId == Some("") {
      return Failure(400, "productId is required");
    }
    var qty := RequestedQuantity(quantity);
    var cart := FindOrCreateCart(db, auth.payload.sub, faults);
    if cart.Err? {
      return Failure(500, cart.message);
    }
    var error := AddOrIncrementLine(db, cart.value, productId.value, qty, faults);
    if error.Some? {
      return Failure(500, error.value);
    }
    r := Success(200, None, "Item added to cart");
  }

  /** PATCH: set the quantity of the product's line in the caller's active cart. */
  method PatchCart(db: Store, header: Option<string>, verify: Verifier,
                   productId: Option<ProductId>, quantity: Option<int>, faults: map<CartStep, string>)
    returns (r: Reply)
    modifies db`cartItems
    ensures RequireAuth(header, verify).Rejected? ==>
      r == RequireAuth(header, verify).reply && db.cartItems == old(db.cartItems)
    ensures RequireAuth(header, verify).Authorized? && (productId.None? || quantity.None? || quantity.value < 1) ==>
      r == Failure(400, "productId and quantity (>= 1) required") && db.cartItems == old(db.cartItems)
    ensures RequireAuth(header, verify).Authorized? && productId.Some? && quantity.Some? && quantity.value >= 1 ==>
      match LookedUpCart(db.carts, RequireAuth(header, verify).payload.sub, faults)
      case None => r == Failure(404, "Cart not found") && db.cartItems == old(db.cartItems)
      case Some(cart) =>
        if UpdateLines in faults then r == Failure(500, faults[UpdateLines]) && db.cartItems == old(db.cartItems)
        else
          r == Success(200, None, "Cart item updated")
          && db.cartItems == SetQuantity(old(db.cartItems), cart, productId.value, quantity.value)
  {
    var auth := RequireAuth(header, verify);
    if IsAuthFailed(auth) {
      return auth.reply;
    }
    if productId.None? || quantity.None? || quantity.value < 1 {
      return Failure(400, "productId and quantity (>= 1) required");
    }
    var cart := LookedUpCart(db.carts, auth.payload.sub, faults);
    if cart.None? {
      return Failure(404, "Cart not found");
    }
    if UpdateLines in faults {
      return Failure(500, faults[UpdateLines]);
    }
    db.cartItems := SetQuantity(db.cartItems, cart.value, productId.value, quantity.value);
    r := Success(200, None, "Cart item updated");
  }

  /** DELETE: remove the product's line from the caller's active cart. */
  method DeleteCartItem(db: Store, header: Option<string>, verify: Verifier,
                        productId: Option<ProductId>, faults: map<CartStep, string>)
    returns (r: Reply)
    modifies db`cartItems
    ensures RequireAuth(header, verify).Rejected? ==>
      r == RequireAuth(header, verify).reply && db.cartItems == old(db.cartItems)
    ensures RequireAuth(header, verify).Authorized? && (productId == None || productId == Some("")) ==>
      r == Failure(400, "productId query param required") && db.cartItems == old(db.cartItems)
    ensures RequireAuth(header, verify).Authorized? && productId.Some? && productId.value != "" ==>
      match LookedUpCart(db.carts, RequireAuth(header, verify).payload.sub, faults)
      case None => r == Failure(404, "Cart not found") && db.cartItems == old(db.cartItems)
      case Some(cart) =>
        if DeleteLines in faults then r == Failure(500, faults[DeleteLines]) && db.cartItems == old(db.cartItems)
        else
          r == Success(200, None, "Cart item removed")
          && db.cartItems == RemoveLines(old(db.cartItems), cart, productId.value)
  {
    var auth := RequireAuth(header, verify);
    if IsAuthFailed(auth) {
      return auth.reply;
    }
    if productId == None || productId == Some("") {
      return Failure(400, "productId query param required");
    }
    var cart := LookedUpCart(db.carts, auth.payload.sub, faults);
    if cart.None? {
      return Failure(404, "Cart not found");
    }
    if DeleteLines in faults {
      return Failure(500, faults[DeleteLines]);
    }
    db.cartItems := RemoveLines(db.cartItems, cart.value, productId.value);
    r := Success(200, None, "Cart item removed");
  }
}
