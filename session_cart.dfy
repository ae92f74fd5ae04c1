/** `CartController`: the anonymous shopping cart kept in the session as a list of
    (ProductId, Quantity) entries, the cart view, checkout and the "my orders" list. */
module SessionCart {
  import opened Wrappers
  import opened Int32
  import opened Seqs
  import Text
  import Records
  import OrderModel

  /** The controller's own `CartItem` class. */
  datatype CartItem = CartItem(productId: string, quantity: int32)

  function ForProduct(productId: string): CartItem -> bool {
    (c: CartItem) => c.productId == productId
  }

  /** Where `cart.FirstOrDefault(c => c.ProductId == productId)` stops. */
  function IndexOf(cart: seq<CartItem>, productId: string): Option<nat> {
    FirstIndex(ForProduct(productId), cart)
  }

  /** No two entries share a product. */
  ghost predicate DistinctProducts(cart: seq<CartItem>) {
    forall i, j | 0 <= i < j < |cart| :: cart[i].productId != cart[j].productId
  }

  ghost predicate InCart(cart: seq<CartItem>, productId: string) {
    exists i | 0 <= i < |cart| :: cart[i].productId == productId
  }

  /** The first entry for the product is at index i. */
  ghost predicate FirstEntryAt(cart: seq<CartItem>, productId: string, i: int) {
    0 <= i < |cart| && cart[i].productId == productId
    && forall j | 0 <= j < i :: cart[j].productId != productId
  }

  // ---------------------------------------------------------------------------
  // The cart after each action, as functions of the cart before it.

  function AfterAdd(cart: seq<CartItem>, productId: string, quantity: int32): seq<CartItem> {
    match IndexOf(cart, productId)
    case Some(i) => cart[i := cart[i].(quantity := Add(cart[i].quantity, quantity))]
    case None => cart + [CartItem(productId, quantity)]
  }

  function AfterEdit(cart: seq<CartItem>, productId: string, quantity: int32): seq<CartItem> {
    match IndexOf(cart, productId)
    case Some(i) => if quantity <= 0 then RemoveAt(cart, i) else cart[i := cart[i].(quantity := quantity)]
    case None => cart
  }

  function AfterRemove(cart: seq<CartItem>, productId: string): seq<CartItem> {
    match IndexOf(cart, productId)
    case Some(i) => RemoveAt(cart, i)
    case None => cart
  }

  lemma IndexOfIsFirstEntry(cart: seq<CartItem>, productId: string, i: int)
    requires FirstEntryAt(cart, productId, i)
    ensures IndexOf(cart, productId) == Some(i)
  {
  }

  /** Adding a product already in the cart adds to that entry's quantity (32-bit, unchecked)
      and adds no entry; every other entry is untouched. */
  lemma AddToExisting(cart: seq<CartItem>, productId: string, quantity: int32, i: int)
    requires FirstEntryAt(cart, productId, i)
    ensures var r := AfterAdd(cart, productId, quantity);
      |r| == |cart| && r[i] == CartItem(productId, Add(cart[i].quantity, quantity))
      && forall j | 0 <= j < |cart| && j != i :: r[j] == cart[j]
  {
    IndexOfIsFirstEntry(cart, productId, i);
  }

  /** Adding a product not in the cart appends exactly one entry with the given quantity. */
  lemma AddNew(cart: seq<CartItem>, productId: string, quantity: int32)
    requires !InCart(cart, productId)
    ensures AfterAdd(cart, productId, quantity) == cart + [CartItem(productId, quantity)]
  {
  }

  /** Adding keeps "no two entries share a ProductId". */
  lemma AddKeepsDistinct(cart: seq<CartItem>, productId: string, quantity: int32)
    requires DistinctProducts(cart)
    ensures DistinctProducts(AfterAdd(cart, productId, quantity))
  {
    match IndexOf(cart, productId)
    case Some(i) =>
    case None =>
      var r := AfterAdd(cart, productId, quantity);
      forall a, b | 0 <= a < b < |r| ensures r[a].productId != r[b].productId {
        if b == |cart| {
          assert !ForProduct(productId)(cart[a]);
        }
      }
  }

  /** Editing to a quantity of zero or less removes the entry; a positive quantity replaces it. */
  lemma EditSetsOrRemoves(cart: seq<CartItem>, productId: string, quantity: int32, i: int)
    requires FirstEntryAt(cart, productId, i)
    ensures quantity <= 0 ==> AfterEdit(cart, productId, quantity) == cart[..i] + cart[i + 1..]
    ensures quantity > 0 ==> AfterEdit(cart, productId, quantity) == cart[i := CartItem(productId, quantity)]
  {
    IndexOfIsFirstEntry(cart, productId, i);
  }

  /** Editing or removing a product that is not in the cart changes nothing. */
  lemma AbsentProductUnchanged(cart: seq<CartItem>, productId: string, quantity: int32)
    requires !InCart(cart, productId)
    ensures AfterEdit(cart, productId, quantity) == cart
    ensures AfterRemove(cart, productId) == cart
  {
  }

  /** Removing deletes only the matching entry: in a cart with distinct products the product is
      gone afterwards and the other entries keep their order and quantities. */
  lemma RemoveOnlyMatching(cart: seq<CartItem>, productId: string, i: int)
    requires DistinctProducts(cart)
    requires 0 <= i < |cart| && cart[i].productId == productId
    ensures AfterRemove(cart, productId) == cart[..i] + cart[i + 1..]
    ensures !InCart(AfterRemove(cart, productId), productId)
    ensures DistinctProducts(AfterRemove(cart, productId))
  {
    assert FirstEntryAt(cart, productId, i);
    IndexOfIsFirstEntry(cart, productId, i);
    var r := AfterRemove(cart, productId);
    forall j | 0 <= j < |r| ensures r[j].productId != productId {
      if j < i { assert r[j] == cart[j]; } else { assert r[j] == cart[j + 1]; }
    }
  }

  /** Editing keeps "no two entries share a ProductId". */
  lemma EditKeepsDistinct(cart: seq<CartItem>, productId: string, quantity: int32)
    requires DistinctProducts(cart)
    ensures DistinctProducts(AfterEdit(cart, productId, quantity))
  {
    match IndexOf(cart, productId)
    case None =>
    case Some(i) =>
      var r := AfterEdit(cart, productId, quantity);
      if quantity <= 0 {
        forall a, b | 0 <= a < b < |r| ensures r[a].productId != r[b].productId {
          var a' := if a < i then a else a + 1;
          var b' := if b < i then b else b + 1;
          assert r[a] == cart[a'] && r[b] == cart[b'];
        }
      }
  }

  // ---------------------------------------------------------------------------
  // Checkout

  /** One `CreateOrderAsync(userId, productId, quantity)` call. */
  datatype OrderRequest = OrderRequest(customerId: string, productId: string, quantity: int32)

  /** The calls checkout makes for the given entries, in cart order. */
  function RequestsFor(userId: string, items: seq<CartItem>): (r: seq<OrderRequest>)
    ensures |r| == |items|
    ensures forall i | 0 <= i < |items| :: r[i] == OrderRequest(userId, items[i].productId, items[i].quantity)
  {
    MapSeq((c: CartItem) => OrderRequest(userId, c.productId, c.quantity), items)
  }

  datatype CheckoutOutcome =
    | CartEmpty            // "Your cart is empty!"
    | UserNotIdentified    // "User not identified!"
    | OrderPlaced          // "Order placed successfully!", redirect to MyOrders
    | RequestThrew(at: nat)  // the call for entry `at` threw; the exception leaves the action

  /** The session state of one visitor. An absent "Cart" key reads as the empty list. */
  class CartSession {
    var cart: seq<CartItem>

    constructor ()
      ensures cart == []
    {
      cart := [];
    }

    /** `AddToCart(productId, quantity)` */
    method AddToCart(productId: string, quantity: int32)
      modifies this
      ensures cart == AfterAdd(old(cart), productId, quantity)
    {
      var found := IndexOf(cart, productId);
      if found.Some? {
        var i := found.value;
        cart := cart[i := cart[i].(quantity := Add(cart[i].quantity, quantity))];
      } else {
        cart := cart + [CartItem(productId, quantity)];
      }
    }

    /** `EditCartItem(productId, quantity)` */
    method EditCartItem(productId: string, quantity: int32)
      modifies this
      ensures cart == AfterEdit(old(cart), productId, quantity)
    {
      var found := IndexOf(cart, productId);
      if found.Some? {
        var i := found.value;
        if quantity <= 0 {
          cart := cart[..i] + cart[i + 1..];
        } else {
          cart := cart[i := cart[i].(quantity := quantity)];
        }
      }
    }

    /** `RemoveCartItem(productId)` */
    method RemoveCartItem(productId: string)
      modifies this
      ensures cart == AfterRemove(old(cart), productId)
    {
      var found := IndexOf(cart, productId);
      if found.Some? {
        cart := cart[..found.value] + cart[found.value + 1..];
      }
    }

    /** `Checkout()`: with an empty cart or no signed-in user nothing is requested and the cart stays.
        Otherwise one order request per entry, in cart order; `failAt` is the entry whose request
        throws, if any: the requests up to and including it were made and the cart stays.
        When none throws the cart is cleared. */
    method Checkout(userId: Option<string>, failAt: Option<nat>) returns (outcome: CheckoutOutcome, requests: seq<OrderRequest>)
      modifies this
      ensures old(cart) == [] ==> outcome == CartEmpty && requests == [] && cart == old(cart)
      ensures old(cart) != [] && Text.IsNullOrWhiteSpace(userId) ==>
        outcome == UserNotIdentified && requests == [] && cart == old(cart)
      ensures old(cart) != [] && !Text.IsNullOrWhiteSpace(userId) ==>
        if failAt.Some? && failAt.value < |old(cart)| then
          outcome == RequestThrew(failAt.value) && cart == old(cart)
          && requests == RequestsFor(userId.value, old(cart)[..failAt.value + 1])
        else
          outcome == OrderPlaced && cart == [] && requests == RequestsFor(userId.value, old(cart))
    {
      requests := [];
      if cart == [] {
        outcome := CartEmpty;
        return;
      }
      if Text.IsNullOrWhiteSpace(userId) {
        outcome := UserNotIdentified;
        return;
      }
      var uid := userId.value;
      var i := 0;
      while i < |cart|
        invariant 0 <= i <= |cart|
        invariant failAt.Some? ==> i <= failAt.value
        invariant requests == RequestsFor(uid, cart[..i])
      {
        requests := requests + [OrderRequest(uid, cart[i].productId, cart[i].quantity)];
        if failAt == Some(i) {
          outcome := RequestThrew(i);
          return;
        }
        i := i + 1;
      }
      assert cart[..i] == cart;
      cart := [];
      outcome := OrderPlaced;
    }
  }

  // ---------------------------------------------------------------------------
  // ViewCart and MyOrders

  /** `CartItemViewModel` */
  datatype CartLineView = CartLineView(productId: string, productName: string, unitPrice: real, quantity: int32) {
    function Total(): real { unitPrice * quantity as real }
  }

  function ProductById(products: seq<Records.Product>, productId: string): Option<Records.Product> {
    FirstOrDefault((p: Records.Product) => p.id == productId, products)
  }

  /** `ViewCart()`: one line per entry, in cart order, joined with the first product of that id;
      an entry whose product is missing shows an empty name and a zero price. */
  function ViewCart(cart: seq<CartItem>, products: seq<Records.Product>): (r: seq<CartLineView>)
    ensures |r| == |cart|
    ensures forall i | 0 <= i < |cart| ::
      r[i].productId == cart[i].productId && r[i].quantity == cart[i].quantity
    ensures forall i | 0 <= i < |cart| && (forall p | p in products :: p.id != cart[i].productId) ::
      r[i].productName == "" && r[i].unitPrice == 0.0
    ensures forall i, j | 0 <= i < |cart| && 0 <= j < |products| && products[j].id == cart[i].productId
                          && (forall k | 0 <= k < j :: products[k].id != cart[i].productId) ::
      r[i].productName == products[j].productName && r[i].unitPrice == products[j].price
  {
    MapSeq((c: CartItem) =>
      var p := ProductById(products, c.productId);
      CartLineView(c.productId,
                   if p.Some? then p.value.productName else "",
                   if p.Some? then p.value.price else 0.0,
                   c.quantity),
      cart)
  }

  /** `MyOrders()`: None when no user is signed in (redirect to the product list);
      otherwise the orders whose CustomerId is the user's id. */
  function MyOrders(userId: Option<string>, allOrders: seq<OrderModel.Order>): (r: Option<seq<OrderModel.Order>>)
    ensures r.None? <==> Text.IsNullOrWhiteSpace(userId)
  {
    if Text.IsNullOrWhiteSpace(userId) then None
    else Some(Filter((o: OrderModel.Order) => o.customerId == userId.value, allOrders))
  }

  /** The list holds exactly the user's orders, in the order the service returned them. */
  lemma MyOrdersExactly(userId: string, orders: seq<OrderModel.Order>, extra: seq<OrderModel.Order>, o: OrderModel.Order)
    requires !Text.IsNullOrWhiteSpace(Some(userId))
    ensures o in MyOrders(Some(userId), orders).value <==> o in orders && o.customerId == userId
    ensures MyOrders(Some(userId), orders + extra).value
         == MyOrders(Some(userId), orders).value + MyOrders(Some(userId), extra).value
  {
    FilterMembership((o: OrderModel.Order) => o.customerId == userId, orders, o);
    FilterAppend((o: OrderModel.Order) => o.customerId == userId, orders, extra);
  }
}
