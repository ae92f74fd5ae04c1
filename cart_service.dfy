/** `CartService`: the signed-in customer's cart kept as rows of the database's `Cart` table. */
module CartDb {
  import opened Wrappers
  import opened Int32
  import opened Seqs
  import Records

  /** `ABCRetails.Models.CartItem`; `Id` is a GUID string chosen when the row is created. */
  datatype CartItem = CartItem(id: string, customerId: string, productId: string, quantity: int32, unitPrice: real) {
    /** `Total => Quantity * UnitPrice` */
    function Total(): real { quantity as real * unitPrice }
  }

  function OwnedBy(userId: string): CartItem -> bool {
    (c: CartItem) => c.customerId == userId
  }

  function ForCustomerProduct(userId: string, productId: string): CartItem -> bool {
    (c: CartItem) => c.customerId == userId && c.productId == productId
  }

  /** Where `FirstOrDefaultAsync(c => c.CustomerId == userId && c.ProductId == productId)` stops. */
  function Lookup(rows: seq<CartItem>, userId: string, productId: string): Option<nat> {
    FirstIndex(ForCustomerProduct(userId, productId), rows)
  }

  /** The table's invariant: `Id` is the primary key, and a customer has at most one row per product. */
  ghost predicate Valid(rows: seq<CartItem>) {
    forall i, j | 0 <= i < j < |rows| ::
      rows[i].id != rows[j].id
      && (rows[i].customerId != rows[j].customerId || rows[i].productId != rows[j].productId)
  }

  ghost predicate NotAnId(rows: seq<CartItem>, id: string) {
    forall i | 0 <= i < |rows| :: rows[i].id != id
  }

  ghost predicate HasRow(rows: seq<CartItem>, userId: string, productId: string) {
    exists i | 0 <= i < |rows| :: rows[i].customerId == userId && rows[i].productId == productId
  }

  /** The table after `AddToCartAsync(userId, product, quantity)`; `newId` is the GUID a new row gets. */
  function Added(rows: seq<CartItem>, userId: string, product: Records.Product, quantity: int32, newId: string): seq<CartItem> {
    match Lookup(rows, userId, product.id)
    case Some(i) => rows[i := rows[i].(quantity := Add(rows[i].quantity, quantity))]
    case None => rows + [CartItem(newId, userId, product.id, quantity, product.price)]
  }

  /** The table after `UpdateQuantityAsync(userId, productId, quantity)`. */
  function Updated(rows: seq<CartItem>, userId: string, productId: string, quantity: int32): seq<CartItem> {
    match Lookup(rows, userId, productId)
    case Some(i) => if quantity <= 0 then RemoveAt(rows, i) else rows[i := rows[i].(quantity := quantity)]
    case None => rows
  }

  /** The table after `RemoveItemAsync(userId, productId)`. */
  function Removed(rows: seq<CartItem>, userId: string, productId: string): seq<CartItem> {
    match Lookup(rows, userId, productId)
    case Some(i) => RemoveAt(rows, i)
    case None => rows
  }

  lemma LookupFindsRow(rows: seq<CartItem>, userId: string, productId: string, i: int)
    requires Valid(rows)
    requires 0 <= i < |rows| && rows[i].customerId == userId && rows[i].productId == productId
    ensures Lookup(rows, userId, productId) == Some(i)
  {
  }

  /** Adding a product the customer already has adds to that row's quantity (32-bit, unchecked) and
      keeps its id and the unit price captured when it was first added; no row is created. */
  lemma AddToExistingRow(rows: seq<CartItem>, userId: string, product: Records.Product, quantity: int32, newId: string, i: int)
    requires Valid(rows)
    requires 0 <= i < |rows| && rows[i].customerId == userId && rows[i].productId == product.id
    ensures var r := Added(rows, userId, product, quantity, newId);
      |r| == |rows| && r[i].id == rows[i].id && r[i].unitPrice == rows[i].unitPrice
      && r[i].quantity == Add(rows[i].quantity, quantity)
      && r[i].customerId == userId && r[i].productId == product.id
      && forall j | 0 <= j < |rows| && j != i :: r[j] == rows[j]
  {
    LookupFindsRow(rows, userId, product.id, i);
  }

  /** Adding a product the customer does not have appends one row priced at the product's current price. */
  lemma AddNewRow(rows: seq<CartItem>, userId: string, product: Records.Product, quantity: int32, newId: string)
    requires !HasRow(rows, userId, product.id)
    ensures Added(rows, userId, product, quantity, newId)
         == rows + [CartItem(newId, userId, product.id, quantity, product.price)]
  {
  }

  /** Adding keeps the table's invariant when the new GUID is not already an id. */
  lemma AddKeepsValid(rows: seq<CartItem>, userId: string, product: Records.Product, quantity: int32, newId: string)
    requires Valid(rows) && NotAnId(rows, newId)
    ensures Valid(Added(rows, userId, product, quantity, newId))
  {
    match Lookup(rows, userId, product.id)
    case Some(i) =>
    case None =>
      var r := Added(rows, userId, product, quantity, newId);
      forall a, b | 0 <= a < b < |r|
        ensures r[a].id != r[b].id && (r[a].customerId != r[b].customerId || r[a].productId != r[b].productId)
      {
        if b == |rows| {
          assert !ForCustomerProduct(userId, product.id)(rows[a]);
        }
      }
  }

  /** Updating to zero or less deletes the row; a positive quantity replaces the row's quantity only. */
  lemma UpdateSetsOrRemoves(rows: seq<CartItem>, userId: string, productId: string, quantity: int32, i: int)
    requires Valid(rows)
    requires 0 <= i < |rows| && rows[i].customerId == userId && rows[i].productId == productId
    ensures quantity <= 0 ==> Updated(rows, userId, productId, quantity) == rows[..i] + rows[i + 1..]
    ensures quantity > 0 ==> Updated(rows, userId, productId, quantity) == rows[i := rows[i].(quantity := quantity)]
    ensures Removed(rows, userId, productId) == rows[..i] + rows[i + 1..]
  {
    LookupFindsRow(rows, userId, productId, i);
  }

  /** Updating or removing a product the customer does not have changes nothing. */
  lemma AbsentRowUnchanged(rows: seq<CartItem>, userId: string, productId: string, quantity: int32)
    requires !HasRow(rows, userId, productId)
    ensures Updated(rows, userId, productId, quantity) == rows
    ensures Removed(rows, userId, productId) == rows
  {
  }

  lemma RemoveAtKeepsValid(rows: seq<CartItem>, i: nat)
    requires Valid(rows) && i < |rows|
    ensures Valid(RemoveAt(rows, i))
  {
    var r := RemoveAt(rows, i);
    forall a, b | 0 <= a < b < |r|
      ensures r[a].id != r[b].id && (r[a].customerId != r[b].customerId || r[a].productId != r[b].productId)
    {
      var a' := if a < i then a else a + 1;
      var b' := if b < i then b else b + 1;
      assert r[a] == rows[a'] && r[b] == rows[b'];
    }
  }

  /** Updating and removing keep the table's invariant. */
  lemma UpdateRemoveKeepValid(rows: seq<CartItem>, userId: string, productId: string, quantity: int32)
    requires Valid(rows)
    ensures Valid(Updated(rows, userId, productId, quantity))
    ensures Valid(Removed(rows, userId, productId))
  {
    match Lookup(rows, userId, productId)
    case None =>
    case Some(i) =>
      RemoveAtKeepsValid(rows, i);
  }

  /** The rows `GetCartItemsAsync(userId)` returns. */
  function ItemsOf(rows: seq<CartItem>, userId: string): seq<CartItem> {
    Filter(OwnedBy(userId), rows)
  }

  /** The customer's rows keep table order: the rows of two runs of the table are those of the
      first run followed by those of the second, and a single row is kept exactly when it is theirs. */
  lemma ItemsOfKeepsOrder(front: seq<CartItem>, back: seq<CartItem>, userId: string, x: CartItem)
    ensures ItemsOf(front + back, userId) == ItemsOf(front, userId) + ItemsOf(back, userId)
    ensures ItemsOf([x], userId) == (if x.customerId == userId then [x] else [])
  {
    FilterAppend(OwnedBy(userId), front, back);
    assert [x][1..] == [];
  }

  /** One customer's cart actions never change another customer's cart. */
  lemma OtherCustomersUntouched(rows: seq<CartItem>, userId: string, other: string,
                                product: Records.Product, productId: string, quantity: int32, newId: string)
    requires other != userId
    ensures ItemsOf(Added(rows, userId, product, quantity, newId), other) == ItemsOf(rows, other)
    ensures ItemsOf(Updated(rows, userId, productId, quantity), other) == ItemsOf(rows, other)
    ensures ItemsOf(Removed(rows, userId, productId), other) == ItemsOf(rows, other)
  {
    var p := OwnedBy(other);
    match Lookup(rows, userId, product.id) {
      case Some(i) =>
        FilterUpdateSkipped(p, rows, i, rows[i].(quantity := Add(rows[i].quantity, quantity)));
      case None =>
        FilterAppend(p, rows, [CartItem(newId, userId, product.id, quantity, product.price)]);
        assert [CartItem(newId, userId, product.id, quantity, product.price)][1..] == [];
    }
    match Lookup(rows, userId, productId) {
      case Some(i) =>
        FilterRemoveSkipped(p, rows, i);
        FilterUpdateSkipped(p, rows, i, rows[i].(quantity := quantity));
      case None =>
    }
  }

  /** The database context's `Cart` set. */
  class CartService {
    var rows: seq<CartItem>

    constructor (rows0: seq<CartItem>)
      ensures rows == rows0
    {
      rows := rows0;
    }

    /** `GetCartItemsAsync(userId)`: exactly the customer's rows, in table order. */
    function GetCartItems(userId: string): (r: seq<CartItem>)
      reads this
      ensures forall x :: x in r <==> x in rows && x.customerId == userId
      ensures |r| <= |rows|
      ensures r == ItemsOf(rows, userId)
    {
      FilterMembershipAll(OwnedBy(userId), rows);
      ItemsOf(rows, userId)
    }

    /** `AddToCartAsync(userId, product, quantity)`; `newId` stands for `Guid.NewGuid()`. */
    method AddToCart(userId: string, product: Records.Product, quantity: int32, newId: string)
      modifies this
      ensures rows == Added(old(rows), userId, product, quantity, newId)
      ensures Valid(old(rows)) && NotAnId(old(rows), newId) ==> Valid(rows)
    {
      if Valid(rows) && NotAnId(rows, newId) {
        AddKeepsValid(rows, userId, product, quantity, newId);
      }
      var existing := Lookup(rows, userId, product.id);
      if existing.Some? {
        var i := existing.value;
        rows := rows[i := rows[i].(quantity := Add(rows[i].quantity, quantity))];
      } else {
        rows := rows + [CartItem(newId, userId, product.id, quantity, product.price)];
      }
    }

    /** `UpdateQuantityAsync(userId, productId, quantity)` */
    method UpdateQuantity(userId: string, productId: string, quantity: int32)
      modifies this
      ensures rows == Updated(old(rows), userId, productId, quantity)
      ensures Valid(old(rows)) ==> Valid(rows)
    {
      if Valid(rows) {
        UpdateRemoveKeepValid(rows, userId, productId, quantity);
      }
      var item := Lookup(rows, userId, productId);
      if item.Some? {
        var i := item.value;
        if quantity <= 0 {
          rows := rows[..i] + rows[i + 1..];
        } else {
          rows := rows[i := rows[i].(quantity := quantity)];
        }
      }
    }

    /** `RemoveItemAsync(userId, productId)` */
    method RemoveItem(userId: string, productId: string)
      modifies this
      ensures rows == Removed(old(rows), userId, productId)
      ensures Valid(old(rows)) ==> Valid(rows)
    {
      if Valid(rows) {
        UpdateRemoveKeepValid(rows, userId, productId, 0);
      }
      var item := Lookup(rows, userId, productId);
      if item.Some? {
        rows := rows[..item.value] + rows[item.value + 1..];
      }
    }
  }
}
