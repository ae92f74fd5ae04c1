/** `OrdersFunctions`: the order list and the partial order update of the function app. */
module OrdersApi {
  import opened Wrappers
  import opened Int32
  import opened Seqs
  import opened Tables
  import opened FunctionsHttp
  import Text

  /** The order entity's properties (its keys and ETag are in `Tables.Entity`). */
  datatype OrderEntity = OrderEntity(customerId: string, username: string, productId: string,
                                     productName: string, orderDate: int, quantity: int32,
                                     unitPrice: real, totalPrice: real, status: string)

  /** `OrderDto`: the entity with its row key as OrderId. */
  datatype OrderDto = OrderDto(orderId: string, customerId: string, username: string, productId: string,
                               productName: string, orderDate: int, quantity: int32,
                               unitPrice: real, totalPrice: real, status: string)

  /** `Map.ToDto(OrderEntity)` */
  function ToDto(e: Entity<OrderEntity>): OrderDto {
    var v := e.value;
    OrderDto(e.rowKey, v.customerId, v.username, v.productId, v.productName, v.orderDate,
             v.quantity, v.unitPrice, v.totalPrice, v.status)
  }

  predicate InOrderPartition(e: Entity<OrderEntity>) {
    e.partitionKey == "Order"
  }

  // ---------------------------------------------------------------------------
  // List

  predicate SortedByDateDescending(s: seq<OrderDto>) {
    forall i, j | 0 <= i < j < |s| :: s[i].orderDate >= s[j].orderDate
  }

  /** Inserts x before the first element not later than it, so it precedes equal dates that
      came after it in the input: the sort below is stable like `OrderByDescending`. */
  function InsertByDate(x: OrderDto, s: seq<OrderDto>): (r: seq<OrderDto>)
    ensures multiset(r) == multiset(s) + multiset{x}
    ensures r[0] == x || (s != [] && r[0] == s[0])
  {
    if s == [] then [x]
    else if x.orderDate >= s[0].orderDate then [x] + s
    else
      assert s == [s[0]] + s[1..];
      [s[0]] + InsertByDate(x, s[1..])
  }

  /** `items.OrderByDescending(o => o.OrderDate)` */
  function SortByDateDescending(s: seq<OrderDto>): (r: seq<OrderDto>)
    ensures multiset(r) == multiset(s)
  {
    if s == [] then []
    else
      assert s == [s[0]] + s[1..];
      InsertByDate(s[0], SortByDateDescending(s[1..]))
  }

  lemma {:induction false} InsertKeepsSorted(x: OrderDto, s: seq<OrderDto>)
    requires SortedByDateDescending(s)
    ensures SortedByDateDescending(InsertByDate(x, s))
  {
    if s != [] && x.orderDate < s[0].orderDate {
      InsertKeepsSorted(x, s[1..]);
      var t := InsertByDate(x, s[1..]);
      // t's head is x or s[1], both no later than s[0]; t is sorted, so so is [s[0]] + t.
      assert s[0].orderDate >= t[0].orderDate;
      assert forall k | 0 < k < |t| :: t[0].orderDate >= t[k].orderDate;
    }
  }

  /** The sorted list is in descending date order and is a permutation of its input. */
  lemma {:induction false} SortIsSortedPermutation(s: seq<OrderDto>)
    ensures SortedByDateDescending(SortByDateDescending(s))
    ensures multiset(SortByDateDescending(s)) == multiset(s)
  {
    if s != [] {
      SortIsSortedPermutation(s[1..]);
      InsertKeepsSorted(s[0], SortByDateDescending(s[1..]));
    }
  }

  /** `List`: the DTOs of the entities in partition "Order", latest order date first.
      `rows` is what the table query yields, in the order it yields it. */
  method List(rows: seq<Entity<OrderEntity>>) returns (ordered: seq<OrderDto>)
    ensures SortedByDateDescending(ordered)
    ensures multiset(ordered) == multiset(MapSeq(ToDto, Filter(InOrderPartition, rows)))
  {
    var items: seq<OrderDto> := [];
    var i := 0;
    while i < |rows|
      invariant 0 <= i <= |rows|
      invariant items == MapSeq(ToDto, Filter(InOrderPartition, rows[..i]))
    {
      assert rows[..i + 1] == rows[..i] + [rows[i]];
      FilterAppend(InOrderPartition, rows[..i], [rows[i]]);
      assert [rows[i]][1..] == [];
      if rows[i].partitionKey == "Order" {
        items := items + [ToDto(rows[i])];
      }
      i := i + 1;
    }
    assert rows[..i] == rows;
    ordered := SortByDateDescending(items);
    SortIsSortedPermutation(items);
  }

  // ---------------------------------------------------------------------------
  // Get

  const OrderNotFound: string := "Order not found"

  /** `Get(id)`: a 404 answers "Order not found"; any other failure escapes the handler. */
  function Get(table: Table<OrderEntity>, id: string, fault: Option<Failure>): (r: Response<OrderDto>)
    requires WellKeyed(table)
    ensures r.Ok? <==> fault.None? && Key("Order", id) in table
    ensures r.Ok? ==> r.body == ToDto(table[Key("Order", id)]) && r.body.orderId == id
    ensures r.NotFound? <==> (if fault.Some? then fault.value.status == StatusNotFound else Key("Order", id) !in table)
    ensures r.NotFound? ==> r.message == OrderNotFound
    ensures r.Ok? || r.NotFound? || r.Unhandled?
  {
    match GetEntity(table, "Order", id, fault)
    case Success(e) => Ok(ToDto(e))
    case Failure(f) => if f.status == StatusNotFound then NotFound(OrderNotFound) else Unhandled(f.message)
  }

  // ---------------------------------------------------------------------------
  // Update

  /** `entity.Quantity * entity.UnitPrice` */
  function LineTotal(quantity: int32, unitPrice: real): real {
    quantity as real * unitPrice
  }

  /** The properties Update may change, and how: a present key whose value parses sets Quantity or
      UnitPrice; a present Status that is not null replaces the status, unvalidated; the total is
      then recomputed. Everything else stays. */
  predicate MergedFrom(before: OrderEntity, after: OrderEntity, f: Fields) {
    after.quantity == IntField(f, "Quantity").GetOr(before.quantity)
    && after.unitPrice == RealField(f, "UnitPrice").GetOr(before.unitPrice)
    && after.status == TextField(f, "Status").GetOr(before.status)
    && after.totalPrice == LineTotal(after.quantity, after.unitPrice)
    && after.customerId == before.customerId && after.username == before.username
    && after.productId == before.productId && after.productName == before.productName
    && after.orderDate == before.orderDate
  }

  /** Lines 147-156 of the handler: the entity's properties assigned one by one from the body. */
  method MergeFields(before: OrderEntity, f: Fields) returns (after: OrderEntity)
    ensures MergedFrom(before, after, f)
  {
    after := before;
    var quantity := IntField(f, "Quantity");
    if quantity.Some? {
      after := after.(quantity := quantity.value);
    }
    var price := RealField(f, "UnitPrice");
    if price.Some? {
      after := after.(unitPrice := price.value);
    }
    if "Status" in f {
      after := after.(status := f["Status"].GetOr(after.status));
    }
    after := after.(totalPrice := LineTotal(after.quantity, after.unitPrice));
  }

  /** `Update(id)` with body `body`; `readFault` and `writeFault` are what the table reports for
      the read and the write beyond what its contents decide. */
  method Update(table: Table<OrderEntity>, id: string, body: Json<Fields>,
                readFault: Option<Failure>, writeFault: Option<Failure>)
    returns (response: Response<OrderDto>, written: Table<OrderEntity>)
    requires WellKeyed(table)
    ensures WellKeyed(written)
    ensures !response.Ok? ==> written == table
    ensures var read := GetEntity(table, "Order", id, readFault);
      (read.Failure? && read.error.status == StatusNotFound ==> response == NotFound(OrderNotFound))
      && (read.Failure? && read.error.status != StatusNotFound ==> response == BadRequest("Internal error: " + read.error.message))
      && (read.Success? && body.Null? ==> response == BadRequest("Request body is empty"))
      && (read.Success? && body.Malformed? ==> response == BadRequest("Internal error: " + body.message))
      && (read.Success? && body.Value? && writeFault.Some? ==>
            response == (if writeFault.value.status == StatusNotFound then NotFound(OrderNotFound)
                         else BadRequest("Internal error: " + writeFault.value.message)))
    ensures response.Ok? <==> readFault.None? && Key("Order", id) in table && body.Value? && writeFault.None?
    ensures response.Ok? ==>
      var k := Key("Order", id);
      k in written && MergedFrom(table[k].value, written[k].value, body.value)
      && written == table[k := written[k]] && KeyOf(written[k]) == k && written[k].etag == table[k].etag + 1
      && response.body == ToDto(written[k])
  {
    written := table;
    var read := GetEntity(table, "Order", id, readFault);
    if read.Failure? {
      if read.error.status == StatusNotFound {
        return NotFound(OrderNotFound), table;
      }
      return BadRequest("Internal error: " + read.error.message), table;
    }
    var entity := read.value;
    if body.Null? {
      return BadRequest("Request body is empty"), table;
    }
    if body.Malformed? {
      return BadRequest("Internal error: " + body.message), table;
    }
    var v := MergeFields(entity.value, body.value);
    entity := entity.(value := v);
    var w := UpdateEntity(table, entity, entity.etag, writeFault);
    if w.Failure? {
      if w.error.status == StatusNotFound {
        return NotFound(OrderNotFound), table;
      }
      return BadRequest("Internal error: " + w.error.message), table;
    }
    written := w.value;
    response := Ok(ToDto(entity));
  }
}
