/** `AzureStorageService`: the web application's gateway to tables and queues, with its
    error translations. Tables are in-memory maps, queues are sequences. */
module StorageService {
  import opened Wrappers
  import opened Tables
  import opened Notifications
  import Records
  import OrderModel

  /** `GetTableName<T>()` on the type's name. */
  function GetTableName(typeName: string): (r: string)
    ensures r == typeName + "s"
    ensures |r| > 0 && r[|r| - 1] == 's'
  {
    match typeName
    case "Customer" => "Customers"
    case "Product" => "Products"
    case "Order" => "Orders"
    case _ => typeName + "s"
  }

  /** The tables the service creates on start-up are exactly those it later resolves
      for the three entity types. */
  lemma CreatedTablesMatchEntityTypes()
    ensures [GetTableName("Customer"), GetTableName("Product"), GetTableName("Order")]
         == ["Customers", "Products", "Orders"]
  {
  }

  /** Distinct entity types never share a table: the type name is recovered from the table name
      by dropping its final 's'. */
  lemma TableNamesDistinct(a: string, b: string)
    ensures GetTableName(a)[..|GetTableName(a)| - 1] == a
    ensures GetTableName(a) == GetTableName(b) <==> a == b
  {
    assert GetTableName(a)[..|a|] == a;
    assert GetTableName(b)[..|b|] == b;
  }

  /** What the service's callers can see thrown from a table call. */
  datatype ServiceError =
    | Modified(message: string)   // InvalidOperationException after a 412
    | Rethrown(failure: Failure)  // any other RequestFailedException, passed on

  const ModifiedMessage: string := "The entity was modified by another process. Please refreash and try again."

  /** `ex.Message` of what the service threw. */
  function ErrorText(e: ServiceError): string {
    match e
    case Modified(m) => m
    case Rethrown(f) => f.message
  }

  /** `GetEntityAsync<T>(pk, rk)`: None on 404, the entity otherwise; other failures propagate. */
  function GetEntityAsync<E>(t: Table<E>, pk: string, rk: string, fault: Option<Failure>): (r: Result<Option<Entity<E>>, Failure>)
    ensures fault.None? ==> r.Success?
    ensures r == Success(None) <==>
      (if fault.Some? then fault.value.status == StatusNotFound else Key(pk, rk) !in t)
    ensures r.Success? && r.value.Some? ==> Key(pk, rk) in t && r.value.value == t[Key(pk, rk)]
    ensures r.Failure? ==> fault.Some? && r.error == fault.value && fault.value.status != StatusNotFound
    ensures fault.Some? && fault.value.status != StatusNotFound ==> r == Failure(fault.value)
  {
    match GetEntity(t, pk, rk, fault)
    case Success(e) => Success(Some(e))
    case Failure(f) => if f.status == StatusNotFound then Success(None) else Failure(f)
  }

  /** `AddEntityAsync<T>(entity)`: failures propagate unchanged. */
  function AddEntityAsync<E>(t: Table<E>, e: Entity<E>, fault: Option<Failure>): (r: Result<Table<E>, ServiceError>)
    ensures r.Success? <==> AddEntity(t, e, fault).Success?
    ensures r.Success? ==> r.value == AddEntity(t, e, fault).value
    ensures r.Failure? ==> r.error == Rethrown(AddEntity(t, e, fault).error)
  {
    match AddEntity(t, e, fault)
    case Success(t') => Success(t')
    case Failure(f) => Failure(Rethrown(f))
  }

  /** `UpdateEntityAsync<T>(entity)`: a conditional replace on the entity's own ETag. A 412 becomes
      `InvalidOperationException` with a fixed message; any other failure is rethrown. */
  function UpdateEntityAsync<E>(t: Table<E>, e: Entity<E>, fault: Option<Failure>): (r: Result<Table<E>, ServiceError>)
    ensures fault.None? ==> (r == Failure(Modified(ModifiedMessage)) <==> KeyOf(e) in t && t[KeyOf(e)].etag != e.etag)
    ensures fault.None? && KeyOf(e) in t && t[KeyOf(e)].etag == e.etag ==>
      r == Success(t[KeyOf(e) := e.(etag := e.etag + 1)])
    ensures r.Failure? && r.error.Rethrown? ==> r.error.failure.status != StatusPreconditionFailed
    ensures fault.Some? ==> r.Failure? && (r.error.Modified? <==> fault.value.status == StatusPreconditionFailed)
    ensures fault.Some? && fault.value.status != StatusPreconditionFailed ==> r == Failure(Rethrown(fault.value))
    ensures fault.None? && KeyOf(e) !in t ==>
      r == Failure(Rethrown(UpdateEntity(t, e, e.etag, fault).error)) && r.error.failure.status == StatusNotFound
  {
    match UpdateEntity(t, e, e.etag, fault)
    case Success(t') => Success(t')
    case Failure(f) => if f.status == StatusPreconditionFailed then Failure(Modified(ModifiedMessage)) else Failure(Rethrown(f))
  }

  /** The storage account: the three tables the web application uses and its named queues. */
  class Account {
    var customers: Table<Records.Customer>
    var products: Table<Records.Product>
    var orders: Table<OrderModel.Order>
    var queues: map<string, seq<Message>>

    /** Every row of every table is stored under its own keys. */
    ghost predicate Valid()
      reads this
    {
      WellKeyed(customers) && WellKeyed(products) && WellKeyed(orders)
    }

    /** `InitializeStorageAsync`: empty tables and the two notification queues, empty. */
    constructor ()
      ensures Valid()
      ensures customers == map[] && products == map[] && orders == map[]
      ensures queues == map[OrderQueue := [], StockQueue := []]
    {
      customers, products, orders := map[], map[], map[];
      queues := map[OrderQueue := [], StockQueue := []];
    }

    /** `SendMessageAsync(queueName, message)`: appends to the named queue; a queue that does not
        exist answers 404. */
    method SendMessage(queueName: string, msg: Message, fault: Option<Failure>) returns (r: Result<(), Failure>)
      modifies this
      ensures r.Success? <==> fault.None? && queueName in old(queues)
      ensures r.Success? ==> queues == old(queues)[queueName := old(queues)[queueName] + [msg]]
      ensures r.Failure? ==> queues == old(queues)
      ensures customers == old(customers) && products == old(products) && orders == old(orders)
    {
      if fault.Some? {
        r := Failure(fault.value);
      } else if queueName !in queues {
        r := Failure(RequestFailed(StatusNotFound, "QueueNotFound"));
      } else {
        queues := queues[queueName := queues[queueName] + [msg]];
        r := Success(());
      }
    }

    /** `ReceiveMessageAsync(queueName)`: null on an empty queue; otherwise the first message,
        which is deleted from the queue. */
    method ReceiveMessage(queueName: string, fault: Option<Failure>) returns (r: Result<Option<Message>, Failure>)
      modifies this
      ensures r.Success? <==> fault.None? && queueName in old(queues)
      ensures r.Success? && old(queues)[queueName] == [] ==> r.value.None? && queues == old(queues)
      ensures r.Success? && old(queues)[queueName] != [] ==>
        r.value == Some(old(queues)[queueName][0]) && queues == old(queues)[queueName := old(queues)[queueName][1..]]
      ensures r.Failure? ==> queues == old(queues)
      ensures customers == old(customers) && products == old(products) && orders == old(orders)
    {
      if fault.Some? {
        r := Failure(fault.value);
      } else if queueName !in queues {
        r := Failure(RequestFailed(StatusNotFound, "QueueNotFound"));
      } else if queues[queueName] == [] {
        r := Success(None);
      } else {
        var m := queues[queueName][0];
        queues := queues[queueName := queues[queueName][1..]];
        r := Success(Some(m));
      }
    }
  }

  /** `GetAllEntitiesAsync<T>()`: every entity of the table, each exactly once. */
  method GetAllEntities<E>(t: Table<E>) returns (entities: seq<Entity<E>>)
    ensures |entities| == |t|
    ensures forall k | k in t :: t[k] in entities
    ensures forall i | 0 <= i < |entities| :: exists k | k in t :: t[k] == entities[i]
  {
    entities := [];
    var pending := t.Keys;
    ghost var listed: set<Key> := {};
    ghost var keys: seq<Key> := [];
    while pending != {}
      invariant pending !! listed && pending + listed == t.Keys
      invariant |entities| == |listed| == |keys|
      invariant forall k | k in listed :: t[k] in entities
      invariant forall i | 0 <= i < |keys| :: keys[i] in listed && entities[i] == t[keys[i]]
      decreases pending
    {
      var k :| k in pending;
      entities := entities + [t[k]];
      keys := keys + [k];
      pending := pending - {k};
      listed := listed + {k};
    }
    assert listed == t.Keys;
  }
}
