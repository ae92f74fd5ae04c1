/** Azure Table storage as the core sees it through `TableClient`: rows keyed by
    (PartitionKey, RowKey), each carrying an ETag that changes on every write. */
module Tables {
  import opened Wrappers

  datatype Key = Key(partitionKey: string, rowKey: string)

  /** A stored entity: its keys, its current ETag and its properties. */
  datatype Entity<E> = Entity(partitionKey: string, rowKey: string, etag: nat, value: E)

  function KeyOf<E>(e: Entity<E>): Key {
    Key(e.partitionKey, e.rowKey)
  }

  type Table<E> = map<Key, Entity<E>>

  /** Every row is stored under its own keys. */
  ghost predicate WellKeyed<E>(t: Table<E>) {
    forall k | k in t :: KeyOf(t[k]) == k
  }

  /** `RequestFailedException`: a request the service refused, with its HTTP status. */
  datatype Failure = RequestFailed(status: int, message: string)

  const StatusNotFound: int := 404
  const StatusConflict: int := 409
  const StatusPreconditionFailed: int := 412

  /** `GetEntityAsync(pk, rk)`. `fault` is a failure the service reports for reasons
      the table does not show (lost connection, throttling); it leaves the table as it is. */
  function GetEntity<E>(t: Table<E>, pk: string, rk: string, fault: Option<Failure>): (r: Result<Entity<E>, Failure>)
    ensures fault.None? ==> (r.Success? <==> Key(pk, rk) in t)
    ensures r.Success? ==> Key(pk, rk) in t && r.value == t[Key(pk, rk)]
    ensures fault.None? && r.Failure? ==> r.error.status == StatusNotFound
    ensures fault.Some? ==> r == Failure(fault.value)
  {
    if fault.Some? then Failure(fault.value)
    else if Key(pk, rk) in t then Success(t[Key(pk, rk)])
    else Failure(RequestFailed(StatusNotFound, "ResourceNotFound"))
  }

  /** `AddEntityAsync(e)`: inserts with a first ETag; 409 when the keys are taken. */
  function AddEntity<E>(t: Table<E>, e: Entity<E>, fault: Option<Failure>): (r: Result<Table<E>, Failure>)
    ensures fault.None? ==> (r.Success? <==> KeyOf(e) !in t)
    ensures r.Success? ==> r.value == t[KeyOf(e) := e.(etag := 1)]
    ensures fault.None? && r.Failure? ==> r.error.status == StatusConflict
    ensures fault.Some? ==> r == Failure(fault.value)
  {
    if fault.Some? then Failure(fault.value)
    else if KeyOf(e) in t then Failure(RequestFailed(StatusConflict, "EntityAlreadyExists"))
    else Success(t[KeyOf(e) := e.(etag := 1)])
  }

  /** `UpdateEntityAsync(e, ifMatch, TableUpdateMode.Replace)`: 404 when the row is gone, 412 when
      its ETag is no longer `ifMatch`; otherwise the row is replaced and gets a new ETag. */
  function UpdateEntity<E>(t: Table<E>, e: Entity<E>, ifMatch: nat, fault: Option<Failure>): (r: Result<Table<E>, Failure>)
    ensures fault.None? ==> (r.Success? <==> KeyOf(e) in t && t[KeyOf(e)].etag == ifMatch)
    ensures r.Success? ==> KeyOf(e) in t && r.value == t[KeyOf(e) := e.(etag := t[KeyOf(e)].etag + 1)]
    ensures fault.None? && r.Failure? ==>
      r.error.status == (if KeyOf(e) in t then StatusPreconditionFailed else StatusNotFound)
    ensures fault.Some? ==> r == Failure(fault.value)
  {
    if fault.Some? then Failure(fault.value)
    else if KeyOf(e) !in t then Failure(RequestFailed(StatusNotFound, "ResourceNotFound"))
    else if t[KeyOf(e)].etag != ifMatch then Failure(RequestFailed(StatusPreconditionFailed, "UpdateConditionNotSatisfied"))
    else Success(t[KeyOf(e) := e.(etag := t[KeyOf(e)].etag + 1)])
  }

  /** Writing with the ETag just read succeeds, and reading back gives the written properties. */
  lemma {:induction false} ReadModifyWrite<E>(t: Table<E>, pk: string, rk: string, v: E)
    requires WellKeyed(t)
    requires GetEntity(t, pk, rk, None).Success?
    ensures var e := GetEntity(t, pk, rk, None).value;
      var w := UpdateEntity(t, e.(value := v), e.etag, None);
      w.Success? && WellKeyed(w.value) && GetEntity(w.value, pk, rk, None).Success?
      && GetEntity(w.value, pk, rk, None).value.value == v
      && GetEntity(w.value, pk, rk, None).value.etag != e.etag
  {
    var e := GetEntity(t, pk, rk, None).value;
    assert KeyOf(e) == Key(pk, rk);
  }

  /** A stale write: after any successful replacement, the ETag read before it no longer matches. */
  lemma {:induction false} StaleETagRejected<E>(t: Table<E>, e: Entity<E>, v: E)
    requires WellKeyed(t) && KeyOf(e) in t && t[KeyOf(e)] == e
    ensures var w := UpdateEntity(t, e, e.etag, None);
      w.Success? &&
      UpdateEntity(w.value, e.(value := v), e.etag, None) == Failure(RequestFailed(StatusPreconditionFailed, "UpdateConditionNotSatisfied"))
  {
  }
}
