/** `CustomersFunctions`: reading, creating and updating customers in the function app. */
module CustomersApi {
  import opened Wrappers
  import opened Tables
  import opened FunctionsHttp
  import Text
  import Seqs

  /** The customer entity's properties (its keys and ETag are in `Tables.Entity`). */
  datatype CustomerEntity = CustomerEntity(name: string, surname: string, username: string,
                                           email: string, shippingAddress: string)

  /** `CustomerDto`: the entity with its row key as CustomerId. */
  datatype CustomerDto = CustomerDto(customerId: string, name: string, surname: string, username: string,
                                     email: string, shippingAddress: string)

  /** `record CustomerCreateUpdate`: every property may be null. */
  datatype CustomerInput = CustomerInput(name: Option<string>, surname: Option<string>, username: Option<string>,
                                         email: Option<string>, shippingAddress: Option<string>)

  /** `Map.ToDto(CustomerEntity)` */
  function ToDto(e: Entity<CustomerEntity>): CustomerDto {
    CustomerDto(e.rowKey, e.value.name, e.value.surname, e.value.username, e.value.email, e.value.shippingAddress)
  }

  predicate InCustomerPartition(e: Entity<CustomerEntity>) {
    e.partitionKey == "Customer"
  }

  /** `List`: the DTOs of the entities in partition "Customer", in the order the query yields them. */
  method List(rows: seq<Entity<CustomerEntity>>) returns (items: seq<CustomerDto>)
    ensures items == Seqs.MapSeq(ToDto, Seqs.Filter(InCustomerPartition, rows))
    ensures forall d :: d in items <==> exists e | e in rows && InCustomerPartition(e) :: ToDto(e) == d
  {
    items := [];
    var i := 0;
    while i < |rows|
      invariant 0 <= i <= |rows|
      invariant items == Seqs.MapSeq(ToDto, Seqs.Filter(InCustomerPartition, rows[..i]))
    {
      assert rows[..i + 1] == rows[..i] + [rows[i]];
      Seqs.FilterAppend(InCustomerPartition, rows[..i], [rows[i]]);
      assert [rows[i]][1..] == [];
      if rows[i].partitionKey == "Customer" {
        items := items + [ToDto(rows[i])];
      }
      i := i + 1;
    }
    assert rows[..i] == rows;
    Seqs.FilterMembershipAll(InCustomerPartition, rows);
  }

  const CustomerNotFound: string := "Customer not found"
  const NameAndEmailRequired: string := "Name and Email are required"

  /** `Get(id)`: every failure of the read, whatever its cause, answers 404. */
  function Get(table: Table<CustomerEntity>, id: string, fault: Option<Failure>): (r: Response<CustomerDto>)
    requires WellKeyed(table)
    ensures r.Ok? <==> fault.None? && Key("Customer", id) in table
    ensures r.Ok? ==> r.body == ToDto(table[Key("Customer", id)]) && r.body.customerId == id
    ensures !r.Ok? ==> r == NotFound(CustomerNotFound)
  {
    match GetEntity(table, "Customer", id, fault)
    case Success(e) => Ok(ToDto(e))
    case Failure(_) => NotFound(CustomerNotFound)
  }

  // ---------------------------------------------------------------------------
  // Create

  /** The validation at the top of Create: a name and an email that are not blank. */
  predicate HasNameAndEmail(input: CustomerInput) {
    !Text.IsNullOrWhiteSpace(input.name) && !Text.IsNullOrWhiteSpace(input.email)
  }

  /** The entity Create stores: a null surname, username or address is stored as "". */
  function NewCustomer(input: CustomerInput): (r: CustomerEntity)
    requires HasNameAndEmail(input)
    ensures r.name == input.name.value && r.email == input.email.value
    ensures !Text.IsBlank(r.name) && !Text.IsBlank(r.email)
    ensures input.surname.None? ==> r.surname == ""
    ensures input.username.None? ==> r.username == ""
    ensures input.shippingAddress.None? ==> r.shippingAddress == ""
  {
    CustomerEntity(input.name.value, input.surname.GetOr(""), input.username.GetOr(""),
                   input.email.value, input.shippingAddress.GetOr(""))
  }

  datatype Handled = Handled(response: Response<CustomerDto>, table: Table<CustomerEntity>)

  /** `Create`: a body that does not parse escapes the handler; a null body or a blank name or
      email answers 400; otherwise the entity is added under `newKey` (the keys a new entity
      carries) and returned with 201. A failed add escapes the handler. */
  function Create(table: Table<CustomerEntity>, body: Json<CustomerInput>, newKey: Key, fault: Option<Failure>): (r: Handled)
    ensures !r.response.Created? ==> r.table == table
    ensures body.Malformed? ==> r.response == Unhandled(body.message)
    ensures r.response == BadRequest(NameAndEmailRequired) <==> body.Null? || (body.Value? && !HasNameAndEmail(body.value))
    ensures r.response.Created? <==>
      body.Value? && HasNameAndEmail(body.value) && fault.None? && newKey !in table
    ensures r.response.Created? ==>
      var e := Entity(newKey.partitionKey, newKey.rowKey, 1, NewCustomer(body.value));
      r.table == table[newKey := e] && r.response.body == ToDto(e)
  {
    match body
    case Malformed(m) => Handled(Unhandled(m), table)
    case Null => Handled(BadRequest(NameAndEmailRequired), table)
    case Value(input) =>
      if !HasNameAndEmail(input) then Handled(BadRequest(NameAndEmailRequired), table)
      else
        var e := Entity(newKey.partitionKey, newKey.rowKey, 0, NewCustomer(input));
        match AddEntity(table, e, fault)
        case Success(t) => Handled(Created(ToDto(e)), t)
        case Failure(f) => Handled(Unhandled(f.message), table)
  }

  // ---------------------------------------------------------------------------
  // Update

  /** `input.X ?? entity.X` for every property. */
  function Merge(before: CustomerEntity, input: CustomerInput): (r: CustomerEntity)
    ensures input.name.Some? ==> r.name == input.name.value
    ensures input.name.None? ==> r.name == before.name
    ensures input.surname.Some? ==> r.surname == input.surname.value
    ensures input.surname.None? ==> r.surname == before.surname
    ensures input.username.Some? ==> r.username == input.username.value
    ensures input.username.None? ==> r.username == before.username
    ensures input.email.Some? ==> r.email == input.email.value
    ensures input.email.None? ==> r.email == before.email
    ensures input.shippingAddress.Some? ==> r.shippingAddress == input.shippingAddress.value
    ensures input.shippingAddress.None? ==> r.shippingAddress == before.shippingAddress
  {
    CustomerEntity(input.name.GetOr(before.name), input.surname.GetOr(before.surname),
                   input.username.GetOr(before.username), input.email.GetOr(before.email),
                   input.shippingAddress.GetOr(before.shippingAddress))
  }

  /** Applying the same input twice is applying it once; an all-null input changes nothing. */
  lemma MergeIdempotent(before: CustomerEntity, input: CustomerInput)
    ensures Merge(Merge(before, input), input) == Merge(before, input)
    ensures Merge(before, CustomerInput(None, None, None, None, None)) == before
  {
  }

  /** Two updates in a row: the later input's non-null values win, the earlier one's fill the rest. */
  lemma MergeTwice(before: CustomerEntity, first: CustomerInput, second: CustomerInput)
    ensures Merge(Merge(before, first), second) ==
      Merge(before, CustomerInput(
        if second.name.Some? then second.name else first.name,
        if second.surname.Some? then second.surname else first.surname,
        if second.username.Some? then second.username else first.username,
        if second.email.Some? then second.email else first.email,
        if second.shippingAddress.Some? then second.shippingAddress else first.shippingAddress))
  {
  }

  /** Update does not repeat Create's validation: an empty name or email is stored as given. */
  lemma UpdateMayBlankNameAndEmail(before: CustomerEntity)
    ensures var r := Merge(before, CustomerInput(Some(""), None, None, Some(""), None));
      Text.IsBlank(r.name) && Text.IsBlank(r.email)
  {
  }

  /** `Update(id)`: a null body answers 400 before the table is touched; any failure of the read or
      the write answers 404 "Customer not found". */
  method Update(table: Table<CustomerEntity>, id: string, body: Json<CustomerInput>,
                readFault: Option<Failure>, writeFault: Option<Failure>)
    returns (response: Response<CustomerDto>, written: Table<CustomerEntity>)
    requires WellKeyed(table)
    ensures WellKeyed(written)
    ensures !response.Ok? ==> written == table
    ensures body.Malformed? ==> response == Unhandled(body.message)
    ensures body.Null? ==> response == BadRequest("Invalid body")
    ensures body.Value? ==> response.Ok? || response == NotFound(CustomerNotFound)
    ensures response.Ok? <==> body.Value? && readFault.None? && Key("Customer", id) in table && writeFault.None?
    ensures response.Ok? ==>
      var k := Key("Customer", id);
      var e := table[k].(value := Merge(table[k].value, body.value), etag := table[k].etag + 1);
      written == table[k := e] && response == Ok(ToDto(e))
  {
    written := table;
    if body.Malformed? {
      return Unhandled(body.message), table;
    }
    if body.Null? {
      return BadRequest("Invalid body"), table;
    }
    var input := body.value;
    var read := GetEntity(table, "Customer", id, readFault);
    if read.Failure? {
      return NotFound(CustomerNotFound), table;
    }
    var entity := read.value;
    entity := entity.(value := entity.value.(name := input.name.GetOr(entity.value.name)));
    entity := entity.(value := entity.value.(surname := input.surname.GetOr(entity.value.surname)));
    entity := entity.(value := entity.value.(username := input.username.GetOr(entity.value.username)));
    entity := entity.(value := entity.value.(email := input.email.GetOr(entity.value.email)));
    entity := entity.(value := entity.value.(shippingAddress := input.shippingAddress.GetOr(entity.value.shippingAddress)));
    var w := UpdateEntity(table, entity, entity.etag, writeFault);
    if w.Failure? {
      return NotFound(CustomerNotFound), table;
    }
    written := w.value;
    response := Ok(ToDto(entity));
  }
}
