/** `CustomerController`: the customer list with its role and search filters, and Edit and Delete
    with their ownership checks, against the application's SQL `Customers` set. */
module CustomerController {
  import opened Wrappers
  import opened Records
  import Text
  import Seqs

  /** The signed-in user: `User.Identity.Name` and the roles `User.IsInRole` answers for. */
  datatype Principal = Principal(name: Option<string>, roles: set<string>)

  predicate IsCustomerRole(user: Principal) { "Customer" in user.roles }

  /** `c.Username == User.Identity.Name` */
  predicate IsOwnRecord(user: Principal, c: Customer) { user.name == Some(c.username) }

  /** The ownership check of Edit and Delete: a Customer-role user may act only on their own record. */
  predicate MayActOn(user: Principal, c: Customer) {
    !IsCustomerRole(user) || IsOwnRecord(user, c)
  }

  // ---------------------------------------------------------------------------
  // Index

  /** The search string as Index applies it: trimmed, then lower-cased. */
  function SearchTerm(searchString: string): (r: string)
    ensures Text.IsLowerCase(r)
    ensures |r| <= |searchString|
    ensures r == [] || (!Text.IsWhiteSpace(r[0]) && !Text.IsWhiteSpace(r[|r| - 1]))
    ensures !Text.IsBlank(searchString) ==> r != []
  {
    Text.ToLower(Text.Trim(searchString))
  }

  /** The search filter on one customer: the term occurs in the lower-cased name, surname or username. */
  predicate MatchesTerm(term: string, c: Customer) {
    Text.Contains(Text.ToLower(c.name), term) || Text.Contains(Text.ToLower(c.surname), term) ||
    Text.Contains(Text.ToLower(c.username), term)
  }

  /** The role filter: a Customer-role user sees only their own record. */
  function Visible(customers: seq<Customer>, user: Principal): (r: seq<Customer>)
    ensures !IsCustomerRole(user) ==> r == customers
    ensures IsCustomerRole(user) ==> forall c :: c in r <==> c in customers && IsOwnRecord(user, c)
  {
    if IsCustomerRole(user) then
      Seqs.FilterMembershipAll((c: Customer) => IsOwnRecord(user, c), customers);
      Seqs.Filter((c: Customer) => IsOwnRecord(user, c), customers)
    else customers
  }

  /** `Index(searchString)`: the role filter, then (for a search string that is not blank) the search. */
  function Index(customers: seq<Customer>, user: Principal, searchString: Option<string>): (r: seq<Customer>)
    ensures Text.IsNullOrWhiteSpace(searchString) ==> r == Visible(customers, user)
    ensures !Text.IsNullOrWhiteSpace(searchString) ==>
      forall c :: c in r <==> c in Visible(customers, user) && MatchesTerm(SearchTerm(searchString.value), c)
  {
    var visible := Visible(customers, user);
    if Text.IsNullOrWhiteSpace(searchString) then visible
    else
      var term := SearchTerm(searchString.value);
      Seqs.FilterMembershipAll((c: Customer) => MatchesTerm(term, c), visible);
      Seqs.Filter((c: Customer) => MatchesTerm(term, c), visible)
  }

  /** What Index lists, stated in one piece: a Customer-role user never sees another user's record,
      and a listed customer is one of the stored customers that passes both filters. */
  lemma IndexExactly(customers: seq<Customer>, user: Principal, searchString: Option<string>, c: Customer)
    ensures c in Index(customers, user, searchString) <==>
      c in customers && MayActOn(user, c) &&
      (Text.IsNullOrWhiteSpace(searchString) || MatchesTerm(SearchTerm(searchString.value), c))
  {
  }

  /** Index keeps the store's order: both filters distribute over concatenation, so the listing of
      two runs of customers is the listing of the first followed by that of the second. */
  lemma IndexKeepsOrder(front: seq<Customer>, back: seq<Customer>, user: Principal, searchString: Option<string>)
    ensures Index(front + back, user, searchString) == Index(front, user, searchString) + Index(back, user, searchString)
  {
    if IsCustomerRole(user) {
      Seqs.FilterAppend((c: Customer) => IsOwnRecord(user, c), front, back);
    }
    if !Text.IsNullOrWhiteSpace(searchString) {
      var term := SearchTerm(searchString.value);
      Seqs.FilterAppend((c: Customer) => MatchesTerm(term, c), Visible(front, user), Visible(back, user));
    }
  }

  // ---------------------------------------------------------------------------
  // Edit and Delete

  /** What an action answers. `RedirectTo(action, id)` is `RedirectToAction`. */
  datatype Page = BadRequestPage | NotFoundPage | Forbidden | FormShown(customer: Customer) | RedirectTo(action: string, id: Option<string>)

  /** A `TempData` entry: its key ("Success" or "Warning") and its text. */
  datatype Notice = Notice(key: string, message: string)

  /** What `UpdateCustomerAsync` gave back: the updated record, null, or an exception's message. */
  datatype ApiUpdate = Updated | ReturnedNull | Threw(message: string)

  /** `Edit(id)` (GET). */
  function EditForm(customers: map<string, Customer>, user: Principal, id: Option<string>): (r: Page)
    ensures Text.IsNullOrWhiteSpace(id) ==> r == NotFoundPage
    ensures r.FormShown? <==> !Text.IsNullOrWhiteSpace(id) && id.value in customers && MayActOn(user, customers[id.value])
    ensures r.FormShown? ==> r.customer == customers[id.value]
    ensures r == Forbidden <==> (!Text.IsNullOrWhiteSpace(id) && id.value in customers &&
      IsCustomerRole(user) && !IsOwnRecord(user, customers[id.value]))
  {
    if Text.IsNullOrWhiteSpace(id) || id.value !in customers then NotFoundPage
    else if !MayActOn(user, customers[id.value]) then Forbidden
    else FormShown(customers[id.value])
  }

  /** The fields Edit (POST) copies from the posted model onto the stored record. */
  function Copied(stored: Customer, model: Customer): (r: Customer)
    ensures r.id == stored.id && r.userId == stored.userId && r.username == stored.username
    ensures r.name == model.name && r.surname == model.surname
    ensures r.email == model.email && r.shippingAddress == model.shippingAddress
  {
    stored.(name := model.name, surname := model.surname, email := model.email, shippingAddress := model.shippingAddress)
  }

  /** Posting the same form twice stores what posting it once stores, and copying keeps the record
      owned by the same user, so the ownership check answers as before. */
  lemma CopiedIdempotent(stored: Customer, model: Customer, user: Principal)
    ensures Copied(Copied(stored, model), model) == Copied(stored, model)
    ensures MayActOn(user, Copied(stored, model)) == MayActOn(user, stored)
  {
  }

  function UpdateNotice(api: ApiUpdate): Notice {
    match api
    case Updated => Notice("Success", "Customer updated in both SQL and Table Storage.")
    case ReturnedNull => Notice("Warning", "Customer updated in SQL but failed in Table Storage.")
    case Threw(m) => Notice("Warning", "Customer updated in SQL but API update failed: " + m)
  }

  function DeleteNotice(apiFault: Option<string>): Notice {
    match apiFault
    case None => Notice("Success", "Customer deleted successfully from SQL and Storage!")
    case Some(m) => Notice("Warning", "Deleted from SQL, but failed to delete in Storage: " + m)
  }

  /** Edit (POST) reaches the save: the ids agree, the record exists, the user may edit it and the
      form is valid. */
  predicate EditSaves(customers: map<string, Customer>, user: Principal, id: Option<string>, model: Customer, modelValid: bool) {
    id == Some(model.id) && model.id in customers && MayActOn(user, customers[model.id]) && modelValid
  }

  class CustomerDb {
    /** `_context.Customers`, by `Id`. */
    var customers: map<string, Customer>

    constructor(customers0: map<string, Customer>)
      ensures customers == customers0
    {
      customers := customers0;
    }

    /** `Edit(id, model)` (POST): the checks run in order (ids agree, record exists, ownership, form
        valid) and each failing one changes nothing. Otherwise the copied fields are saved to SQL
        first; the API result decides only the notice. */
    method Edit(user: Principal, id: Option<string>, model: Customer, modelValid: bool, api: ApiUpdate)
      returns (page: Page, notice: Option<Notice>)
      modifies this
      ensures !EditSaves(old(customers), user, id, model, modelValid) ==> customers == old(customers) && notice.None?
      ensures id != Some(model.id) ==> page == BadRequestPage
      ensures id == Some(model.id) && model.id !in old(customers) ==> page == NotFoundPage
      ensures id == Some(model.id) && model.id in old(customers) && !MayActOn(user, old(customers)[model.id]) ==>
        page == Forbidden
      ensures id == Some(model.id) && model.id in old(customers) && MayActOn(user, old(customers)[model.id]) && !modelValid ==>
        page == FormShown(model)
      ensures EditSaves(old(customers), user, id, model, modelValid) ==>
        customers == old(customers)[model.id := Copied(old(customers)[model.id], model)] &&
        notice == Some(UpdateNotice(api)) &&
        page == RedirectTo(if "Admin" in user.roles then "Index" else "Edit", Some(old(customers)[model.id].id))
    {
      notice := None;
      if id != Some(model.id) {
        return BadRequestPage, notice;
      }
      var key := id.value;
      if key !in customers {
        return NotFoundPage, notice;
      }
      var customer := customers[key];
      if IsCustomerRole(user) && Some(customer.username) != user.name {
        return Forbidden, notice;
      }
      if !modelValid {
        return FormShown(model), notice;
      }
      customer := customer.(name := model.name);
      customer := customer.(surname := model.surname);
      customer := customer.(email := model.email);
      customer := customer.(shippingAddress := model.shippingAddress);
      customers := customers[key := customer];
      notice := Some(UpdateNotice(api));
      page := RedirectTo(if "Admin" in user.roles then "Index" else "Edit", Some(customer.id));
    }

    /** `Delete(id)`: a blank id, an unknown id or another user's record (for a Customer-role user)
        changes nothing; otherwise the SQL record is removed first and stays removed when the API call
        fails. A customer who deleted their own record is sent to Logout. */
    method Delete(user: Principal, id: Option<string>, apiFault: Option<string>)
      returns (page: Page, notice: Option<Notice>)
      modifies this
      ensures Text.IsNullOrWhiteSpace(id) ==> page == BadRequestPage
      ensures !Text.IsNullOrWhiteSpace(id) && id.value !in old(customers) ==> page == NotFoundPage
      ensures !Text.IsNullOrWhiteSpace(id) && id.value in old(customers) && !MayActOn(user, old(customers)[id.value]) ==>
        page == Forbidden
      ensures (Text.IsNullOrWhiteSpace(id) || id.value !in old(customers) || !MayActOn(user, old(customers)[id.value])) ==>
        customers == old(customers) && notice.None?
      ensures !Text.IsNullOrWhiteSpace(id) && id.value in old(customers) && MayActOn(user, old(customers)[id.value]) ==>
        customers == old(customers) - {id.value} && notice == Some(DeleteNotice(apiFault)) &&
        page == (if IsCustomerRole(user) then RedirectTo("Logout", None) else RedirectTo("Index", None))
    {
      notice := None;
      if Text.IsNullOrWhiteSpace(id) {
        return BadRequestPage, notice;
      }
      if id.value !in customers {
        return NotFoundPage, notice;
      }
      var customer := customers[id.value];
      if IsCustomerRole(user) && Some(customer.username) != user.name {
        return Forbidden, notice;
      }
      customers := customers - {id.value};
      notice := Some(DeleteNotice(apiFault));
      page := if IsCustomerRole(user) then RedirectTo("Logout", None) else RedirectTo("Index", None);
    }
  }
}
