/** `ProductsFunctions`: listing, creating and partially updating products in the function app. */
module ProductsApi {
  import opened Wrappers
  import opened Int32
  import opened Seqs
  import opened Tables
  import opened FunctionsHttp
  import Text
  import Multipart

  /** The product entity's properties (its keys and ETag are in `Tables.Entity`). */
  datatype ProductEntity = ProductEntity(productName: string, description: string, price: real,
                                         stockAvailable: int32, imageUrl: string)

  /** `ProductDto`: the entity with its row key as ProductId. */
  datatype ProductDto = ProductDto(productId: string, productName: string, description: string,
                                   price: real, stockAvailable: int32, imageUrl: string)

  /** `Map.ToDto(ProductEntity)` */
  function ToDto(e: Entity<ProductEntity>): ProductDto {
    ProductDto(e.rowKey, e.value.productName, e.value.description, e.value.price,
               e.value.stockAvailable, e.value.imageUrl)
  }

  predicate InProductPartition(e: Entity<ProductEntity>) {
    e.partitionKey == "Product"
  }

  // ---------------------------------------------------------------------------
  // List

  /** `List`: the DTOs of the entities in partition "Product", in the order the query yields them. */
  method List(rows: seq<Entity<ProductEntity>>) returns (items: seq<ProductDto>)
    ensures items == MapSeq(ToDto, Filter(InProductPartition, rows))
    ensures forall d :: d in items <==> exists e | e in rows && InProductPartition(e) :: ToDto(e) == d
  {
    items := [];
    var i := 0;
    while i < |rows|
      invariant 0 <= i <= |rows|
      invariant items == MapSeq(ToDto, Filter(InProductPartition, rows[..i]))
    {
      assert rows[..i + 1] == rows[..i] + [rows[i]];
      FilterAppend(InProductPartition, rows[..i], [rows[i]]);
      assert [rows[i]][1..] == [];
      if rows[i].partitionKey == "Product" {
        items := items + [ToDto(rows[i])];
      }
      i := i + 1;
    }
    assert rows[..i] == rows;
    FilterMembershipAll(InProductPartition, rows);
  }

  // ---------------------------------------------------------------------------
  // Get

  const ProductNotFound: string := "Product not found"

  /** `Get(id)`: a 404 answers "Product not found"; any other failure escapes the handler. */
  function Get(table: Table<ProductEntity>, id: string, fault: Option<Failure>): (r: Response<ProductDto>)
    requires WellKeyed(table)
    ensures r.Ok? <==> fault.None? && Key("Product", id) in table
    ensures r.Ok? ==> r.body == ToDto(table[Key("Product", id)]) && r.body.productId == id
    ensures r.NotFound? <==> (if fault.Some? then fault.value.status == StatusNotFound else Key("Product", id) !in table)
    ensures r.NotFound? ==> r.message == ProductNotFound
    ensures r.Ok? || r.NotFound? || r.Unhandled?
  {
    match GetEntity(table, "Product", id, fault)
    case Success(e) => Ok(ToDto(e))
    case Failure(f) => if f.status == StatusNotFound then NotFound(ProductNotFound) else Unhandled(f.message)
  }

  // ---------------------------------------------------------------------------
  // The Content-Type header

  const MultipartFormData: string := "multipart/form-data"

  /** `IsNullOrWhiteSpace(ct) || !ct.StartsWith("multipart/form-data", OrdinalIgnoreCase)`, negated. */
  predicate IsMultipart(contentType: Option<string>) {
    !Text.IsNullOrWhiteSpace(contentType) && Text.StartsWithIgnoreCase(contentType.value, MultipartFormData)
  }

  /** The run-time type name `ToString()` gives for the collection of header values. */
  const HeaderValuesTypeName: string := "System.String[]"

  /** Create's reading of the header, as written: `ct.ToString()` on the collection of values. */
  function CreateContentTypeAsWritten(headerValues: Option<seq<string>>): Option<string> {
    if headerValues.Some? then Some(HeaderValuesTypeName) else None
  }

  /** The header's first value, as Update reads it (`ctValues.FirstOrDefault()`). */
  function ContentType(headerValues: Option<seq<string>>): Option<string> {
    if headerValues.Some? && headerValues.value != [] then Some(headerValues.value[0]) else None
  }

  /** As written, Create never takes its multipart branch, whatever the request's Content-Type. */
  lemma CreateAsWrittenNeverMultipart(headerValues: Option<seq<string>>)
    ensures !IsMultipart(CreateContentTypeAsWritten(headerValues))
  {
    if headerValues.Some? {
      assert Text.LowerChar(HeaderValuesTypeName[0]) != Text.LowerChar(MultipartFormData[0]);
    }
  }

  /** Reading the first value, a multipart request reaches the form branch. */
  lemma MultipartRequestSeen(boundaryParameter: string)
    ensures IsMultipart(ContentType(Some([MultipartFormData + "; " + boundaryParameter])))
  {
    var v := MultipartFormData + "; " + boundaryParameter;
    assert !Text.IsWhiteSpace(v[0]);
    assert forall i | 0 <= i < |MultipartFormData| :: v[i] == MultipartFormData[i];
  }

  // ---------------------------------------------------------------------------
  // Create

  const NameRequired: string := "ProductName is required"
  const UploadedFileName: string := "ImageFile"

  /** `form.Files.FirstOrDefault(f => f.FileName == "ImageFile")` */
  function ImageFile(files: seq<Multipart.MultipartFile>): Option<Multipart.MultipartFile> {
    FirstOrDefault((f: Multipart.MultipartFile) => f.fileName == UploadedFileName, files)
  }

  /** `int.TryParse(s, out n)` leaves n at 0 when it fails; likewise `double.TryParse`. */
  function IntOrZero(s: Option<string>): int32 { Text.ParseInt32(s).GetOr(0) }
  function RealOrZero(s: Option<string>): real { Text.ParseReal(s).GetOr(0.0) }

  function Lookup(text: map<string, string>, key: string): Option<string> {
    if key in text then Some(text[key]) else None
  }

  /** The properties Create gathers from a multipart form; `blobUrl` is where the uploaded image is
      stored when a non-empty file named "ImageFile" came with the form. */
  function FormDraft(form: Multipart.FormData, blobUrl: string): ProductEntity {
    var file := ImageFile(form.files);
    ProductEntity(Lookup(form.text, "ProductName").GetOr(""), Lookup(form.text, "Description").GetOr(""),
                  RealOrZero(Lookup(form.text, "Price")), IntOrZero(Lookup(form.text, "StockAvailable")),
                  if file.Some? && file.value.data != [] then blobUrl else Lookup(form.text, "ImageUrl").GetOr(""))
  }

  /** The properties Create gathers from a JSON object. */
  function JsonDraft(f: Fields): ProductEntity {
    ProductEntity(TextField(f, "ProductName").GetOr(""), TextField(f, "Description").GetOr(""),
                  RealField(f, "Price").GetOr(0.0), IntField(f, "StockAvailable").GetOr(0),
                  TextField(f, "ImageUrl").GetOr(""))
  }

  /** In the JSON reading a missing, null or unparseable number becomes 0 and a missing or null
      string becomes ""; a supplied value is taken as given. */
  lemma JsonDraftDefaults(f: Fields)
    ensures (TextField(f, "ProductName").None? ==> JsonDraft(f).productName == "")
         && (TextField(f, "Description").None? ==> JsonDraft(f).description == "")
         && (TextField(f, "ImageUrl").None? ==> JsonDraft(f).imageUrl == "")
    ensures (RealField(f, "Price").None? ==> JsonDraft(f).price == 0.0)
         && (IntField(f, "StockAvailable").None? ==> JsonDraft(f).stockAvailable == 0)
    ensures "ProductName" in f && f["ProductName"].Some? ==> JsonDraft(f).productName == f["ProductName"].value
    ensures "Price" in f && Text.ParseReal(f["Price"]).Some? ==> JsonDraft(f).price == Text.ParseReal(f["Price"]).value
  {
  }

  /** The image URL is the uploaded blob's only for a non-empty file whose file name is exactly
      "ImageFile"; a file under any other name is ignored and the "ImageUrl" field is used. */
  lemma ImageOnlyFromFileNamedImageFile(form: Multipart.FormData, blobUrl: string)
    requires forall i | 0 <= i < |form.files| :: form.files[i].fileName != UploadedFileName
    ensures FormDraft(form, blobUrl).imageUrl == Lookup(form.text, "ImageUrl").GetOr("")
  {
  }

  /** A request body that is the JSON literal null is read as an empty object, so it is always
      rejected for its missing name. */
  lemma NullBodyRejected()
    ensures Text.IsBlank(JsonDraft(map[]).productName)
  {
  }

  /** What the request gives before validation: the drafted properties, or the message of an
      exception raised while reading the body. */
  function RequestDraft(headerValues: Option<seq<string>>, boundary: Option<string>, sections: seq<Multipart.Section>,
                        json: Json<Fields>, blobUrl: string): Result<ProductEntity, string> {
    if IsMultipart(ContentType(headerValues)) then
      if boundary.None? || Multipart.RemoveQuotes(boundary.value) == "" then Failure(Multipart.MissingBoundary)
      else Success(FormDraft(Multipart.FormData(Multipart.TextOf(sections), Multipart.FilesOf(sections)), blobUrl))
    else
      match json
      case Malformed(m) => Failure(m)
      case Null => Success(JsonDraft(map[]))
      case Value(f) => Success(JsonDraft(f))
  }

  /** `Create`. The body is given both as the sections a multipart reader would yield for
      `boundary` and as what the JSON reader makes of it; `newRowKey` stands for the new GUID,
      `blobUrl` for the uploaded image's address. The Content-Type is read as its first value
      (see README, Findings). */
  method Create(table: Table<ProductEntity>, headerValues: Option<seq<string>>, boundary: Option<string>,
                sections: seq<Multipart.Section>, json: Json<Fields>, blobUrl: string, newRowKey: string,
                addFault: Option<Failure>)
    returns (response: Response<ProductDto>, written: Table<ProductEntity>)
    requires WellKeyed(table)
    ensures WellKeyed(written)
    ensures !response.Created? ==> written == table
    ensures var d := RequestDraft(headerValues, boundary, sections, json, blobUrl);
      (d.Failure? ==> response == Unhandled(d.error))
      && (d.Success? && Text.IsBlank(d.value.productName) ==> response == BadRequest(NameRequired))
      && (d.Success? && !Text.IsBlank(d.value.productName) ==>
            var e := Entity("Product", newRowKey, 1, d.value);
            if addFault.None? && Key("Product", newRowKey) !in table
            then response == Created(ToDto(e)) && written == table[KeyOf(e) := e]
            else response.Unhandled?)
  {
    written := table;
    var d := ReadDraft(headerValues, boundary, sections, json, blobUrl);
    if d.Failure? {
      return Unhandled(d.error), table;
    }
    if Text.IsBlank(d.value.productName) {
      return BadRequest(NameRequired), table;
    }
    var entity := Entity("Product", newRowKey, 0, d.value);
    var added := AddEntity(table, entity, addFault);
    if added.Failure? {
      return Unhandled(added.error.message), table;
    }
    written := added.value;
    response := Created(ToDto(entity));
  }

  /** Create's reading of the request body into the new product's properties. */
  method ReadDraft(headerValues: Option<seq<string>>, boundary: Option<string>, sections: seq<Multipart.Section>,
                   json: Json<Fields>, blobUrl: string)
    returns (d: Result<ProductEntity, string>)
    ensures d == RequestDraft(headerValues, boundary, sections, json, blobUrl)
  {
    var contentType := ContentType(headerValues);
    var name, desc, imageUrl := "", "", "";
    var price: real := 0.0;
    var stock: int32 := 0;
    if IsMultipart(contentType) {
      var parsed := Multipart.Parse(boundary, sections);
      if parsed.Failure? {
        return Failure(parsed.error);
      }
      var form := parsed.value;
      name := Lookup(form.text, "ProductName").GetOr("");
      desc := Lookup(form.text, "Description").GetOr("");
      price := RealOrZero(Lookup(form.text, "Price"));
      stock := IntOrZero(Lookup(form.text, "StockAvailable"));
      var file := ImageFile(form.files);
      if file.Some? && file.value.data != [] {
        imageUrl := blobUrl;
      } else {
        imageUrl := Lookup(form.text, "ImageUrl").GetOr("");
      }
    } else {
      if json.Malformed? {
        return Failure(json.message);
      }
      var body := if json.Value? then json.value else map[];
      name := TextField(body, "ProductName").GetOr("");
      desc := TextField(body, "Description").GetOr("");
      price := RealField(body, "Price").GetOr(0.0);
      stock := IntField(body, "StockAvailable").GetOr(0);
      imageUrl := TextField(body, "ImageUrl").GetOr("");
    }
    d := Success(ProductEntity(name, desc, price, stock, imageUrl));
  }

  // ---------------------------------------------------------------------------
  // Update

  /** Lines 163-167: each form field present replaces its property; Price and StockAvailable only
      when they parse. */
  function MergeForm(before: ProductEntity, text: map<string, string>): (r: ProductEntity)
    ensures "ProductName" !in text ==> r.productName == before.productName
    ensures "Description" !in text ==> r.description == before.description
    ensures "ImageUrl" !in text ==> r.imageUrl == before.imageUrl
    ensures Text.ParseReal(Lookup(text, "Price")).None? ==> r.price == before.price
    ensures Text.ParseInt32(Lookup(text, "StockAvailable")).None? ==> r.stockAvailable == before.stockAvailable
    ensures "ProductName" in text ==> r.productName == text["ProductName"]
    ensures "Description" in text ==> r.description == text["Description"]
    ensures "ImageUrl" in text ==> r.imageUrl == text["ImageUrl"]
    ensures Text.ParseReal(Lookup(text, "Price")).Some? ==> r.price == Text.ParseReal(Lookup(text, "Price")).value
    ensures Text.ParseInt32(Lookup(text, "StockAvailable")).Some? ==>
      r.stockAvailable == Text.ParseInt32(Lookup(text, "StockAvailable")).value
  {
    ProductEntity(Lookup(text, "ProductName").GetOr(before.productName),
                  Lookup(text, "Description").GetOr(before.description),
                  Text.ParseReal(Lookup(text, "Price")).GetOr(before.price),
                  Text.ParseInt32(Lookup(text, "StockAvailable")).GetOr(before.stockAvailable),
                  Lookup(text, "ImageUrl").GetOr(before.imageUrl))
  }

  /** Lines 174-178: a present, non-null string replaces its property (a null keeps it); Price and
      StockAvailable change only when they parse. */
  function MergeJson(before: ProductEntity, f: Fields): (r: ProductEntity)
    ensures TextField(f, "ProductName").None? ==> r.productName == before.productName
    ensures TextField(f, "Description").None? ==> r.description == before.description
    ensures TextField(f, "ImageUrl").None? ==> r.imageUrl == before.imageUrl
    ensures RealField(f, "Price").None? ==> r.price == before.price
    ensures IntField(f, "StockAvailable").None? ==> r.stockAvailable == before.stockAvailable
    ensures "ProductName" in f && f["ProductName"].Some? ==> r.productName == f["ProductName"].value
    ensures "Description" in f && f["Description"].Some? ==> r.description == f["Description"].value
    ensures "ImageUrl" in f && f["ImageUrl"].Some? ==> r.imageUrl == f["ImageUrl"].value
    ensures "Price" in f && Text.ParseReal(f["Price"]).Some? ==> r.price == Text.ParseReal(f["Price"]).value
    ensures "StockAvailable" in f && Text.ParseInt32(f["StockAvailable"]).Some? ==>
      r.stockAvailable == Text.ParseInt32(f["StockAvailable"]).value
  {
    ProductEntity(TextField(f, "ProductName").GetOr(before.productName),
                  TextField(f, "Description").GetOr(before.description),
                  RealField(f, "Price").GetOr(before.price),
                  IntField(f, "StockAvailable").GetOr(before.stockAvailable),
                  TextField(f, "ImageUrl").GetOr(before.imageUrl))
  }

  /** Both merges are idempotent, and an empty form or object changes nothing. */
  lemma MergesIdempotent(before: ProductEntity, text: map<string, string>, f: Fields)
    ensures MergeForm(MergeForm(before, text), text) == MergeForm(before, text)
    ensures MergeJson(MergeJson(before, f), f) == MergeJson(before, f)
    ensures MergeForm(before, map[]) == before && MergeJson(before, map[]) == before
  {
  }

  /** Update does not repeat Create's name check: a supplied empty name is stored. */
  lemma UpdateMayBlankTheName(before: ProductEntity)
    ensures MergeJson(before, map["ProductName" := Some("")]).productName == ""
    ensures MergeForm(before, map["ProductName" := ""]).productName == ""
  {
  }

  /** The properties after Update's body is applied, or the message of the exception reading it. */
  function Amended(before: ProductEntity, headerValues: Option<seq<string>>, boundary: Option<string>,
                   sections: seq<Multipart.Section>, json: Json<Fields>): Result<ProductEntity, string> {
    if IsMultipart(ContentType(headerValues)) then
      if boundary.None? || Multipart.RemoveQuotes(boundary.value) == "" then Failure(Multipart.MissingBoundary)
      else Success(MergeForm(before, Multipart.TextOf(sections)))
    else
      match json
      case Malformed(m) => Failure(m)
      case Null => Success(before)
      case Value(f) => Success(MergeJson(before, f))
  }

  /** `Update(id)`: a 404 from the read or from the write answers "Product not found"; every
      other failure escapes the handler. */
  method Update(table: Table<ProductEntity>, id: string, headerValues: Option<seq<string>>, boundary: Option<string>,
                sections: seq<Multipart.Section>, json: Json<Fields>,
                readFault: Option<Failure>, writeFault: Option<Failure>)
    returns (response: Response<ProductDto>, written: Table<ProductEntity>)
    requires WellKeyed(table)
    ensures WellKeyed(written)
    ensures !response.Ok? ==> written == table
    ensures var read := GetEntity(table, "Product", id, readFault);
      (read.Failure? ==> response == (if read.error.status == StatusNotFound then NotFound(ProductNotFound)
                                      else Unhandled(read.error.message)))
      && (read.Success? ==>
            var a := Amended(read.value.value, headerValues, boundary, sections, json);
            var k := Key("Product", id);
            (a.Failure? ==> response == Unhandled(a.error))
            && (a.Success? && writeFault.Some? ==>
                  response == (if writeFault.value.status == StatusNotFound then NotFound(ProductNotFound)
                               else Unhandled(writeFault.value.message)))
            && (a.Success? && writeFault.None? ==>
                  var e := table[k].(value := a.value, etag := table[k].etag + 1);
                  response == Ok(ToDto(e)) && written == table[k := e]))
  {
    written := table;
    var read := GetEntity(table, "Product", id, readFault);
    if read.Failure? {
      if read.error.status == StatusNotFound {
        return NotFound(ProductNotFound), table;
      }
      return Unhandled(read.error.message), table;
    }
    var entity := read.value;
    var a := ReadBody(entity.value, headerValues, boundary, sections, json);
    if a.Failure? {
      return Unhandled(a.error), table;
    }
    entity := entity.(value := a.value);
    var w := UpdateEntity(table, entity, entity.etag, writeFault);
    if w.Failure? {
      if w.error.status == StatusNotFound {
        return NotFound(ProductNotFound), table;
      }
      return Unhandled(w.error.message), table;
    }
    written := w.value;
    response := Ok(ToDto(entity));
  }

  /** Update's reading of the request body into the stored properties. */
  method ReadBody(before: ProductEntity, headerValues: Option<seq<string>>, boundary: Option<string>,
                  sections: seq<Multipart.Section>, json: Json<Fields>)
    returns (a: Result<ProductEntity, string>)
    ensures a == Amended(before, headerValues, boundary, sections, json)
  {
    var contentType := ContentType(headerValues);
    if IsMultipart(contentType) {
      var parsed := Multipart.Parse(boundary, sections);
      if parsed.Failure? {
        return Failure(parsed.error);
      }
      var v := ApplyForm(before, parsed.value.text);
      return Success(v);
    }
    match json {
      case Malformed(m) => a := Failure(m);
      case Null => a := Success(before);
      case Value(f) =>
        var v := ApplyJson(before, f);
        a := Success(v);
    }
  }

  /** The form branch's assignments, one property at a time. */
  method ApplyForm(before: ProductEntity, text: map<string, string>) returns (after: ProductEntity)
    ensures after == MergeForm(before, text)
  {
    after := before;
    if "ProductName" in text { after := after.(productName := text["ProductName"]); }
    if "Description" in text { after := after.(description := text["Description"]); }
    var price := Text.ParseReal(Lookup(text, "Price"));
    if price.Some? { after := after.(price := price.value); }
    var stock := Text.ParseInt32(Lookup(text, "StockAvailable"));
    if stock.Some? { after := after.(stockAvailable := stock.value); }
    if "ImageUrl" in text { after := after.(imageUrl := text["ImageUrl"]); }
  }

  /** The JSON branch's assignments, one property at a time. */
  method ApplyJson(before: ProductEntity, f: Fields) returns (after: ProductEntity)
    ensures after == MergeJson(before, f)
  {
    after := before;
    if "ProductName" in f { after := after.(productName := f["ProductName"].GetOr(after.productName)); }
    if "Description" in f { after := after.(description := f["Description"].GetOr(after.description)); }
    var price := RealField(f, "Price");
    if price.Some? { after := after.(price := price.value); }
    var stock := IntField(f, "StockAvailable");
    if stock.Some? { after := after.(stockAvailable := stock.value); }
    if "ImageUrl" in f { after := after.(imageUrl := f["ImageUrl"].GetOr(after.imageUrl)); }
  }
}
