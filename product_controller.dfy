/** `ProductController`: the product list search, the image checks on Create, and Create and Delete
    against the application's SQL `Products` set. */
module ProductController {
  import opened Wrappers
  import opened Records
  import Text
  import Seqs

  // ---------------------------------------------------------------------------
  // Index

  /** The Index filter: the product's name or id contains the search string, ignoring case. */
  predicate MatchesSearch(term: string, p: Product) {
    Text.ContainsIgnoreCase(p.productName, term) || Text.ContainsIgnoreCase(p.id, term)
  }

  /** `Index(searchString)`: the products listed for a search string; null or "" lists everything. */
  function Search(products: seq<Product>, searchString: Option<string>): (r: seq<Product>)
    ensures Text.IsNullOrEmpty(searchString) ==> r == products
    ensures !Text.IsNullOrEmpty(searchString) ==>
      forall p :: p in r <==> p in products && MatchesSearch(searchString.value, p)
  {
    if Text.IsNullOrEmpty(searchString) then products
    else
      Seqs.FilterMembershipAll((p: Product) => MatchesSearch(searchString.value, p), products);
      Seqs.Filter((p: Product) => MatchesSearch(searchString.value, p), products)
  }

  /** The search keeps the original order: it distributes over concatenation, and a single product
      is kept exactly when it matches. */
  lemma SearchKeepsOrder(front: seq<Product>, back: seq<Product>, p: Product, searchString: Option<string>)
    ensures Search(front + back, searchString) == Search(front, searchString) + Search(back, searchString)
    ensures Search([p], searchString) == (if Text.IsNullOrEmpty(searchString) || MatchesSearch(searchString.value, p) then [p] else [])
  {
    if !Text.IsNullOrEmpty(searchString) {
      Seqs.FilterAppend((q: Product) => MatchesSearch(searchString.value, q), front, back);
      assert [p][1..] == [];
    }
  }

  /** Searching the listed products again with the same string lists the same products. */
  lemma SearchIdempotent(products: seq<Product>, searchString: Option<string>)
    ensures Search(Search(products, searchString), searchString) == Search(products, searchString)
  {
    if !Text.IsNullOrEmpty(searchString) {
      var f := (q: Product) => MatchesSearch(searchString.value, q);
      Seqs.FilterAll(f, Seqs.Filter(f, products));
    }
  }

  // ---------------------------------------------------------------------------
  // Image checks

  /** The uploaded `IFormFile`: its file name and its length in bytes. */
  datatype UploadedFile = UploadedFile(fileName: string, length: int)

  const MaxImageSize: int := 5 * 1024 * 1024
  const AllowedExtensions: seq<string> := [".jpg", ".jpeg", ".png", ".gif"]
  const FileTooLarge: string := "File size must be under 5MB."
  const ExtensionNotAllowed: string := "Only JPG, PNG, or GIF files are allowed."

  predicate IsSeparator(c: char) { c == '/' || c == '\\' }

  /** The last '.' in `path[..n]` with no directory separator after it. */
  function LastDot(path: string, n: nat): (r: Option<nat>)
    requires n <= |path|
    ensures r.Some? ==> r.value < n && path[r.value] == '.'
    ensures r.Some? ==> forall j | r.value < j < n :: path[j] != '.' && !IsSeparator(path[j])
    ensures r.None? ==> forall j | 0 <= j < n && path[j] == '.' :: exists k :: j < k < n && IsSeparator(path[k])
  {
    if n == 0 then None
    else if path[n - 1] == '.' then Some(n - 1)
    else if IsSeparator(path[n - 1]) then
      assert forall j | 0 <= j < n - 1 && path[j] == '.' :: j < n - 1 < n && IsSeparator(path[n - 1]);
      None
    else LastDot(path, n - 1)
  }

  /** `Path.GetExtension(path)`: from the last '.' of the file name to the end; "" when the name has
      no '.', or ends in one. */
  function Extension(path: string): (r: string)
    ensures r != [] ==> 2 <= |r| <= |path| && r[0] == '.' && r == path[|path| - |r|..]
    ensures r != [] ==> forall k | 1 <= k < |r| :: r[k] != '.' && !IsSeparator(r[k])
    ensures r == [] ==> (path == [] || path[|path| - 1] == '.' ||
      forall j | 0 <= j < |path| && path[j] == '.' :: exists k :: j < k < |path| && IsSeparator(path[k]))
  {
    match LastDot(path, |path|)
    case None => ""
    case Some(i) => if i == |path| - 1 then "" else path[i..]
  }

  /** Only the last extension counts, case is kept, and a '.' in a directory name is not one. */
  lemma ExtensionExamples()
    ensures Extension("photo.JPG") == ".JPG"
    ensures Extension("a.tar.gz") == ".gz"
    ensures Extension("v1.2/readme") == ""
    ensures Extension("notes.") == ""
  {
    assert LastDot("photo.JPG", 9) == Some(5);
    assert LastDot("a.tar.gz", 8) == Some(5);
    assert LastDot("v1.2/readme", 11) == None;
    assert LastDot("notes.", 6) == Some(5);
  }

  /** The scan stops at a '.' that no later '.' or separator follows. */
  lemma {:induction false} LastDotFinds(path: string, i: nat, n: nat)
    requires i < n <= |path| && path[i] == '.'
    requires forall j | i < j < n :: path[j] != '.' && !IsSeparator(path[j])
    ensures LastDot(path, n) == Some(i)
    decreases n
  {
    if n - 1 != i {
      LastDotFinds(path, i, n - 1);
    }
  }

  /** Appending an extension (a '.' followed by at least one character, none of them a '.' or a
      separator) to any path gives that extension back, whatever dots the path itself holds. */
  lemma ExtensionOfAppended(name: string, ext: string)
    requires |ext| >= 2 && ext[0] == '.'
    requires forall k | 1 <= k < |ext| :: ext[k] != '.' && !IsSeparator(ext[k])
    ensures Extension(name + ext) == ext
  {
    var path := name + ext;
    LastDotFinds(path, |name|, |path|);
    assert path[|name|..] == ext;
  }

  /** A non-empty file of at most 5 MiB whose name ends in an allowed extension passes the check,
      whatever comes before the extension. */
  lemma AllowedNamePasses(name: string, ext: string, length: int)
    requires ext in AllowedExtensions && 0 < length <= MaxImageSize
    ensures ImageError(Some(UploadedFile(name + ext, length))).None?
  {
    AllowedExtensionShape(ext);
    AllowedExtensionLower(ext);
    ExtensionOfAppended(name, ext);
  }

  /** Each allowed extension is a '.' followed by at least one character that is neither a '.' nor a
      separator. */
  lemma AllowedExtensionShape(ext: string)
    requires ext in AllowedExtensions
    ensures |ext| >= 2 && ext[0] == '.'
    ensures forall k | 1 <= k < |ext| :: ext[k] != '.' && !IsSeparator(ext[k])
  {
  }

  /** Each allowed extension is already lower case. */
  lemma AllowedExtensionLower(ext: string)
    requires ext in AllowedExtensions
    ensures Text.ToLower(ext) == ext
  {
    assert Text.IsLowerCase(ext);
    Text.ToLowerMatches(ext, ext);
  }

  /** The error Create shows for the uploaded file, or None when the file passes or there is none. */
  function ImageError(imageFile: Option<UploadedFile>): (r: Option<string>)
    ensures r.Some? ==> imageFile.Some? && imageFile.value.length > 0
    ensures r == Some(FileTooLarge) <==> imageFile.Some? && imageFile.value.length > MaxImageSize
    ensures r.Some? ==> r == Some(FileTooLarge) || r == Some(ExtensionNotAllowed)
  {
    match imageFile
    case None => None
    case Some(f) =>
      if f.length <= 0 then None
      else if f.length > MaxImageSize then Some(FileTooLarge)
      else if Text.ToLower(Extension(f.fileName)) !in AllowedExtensions then Some(ExtensionNotAllowed)
      else None
  }

  /** A non-empty file passes exactly when it is at most 5 MiB and its name ends in one of the four
      extensions in any mix of case, with no further '.' in the extension. */
  lemma AcceptedImages(f: UploadedFile)
    requires f.length > 0
    ensures ImageError(Some(f)).None? <==>
      f.length <= MaxImageSize &&
      exists w :: w in AllowedExtensions && Text.MatchesIgnoringCase(Extension(f.fileName), w)
  {
    var e := Extension(f.fileName);
    assert forall w | w in AllowedExtensions :: Text.IsLowerCase(w);
    forall w | w in AllowedExtensions
      ensures Text.ToLower(e) == w <==> Text.MatchesIgnoringCase(e, w)
    {
      Text.ToLowerMatches(e, w);
    }
  }

  // ---------------------------------------------------------------------------
  // Create and Delete against the SQL products

  /** What the action answers: the form again with an error, or a redirect to Index with a notice. */
  datatype Page = FormShown(error: Option<string>) | RedirectedToIndex(notice: Notice)
  /** A `TempData` entry: its key ("Success", "Error", "Warning") and its text. */
  datatype Notice = Notice(key: string, message: string)

  /** The product Create saves: the posted fields under `newId`. The action itself assigns no `Id`
      (it builds the product from the five posted fields only), so `newId` stands for a key the
      database is assumed to accept. */
  function NewProduct(model: Product, newId: string): (r: Product)
    ensures r.id == newId
    ensures r.(id := model.id) == model
  {
    Product(newId, model.productName, model.description, model.price, model.stockAvailable, model.imageUrl)
  }

  class ProductDb {
    /** `_context.Products`, by `Id`. */
    var products: map<string, Product>

    constructor(products0: map<string, Product>)
      ensures products == products0
    {
      products := products0;
    }

    /** `Create(model, imageFile)`: an invalid form or a rejected file changes nothing; otherwise the
        product is saved before the API is called, and stays saved when the API call fails. On
        success its image URL becomes the one the API returns. The saved row is keyed by `newId`,
        a fresh key the source does not assign. */
    method Create(model: Product, modelValid: bool, imageFile: Option<UploadedFile>, newId: string,
                  api: Result<string, string>) returns (page: Page)
      requires newId !in products
      modifies this
      ensures !modelValid ==> page == FormShown(None) && products == old(products)
      ensures modelValid && ImageError(imageFile).Some? ==>
        page == FormShown(ImageError(imageFile)) && products == old(products)
      ensures modelValid && ImageError(imageFile).None? && api.Success? ==>
        products == old(products)[newId := NewProduct(model, newId).(imageUrl := api.value)] &&
        page == RedirectedToIndex(Notice("Success", "Product '" + model.productName + "' created successfully!"))
      ensures modelValid && ImageError(imageFile).None? && api.Failure? ==>
        products == old(products)[newId := NewProduct(model, newId)] &&
        page == FormShown(Some("Error creating product: " + api.error))
    {
      if !modelValid {
        return FormShown(None);
      }
      var error := ImageError(imageFile);
      if error.Some? {
        return FormShown(error);
      }
      var product := NewProduct(model, newId);
      products := products[newId := product];
      match api {
        case Failure(m) =>
          page := FormShown(Some("Error creating product: " + m));
        case Success(url) =>
          product := product.(imageUrl := url);
          products := products[newId := product];
          page := RedirectedToIndex(Notice("Success", "Product '" + product.productName + "' created successfully!"));
      }
    }

    /** `Delete(id)`: a blank id changes nothing; otherwise the SQL row (if any) is removed before the
        API is called, and stays removed when the API call fails. */
    method Delete(id: Option<string>, apiFault: Option<string>) returns (notice: Notice)
      modifies this
      ensures Text.IsNullOrWhiteSpace(id) ==> notice == Notice("Error", "Invalid product ID.") && products == old(products)
      ensures !Text.IsNullOrWhiteSpace(id) ==> products == old(products) - {id.value}
      ensures !Text.IsNullOrWhiteSpace(id) && apiFault.None? ==> notice == Notice("Success", "Product deleted successfully!")
      ensures !Text.IsNullOrWhiteSpace(id) && apiFault.Some? ==> notice == Notice("Error", "Error deleting product: " + apiFault.value)
    {
      if Text.IsNullOrWhiteSpace(id) {
        return Notice("Error", "Invalid product ID.");
      }
      if id.value in products {
        products := products - {id.value};
      }
      match apiFault {
        case None => notice := Notice("Success", "Product deleted successfully!");
        case Some(m) => notice := Notice("Error", "Error deleting product: " + m);
      }
    }
  }
}
