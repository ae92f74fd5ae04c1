# ABC Retailers — a verified model of the shop's core logic

ABC Retailers is a small retail system. It has two parts:

- an ASP.NET MVC web shop (`ABCRetails`), with a session shopping cart, a per-user database cart, order placement and status changes, product and customer administration, and a storage service over Azure Table Storage and queues;
- an Azure Functions API (`ABCRetailersFunctions`), with list, get, create and update handlers for orders, products and customers, and a multipart form reader.

This project models that logic in Dafny and proves what it promises. Storage tables are maps from (PartitionKey, RowKey) to an entity with an ETag. The "order-notifications" and "stock-updates" queues are sequences that messages are appended to. Every storage call takes an optional failure: the error the service would report for reasons the table does not show. That makes each handler's partial-failure behaviour explicit. GUIDs, `DateTime.Now`, blob URLs and the results of calls to the Functions API are parameters. Prices are `real`. Quantities and stock are 32-bit integers with explicit wrap-around, because C# `+=` and `-=` on `int` are unchecked.

Modules, one per source file plus shared helpers:

- `SessionCart`: `CartController`.
- `CartDb`: `CartService`.
- `OrderModel`: `Order.cs`.
- `OrderWorkflow`: `OrderController`.
- `StorageService`: `AzureStorageService`.
- `OrdersApi`, `ProductsApi`, `CustomersApi`: the three function classes.
- `Multipart`: `MultipartHelper`.
- `ProductController`, `CustomerController`: the MVC controllers of the same names.
- Shared helpers:
  - `Wrappers`: Option and Result;
  - `Int32`: wrap-around arithmetic;
  - `Text`: the .NET string operations the code uses;
  - `Seqs`: filter, map and first-match over sequences;
  - `Tables`: the table contract;
  - `Records`: the Product and Customer records;
  - `Notifications`: queue names and messages;
  - `FunctionsHttp`: responses and request bodies.

Each state-changing object is a class:

- the session cart (`SessionCart.CartSession`);
- the cart table (`CartDb.CartService`);
- the storage account (`StorageService.Account`);
- the SQL product and customer sets (`ProductController.ProductDb`, `CustomerController.CustomerDb`).

Each method's `ensures` ties the new state to a function of the old state. The properties are proved about those functions.

## Model

| member | source | states |
|---|---|---|
| SessionCart.AddToExisting | ABCRetails/Controllers/CartController.cs:33-37 | Adding a product already in the cart adds the quantity to that entry (wrapping at 32 bits), keeps the length, and leaves every other entry unchanged |
| SessionCart.AddNew | ABCRetails/Controllers/CartController.cs:38-41 | Adding a product not in the cart appends exactly one entry with the given product and quantity |
| SessionCart.AddKeepsDistinct | ABCRetails/Controllers/CartController.cs:33-41 | Adding keeps "no two entries share a product id" |
| SessionCart.IndexOfIsFirstEntry | ABCRetails/Controllers/CartController.cs:33 | The entry lookup finds the first entry with the product id |
| SessionCart.EditSetsOrRemoves | ABCRetails/Controllers/CartController.cs:126-133 | Editing with quantity <= 0 removes the entry; with quantity > 0 it sets that entry's quantity to exactly that value |
| SessionCart.AbsentProductUnchanged | ABCRetails/Controllers/CartController.cs:127-146 | Editing or removing a product that is not in the cart leaves the cart as it was |
| SessionCart.RemoveOnlyMatching | ABCRetails/Controllers/CartController.cs:145-147 | Removing deletes only the matching entry; the others keep their order and quantities, the product is gone and ids stay distinct |
| SessionCart.EditKeepsDistinct | ABCRetails/Controllers/CartController.cs:122-136 | Editing keeps product ids distinct |
| SessionCart.RequestsFor | ABCRetails/Controllers/CartController.cs:88-91 | Checkout makes one order request per entry, in cart order, with that entry's product and quantity |
| SessionCart.CartSession.constructor | ABCRetails/Controllers/CartController.cs:31 | A missing "Cart" session key reads as the empty cart |
| SessionCart.CartSession.AddToCart | ABCRetails/Controllers/CartController.cs:29-45 | The new cart is the add-or-merge of the old cart |
| SessionCart.CartSession.EditCartItem | ABCRetails/Controllers/CartController.cs:122-137 | The new cart is the set-or-remove of the old cart |
| SessionCart.CartSession.RemoveCartItem | ABCRetails/Controllers/CartController.cs:141-151 | The new cart is the old cart without the matching entry |
| SessionCart.CartSession.Checkout | ABCRetails/Controllers/CartController.cs:72-96 | An empty cart or a blank user id places no orders and keeps the cart. Otherwise every entry is requested in order and the cart is cleared; if request i throws, requests 0..i were made and the cart is kept |
| SessionCart.ViewCart | ABCRetails/Controllers/CartController.cs:50-68 | One line per cart entry, in cart order, with its product id and quantity; name and price come from the first product with that id, or are "" and 0 when there is none |
| SessionCart.MyOrders | ABCRetails/Controllers/CartController.cs:99-108 | A blank user id redirects (no list) |
| SessionCart.MyOrdersExactly | ABCRetails/Controllers/CartController.cs:104-105 | The list holds exactly the orders whose customer id is the user's, and filtering distributes over concatenation |
| CartDb.LookupFindsRow | ABCRetails/Services/CartService.cs:24-25 | The (customer, product) lookup finds the row when one exists |
| CartDb.AddToExistingRow | ABCRetails/Services/CartService.cs:27-30 | Adding to an existing (customer, product) row adds to its quantity only; its id and unit price and all other rows are kept |
| CartDb.AddNewRow | ABCRetails/Services/CartService.cs:31-41 | Otherwise one row is appended with the product's id and price and the quantity |
| CartDb.AddKeepsValid | ABCRetails/Services/CartService.cs:22-44 | Adding keeps row ids unique and at most one row per (customer, product) |
| CartDb.UpdateSetsOrRemoves | ABCRetails/Services/CartService.cs:46-70 | Updating with quantity <= 0 removes the row; otherwise it sets the quantity exactly. Removing deletes just that row |
| CartDb.AbsentRowUnchanged | ABCRetails/Services/CartService.cs:51-65 | Update and remove of a missing row change nothing |
| CartDb.RemoveAtKeepsValid | ABCRetails/Services/CartService.cs:53-67 | Deleting one row keeps the table valid |
| CartDb.UpdateRemoveKeepValid | ABCRetails/Services/CartService.cs:46-70 | Update and remove keep the table valid |
| CartDb.OtherCustomersUntouched | ABCRetails/Services/CartService.cs:22-70 | Add, update and remove for one user leave every other user's cart items exactly as they were |
| CartDb.CartService.constructor | ABCRetails/Services/CartService.cs:10-13 | The service starts over the given cart rows |
| CartDb.CartService.GetCartItems | ABCRetails/Services/CartService.cs:15-20 | Returns exactly the rows whose customer id is the user's, as the order-keeping filter of the table |
| CartDb.ItemsOfKeepsOrder | ABCRetails/Services/CartService.cs:17-19 | The user's rows keep table order: the filter distributes over concatenation and keeps a single row iff it is the user's |
| CartDb.CartService.AddToCart | ABCRetails/Services/CartService.cs:22-44 | The new rows are the add-or-merge of the old rows, and validity is kept |
| CartDb.CartService.UpdateQuantity | ABCRetails/Services/CartService.cs:46-58 | The new rows are the set-or-remove of the old rows, and validity is kept |
| CartDb.CartService.RemoveItem | ABCRetails/Services/CartService.cs:60-70 | The new rows are the old rows without the matching row, and validity is kept |
| OrderModel.EnumNamesAgainstAccepted | ABCRetails/Models/Order.cs:5-11 | Exactly three of the four enumeration names are accepted status strings; "Procossing" is not "Processing" |
| OrderModel.QuantityRangeMeansPositive | ABCRetails/Models/Order.cs:41 | Example values: the quantity range [1, int.MaxValue] holds exactly for positive 32-bit quantities |
| OrderModel.NewOrderDefaults | ABCRetails/Models/Order.cs:16-54 | Example values: a new order has id "", status "Submitted", today's date, and a quantity 0 that is out of range |
| OrderWorkflow.StockMessageLevels | ABCRetails/Controllers/OrderController.cs:79-105 | The stock message carries the stock before and after; without overflow, previous minus new equals the quantity |
| OrderWorkflow.CheckedStockStaysNonNegative | ABCRetails/Controllers/OrderController.cs:55-79 | After the stock check, the decrement is exact and stock stays between 0 and its old value |
| OrderWorkflow.Place | ABCRetails/Controllers/OrderController.cs:63-117 | The writes happen in order: add order, update stock, order message, stock message. Each failure stops the rest and leaves exactly the earlier writes in place. On success the order has the product's name and price, total = price × quantity, status "Submitted" |
| OrderWorkflow.Create | ABCRetails/Controllers/OrderController.cs:37-121 | An invalid model redisplays; a read failure names its step; an unknown customer or product is an invalid selection; too little stock reports the available amount. None of these writes anything. Otherwise the placement sequence above runs; customers are never changed |
| OrderWorkflow.UpdateOrderStatus | ABCRetails/Controllers/OrderController.cs:243-289 | A missing body, id or status, or a status outside the four accepted ones, is rejected without a write. An unknown order gives "Order not found.". Otherwise only the status is replaced, and the message carries the previous status; any failure leaves what is not yet written |
| OrderWorkflow.Edit | ABCRetails/Controllers/OrderController.cs:155-199 | Missing keys or an invalid model redisplay without a write. An unknown order is not found. Otherwise only the order date and status are copied onto the stored order; a 412 shows the "modified by another process" text |
| StorageService.GetTableName | ABCRetails/Services/AzureStorageService.cs:297-306 | The table name is the type name plus "s" |
| StorageService.CreatedTablesMatchEntityTypes | ABCRetails/Services/AzureStorageService.cs:299-303 | Example values: Customer, Product and Order map to the three tables the account creates, "Customers", "Products", "Orders" |
| StorageService.TableNamesDistinct | ABCRetails/Services/AzureStorageService.cs:297-306 | The type name is the table name without its final 's', so distinct entity types never share a table |
| StorageService.GetEntityAsync | ABCRetails/Services/AzureStorageService.cs:104-119 | A 404 (or a missing key) gives null; success gives the stored entity; any other failure is passed on as it is, even when the key is present |
| StorageService.AddEntityAsync | ABCRetails/Services/AzureStorageService.cs:122-131 | Behaves exactly as the table's add, with its failure rethrown |
| StorageService.UpdateEntityAsync | ABCRetails/Services/AzureStorageService.cs:134-161 | A stale ETag (412) throws the "modified by another process" error and leaves the table unchanged; a matching ETag replaces the entity and bumps its ETag; a missing row rethrows the 404; every other failure is rethrown as itself |
| StorageService.Account.constructor | ABCRetails/Services/AzureStorageService.cs:36-65 | The account starts with empty tables and the two empty queues |
| StorageService.Account.SendMessage | ABCRetails/Services/AzureStorageService.cs:240-245 | Success appends the message to that queue only; a failure changes nothing |
| StorageService.Account.ReceiveMessage | ABCRetails/Services/AzureStorageService.cs:247-258 | An empty queue gives null; otherwise the first message is returned and removed |
| StorageService.GetAllEntities | ABCRetails/Services/AzureStorageService.cs:88-101 | Returns every entity of the table once: as many as the table holds, each stored entity among them, nothing else |
| Tables.GetEntity | ABCRetails/Services/AzureStorageService.cs:110-113 | Without a fault, success iff the key is present, with the stored entity; otherwise 404. A fault is passed on as it is |
| Tables.AddEntity | ABCRetails/Services/AzureStorageService.cs:127-128 | Without a fault, success iff the key is absent, storing the entity with ETag 1; otherwise 409. A fault is passed on as it is |
| Tables.UpdateEntity | ABCRetails/Services/AzureStorageService.cs:140-141 | Without a fault, success iff the key is present with a matching ETag, replacing it and bumping the ETag; otherwise 412 or 404. A fault is passed on as it is |
| Tables.ReadModifyWrite | ABCRetails/Services/AzureStorageService.cs:104-145 | A read followed by a conditional update under the ETag just read succeeds, and a re-read gives the new value with a new ETag |
| Tables.StaleETagRejected | ABCRetails/Services/AzureStorageService.cs:143-153 | A second update under the ETag of the first read fails with 412 after a successful write |
| Int32.Wrap | ABCRetails/Controllers/OrderController.cs:79 | The result agrees with x modulo 2^32, and is x itself when x fits in 32 bits |
| Int32.AddExact | ABCRetails/Controllers/CartController.cs:36 | Adding without overflow is exact |
| Int32.SubThenAdd | ABCRetails/Controllers/OrderController.cs:79-101 | Subtracting then adding back gives the old value, even with wrap-around |
| OrdersApi.InsertByDate | ABCRetailersFunctions/Functions/OrdersFunctions.cs:43 | Insertion keeps the multiset of orders and adds the one inserted |
| OrdersApi.SortByDateDescending | ABCRetailersFunctions/Functions/OrdersFunctions.cs:43 | Sorting is a permutation |
| OrdersApi.InsertKeepsSorted | ABCRetailersFunctions/Functions/OrdersFunctions.cs:43 | Inserting into a list sorted by date (newest first) keeps it sorted |
| OrdersApi.SortIsSortedPermutation | ABCRetailersFunctions/Functions/OrdersFunctions.cs:43 | The sort's result is sorted by date descending and is a permutation of its input |
| OrdersApi.List | ABCRetailersFunctions/Functions/OrdersFunctions.cs:32-45 | The answer is sorted by order date (newest first) and is a permutation of the "Order" partition's entities as DTOs |
| OrdersApi.Get | ABCRetailersFunctions/Functions/OrdersFunctions.cs:47-63 | 200 with the order iff no fault and the key exists; a 404 answers "Order not found"; any other failure escapes the handler |
| OrdersApi.MergeFields | ABCRetailersFunctions/Functions/OrdersFunctions.cs:146-156 | Quantity and unit price change only when present and parseable; status is replaced when present and not null, unvalidated; other fields are kept; the total is always quantity × unit price |
| OrdersApi.Update | ABCRetailersFunctions/Functions/OrdersFunctions.cs:130-170 | A missing order gives 404; a null body gives 400 "Request body is empty" with no write; other failures give 400 "Internal error: …". Success writes the merged entity with a new ETag and returns it |
| ProductsApi.List | ABCRetailersFunctions/Functions/ProductsFunctions.cs:30-46 | The answer is exactly the "Product" partition's entities as DTOs, in query order |
| ProductsApi.Get | ABCRetailersFunctions/Functions/ProductsFunctions.cs:48-70 | 200 with the product iff no fault and the key exists; a 404 answers "Product not found"; any other failure escapes the handler |
| ProductsApi.CreateAsWrittenNeverMultipart | ABCRetailersFunctions/Functions/ProductsFunctions.cs:79-87 | As written, the Content-Type that Create tests is never multipart, whatever the request sends |
| ProductsApi.MultipartRequestSeen | ABCRetailersFunctions/Functions/ProductsFunctions.cs:151 | Reading the header's first value, a "multipart/form-data; …" request takes the form branch |
| ProductsApi.JsonDraftDefaults | ABCRetailersFunctions/Functions/ProductsFunctions.cs:112-117 | In the JSON path a missing or null string becomes "" and a missing or unparseable price or stock becomes 0; supplied values are kept |
| ProductsApi.ImageOnlyFromFileNamedImageFile | ABCRetailersFunctions/Functions/ProductsFunctions.cs:95-108 | With no uploaded file named "ImageFile", the image URL comes from the "ImageUrl" form field |
| ProductsApi.NullBodyRejected | ABCRetailersFunctions/Functions/ProductsFunctions.cs:112-120 | A null JSON body reads as empty and so has a blank name |
| ProductsApi.ReadDraft | ABCRetailersFunctions/Functions/ProductsFunctions.cs:83-118 | The step-by-step reading of the request equals the draft product of its form or JSON body |
| ProductsApi.Create | ABCRetailersFunctions/Functions/ProductsFunctions.cs:72-144 | A blank name gives 400 "ProductName is required" and adds nothing. Otherwise the entity is stored in partition "Product" under the fresh row key, and exactly that entity is returned with 201. The request kind is decided on the first value of the Content-Type header, the corrected read of `ct.ToString()` at line 79 (see Findings) |
| ProductsApi.MergeForm | ABCRetailersFunctions/Functions/ProductsFunctions.cs:163-167 | A form field present replaces that property (for price and stock, when it parses); absent (or not parseable) leaves it as it was |
| ProductsApi.MergeJson | ABCRetailersFunctions/Functions/ProductsFunctions.cs:172-179 | A JSON key present and not null replaces that property (for price and stock, when it parses); absent, null (or not parseable) leaves it as it was |
| ProductsApi.MergesIdempotent | ABCRetailersFunctions/Functions/ProductsFunctions.cs:159-180 | Applying the same form or JSON body twice equals applying it once; an empty body changes nothing |
| ProductsApi.UpdateMayBlankTheName | ABCRetailersFunctions/Functions/ProductsFunctions.cs:163-174 | Update does not enforce the non-blank name that Create does |
| ProductsApi.ReadBody | ABCRetailersFunctions/Functions/ProductsFunctions.cs:159-180 | The step-by-step amendment equals the merge of the form or JSON body |
| ProductsApi.ApplyForm | ABCRetailersFunctions/Functions/ProductsFunctions.cs:163-167 | The field-by-field assignments equal the form merge |
| ProductsApi.ApplyJson | ABCRetailersFunctions/Functions/ProductsFunctions.cs:172-179 | The field-by-field assignments equal the JSON merge |
| ProductsApi.Update | ABCRetailersFunctions/Functions/ProductsFunctions.cs:146-194 | A missing product gives 404 "Product not found" with no write. Otherwise the merged entity replaces the stored one under a new ETag and is returned |
| CustomersApi.List | ABCRetailersFunctions/Functions/CustomersFunction.cs:22-37 | The answer is exactly the "Customer" partition's entities as DTOs, in query order |
| CustomersApi.Get | ABCRetailersFunctions/Functions/CustomersFunction.cs:39-57 | 200 with the customer iff no fault and the key exists; every failure answers 404 "Customer not found" |
| CustomersApi.NewCustomer | ABCRetailersFunctions/Functions/CustomersFunction.cs:74-82 | The new customer keeps the given non-blank name and email; missing surname, username and address become "" |
| CustomersApi.Create | ABCRetailersFunctions/Functions/CustomersFunction.cs:61-87 | A null body or a blank name or email gives 400 "Name and Email are required" with no write. Otherwise the customer is added under the fresh key and returned with 201 |
| CustomersApi.Merge | ABCRetailersFunctions/Functions/CustomersFunction.cs:106-114 | Each supplied field replaces the stored one; each null field keeps it |
| CustomersApi.MergeIdempotent | ABCRetailersFunctions/Functions/CustomersFunction.cs:106-114 | Merging twice equals merging once; an all-null input changes nothing |
| CustomersApi.MergeTwice | ABCRetailersFunctions/Functions/CustomersFunction.cs:106-114 | Two updates in a row equal one update where the later field wins |
| CustomersApi.UpdateMayBlankNameAndEmail | ABCRetailersFunctions/Functions/CustomersFunction.cs:106-112 | Unlike Create, Update accepts a blank name and email and stores them |
| CustomersApi.Update | ABCRetailersFunctions/Functions/CustomersFunction.cs:89-124 | A null body gives 400 "Invalid body". Any failure gives 404 "Customer not found" with no write. Success stores the merged customer with a new ETag |
| Multipart.FileAndFormExclusive | ABCRetailersFunctions/Helpers/MultipartHelper.cs:43-56 | A disposition is never both a file and a form field; every form-data one is one of the two |
| Multipart.RemoveQuotes | ABCRetailersFunctions/Helpers/MultipartHelper.cs:27 | Unquoting never lengthens the boundary and keeps one without quotes |
| Multipart.Parse | ABCRetailersFunctions/Helpers/MultipartHelper.cs:22-67 | A missing or empty boundary fails with "Missing content-type boundary." before any section is read; otherwise the result is the fold of the sections. Reader failures are not modelled (see Left out) |
| Multipart.FilesAreFileSections | ABCRetailersFunctions/Helpers/MultipartHelper.cs:43-54 | Files are exactly the file sections, in stream order, each named by FileName or else FileNameStar |
| Multipart.SkippedSections | ABCRetailersFunctions/Helpers/MultipartHelper.cs:40-61 | A section without a parsable disposition, or a form section without a name, changes neither the files nor the fields |
| Multipart.LastFieldWins | ABCRetailersFunctions/Helpers/MultipartHelper.cs:58-62 | A key is present iff some named form section has it after quote trimming, and its value is the last such section's body |
| Multipart.SupportedTypesAreLowerCase | ABCRetailersFunctions/Helpers/MultipartHelper.cs:90-96 | The whitelist entries are lower case, so comparing after ToLower is a case-insensitive match |
| Multipart.SupportedImageExactly | ABCRetailersFunctions/Helpers/MultipartHelper.cs:88-92 | Supported image iff the type is image/jpeg, image/png or image/gif, ignoring case |
| Multipart.SupportedDocumentExactly | ABCRetailersFunctions/Helpers/MultipartHelper.cs:94-98 | Supported document iff the type is application/pdf, image/jpeg or image/png, ignoring case |
| Multipart.GifImageNotDocument | ABCRetailersFunctions/Helpers/MultipartHelper.cs:90-96 | The two whitelists differ: a GIF is an image but not a document |
| ProductController.Search | ABCRetails/Controllers/ProductController.cs:22-36 | A null or empty search keeps the list; otherwise a product stays iff its name or id contains the term, ignoring case |
| ProductController.SearchKeepsOrder | ABCRetails/Controllers/ProductController.cs:28-31 | The search keeps the products' order: it distributes over concatenation |
| ProductController.SearchIdempotent | ABCRetails/Controllers/ProductController.cs:28-31 | Searching the result again with the same term changes nothing |
| ProductController.LastDot | ABCRetails/Controllers/ProductController.cs:61 | Finds the last '.' after the last path separator, if any |
| ProductController.Extension | ABCRetails/Controllers/ProductController.cs:61 | The extension is a suffix of the path that starts with '.' and has no later dot or separator; it is "" when there is no such dot or the dot ends the path |
| ProductController.ExtensionExamples | ABCRetails/Controllers/ProductController.cs:61 | Example values: "photo.JPG" gives ".JPG", "a.tar.gz" gives ".gz", "v1.2/readme" and "notes." give "" |
| ProductController.LastDotFinds | ABCRetails/Controllers/ProductController.cs:61 | The scan for the extension's dot finds the last '.' that no later '.' or separator follows |
| ProductController.ExtensionOfAppended | ABCRetails/Controllers/ProductController.cs:61 | Appending an extension with no further '.' or separator to any path gives exactly that extension back |
| ProductController.AllowedNamePasses | ABCRetails/Controllers/ProductController.cs:50-68 | A non-empty file of at most 5 MiB whose name ends in an allowed extension passes, whatever precedes the extension |
| ProductController.ImageError | ABCRetails/Controllers/ProductController.cs:50-68 | A non-empty file larger than 5 MiB is refused for size first; otherwise a disallowed extension is refused; an absent or empty file passes |
| ProductController.AcceptedImages | ABCRetails/Controllers/ProductController.cs:50-68 | A non-empty file passes iff it is at most 5 MiB and its extension is .jpg, .jpeg, .png or .gif in any case |
| ProductController.NewProduct | ABCRetails/Controllers/ProductController.cs:72-80 | The saved product is the form model under the new id |
| ProductController.ProductDb.constructor | ABCRetails/Controllers/ProductController.cs:15-19 | The database starts with the given products |
| ProductController.ProductDb.Create | ABCRetails/Controllers/ProductController.cs:42-109 | An invalid model or an image error shows the form and saves nothing. Otherwise the product is saved; on API success its image URL is set from the API and the notice names it; on API failure it stays saved and the form shows the error |
| ProductController.ProductDb.Delete | ABCRetails/Controllers/ProductController.cs:155-186 | A blank id gives "Invalid product ID." and deletes nothing; otherwise the product is removed and the notice reports success or the API error |
| CustomerController.SearchTerm | ABCRetails/Controllers/CustomerController.cs:41 | The search term is trimmed and lower-cased: no whitespace at either end, not longer than the input, non-empty for a non-blank input |
| CustomerController.Visible | ABCRetails/Controllers/CustomerController.cs:32-37 | A Customer-role user sees only the records whose username is theirs; others see all |
| CustomerController.Index | ABCRetails/Controllers/CustomerController.cs:28-52 | A customer is listed iff visible to the user and, for a non-blank search, its lower-cased name, surname or username contains the term |
| CustomerController.IndexExactly | ABCRetails/Controllers/CustomerController.cs:28-52 | A customer is listed iff stored, the user may act on the record, and (for a non-blank search) the trimmed lower-cased term occurs in the name, surname or username |
| CustomerController.IndexKeepsOrder | ABCRetails/Controllers/CustomerController.cs:28-52 | The listing keeps the store's order: it distributes over concatenation |
| CustomerController.EditForm | ABCRetails/Controllers/CustomerController.cs:55-71 | A blank id or unknown customer is not found; a Customer-role user editing someone else's record is forbidden; otherwise the form shows the record |
| CustomerController.Copied | ABCRetails/Controllers/CustomerController.cs:92-95 | Editing copies name, surname, email and shipping address from the form and keeps id, user id and username |
| CustomerController.CopiedIdempotent | ABCRetails/Controllers/CustomerController.cs:92-95 | Copying twice equals copying once, and the ownership check still holds after an edit |
| CustomerController.CustomerDb.constructor | ABCRetails/Controllers/CustomerController.cs:19-25 | The database starts with the given customers |
| CustomerController.CustomerDb.Edit | ABCRetails/Controllers/CustomerController.cs:74-118 | An id mismatch is a bad request, an unknown id not found, another owner's record forbidden, an invalid model shows the form; none of these changes anything. Otherwise the fields are copied and saved, with a notice from the API outcome, and a redirect to Index for an Admin or back to Edit |
| CustomerController.CustomerDb.Delete | ABCRetails/Controllers/CustomerController.cs:122-157 | A blank id is a bad request, an unknown id not found, another owner's record forbidden, with nothing deleted. Otherwise the record is removed, the notice reports the storage outcome, and a Customer-role user is logged out |
| Text.ToLower | ABCRetails/Controllers/CustomerController.cs:41-46 | Lower-casing keeps the length and maps each character |
| Text.ToLowerMatches | ABCRetailersFunctions/Helpers/MultipartHelper.cs:91-97 | Against a lower-case word, comparing after ToLower is case-insensitive equality |
| Text.ContainsAt | ABCRetails/Controllers/CustomerController.cs:43-45 | Contains holds iff the term occurs at some index |
| Text.TrimStart | ABCRetails/Controllers/CustomerController.cs:41 | Drops exactly the leading whitespace |
| Text.TrimEnd | ABCRetails/Controllers/CustomerController.cs:41 | Drops exactly the trailing whitespace |
| Text.TrimChar | ABCRetailersFunctions/Helpers/MultipartHelper.cs:58 | Trimming quotes leaves no quote at either end, and keeps an unquoted key |
| Text.FormatParseRoundTrip | ABCRetailersFunctions/Functions/OrdersFunctions.cs:147 | int.TryParse accepts every formatted 32-bit integer and returns it |
| Text.ParseIntThenReal | ABCRetailersFunctions/Functions/ProductsFunctions.cs:165-166 | A string that parses as an int parses as the same number as a double |
| Text.TakeUntilDot | ABCRetailersFunctions/Functions/ProductsFunctions.cs:92 | The integer part of a number literal is the prefix before the first dot |

## Left out

- Azure SDK I/O is not modelled: table and queue creation, blob containers, file shares, and the uploads inside the handlers. Tables and queues are values, and uploaded blob URLs are parameters.
- HTTP hosting, JSON serialisation (`HttpJson`, `JsonSerializer`), views, TempData rendering, `FunctionApiClient` and the interfaces are not modelled. Responses and request bodies are datatypes, and API results are parameters.
- Identity (`UserManager`, roles, login) is not modelled: the signed-in user is a parameter with a name and a set of roles. The account, admin and seeding code is not part of this model.
- EF Core is not modelled: the SQL product, customer and cart sets are maps or sequences, and `SaveChangesAsync` always succeeds. EF's rejection of a duplicate key is not modelled, so ProductController.ProductDb.Create requires an id not yet used.
- Concurrency is not modelled; only the single-call contract of a stale ETag is.
- Floating point is not modelled: prices are exact `real`s, with no rounding claims.
- Text semantics are simplified. Casing, whitespace and number parsing are ASCII-only approximations of .NET culture rules, number parsing accepts an optional sign, digits and one fraction, and SQL-translated `ToLower`/`Contains` in the customer search is taken to behave as the .NET methods.
- `OrdersFunctions.Create` (ABCRetailersFunctions/Functions/OrdersFunctions.cs:65-128) is not modelled. It is a copy of product creation that writes a product entity into the orders table, not order creation.
- `CartController.CancelOrder` (ABCRetails/Controllers/CartController.cs:111-118) is not modelled: it calls `UpdateOrderStatusAsync`, which the API client does not implement. The product listing actions `Index`/`Products` (14-27) only render.
- OrderController's read-only actions are not modelled: `Index`, `Create` (GET), `Details`, `Edit` (GET), `GetProductPrice` and `PopulateDropdowns`. `Delete` (ABCRetails/Controllers/OrderController.cs:202-214) is a single storage delete with a notice and is not modelled either.
- `OrderController` calls an undeclared `_storageService`; the model passes the storage account in as a parameter.
- `OrderController` also reads `order.OrderId` (ABCRetails/Controllers/OrderController.cs:84, 271), `product.ProductId` (line 99) and `order.PartitionKey`/`order.RowKey` (lines 165, 172), none of which the Order and Product models declare (ABCRetails/Models/Order.cs:12-55). No shipped entity class implements `ITableEntity`, although `GetEntityAsync<T>`, `AddEntityAsync<T>` and `UpdateEntityAsync<T>` require it (ABCRetails/Services/AzureStorageService.cs:104, 122, 134). The keys and ETags are therefore the model's own: `Tables.Entity` wraps each Order, Product and Customer with a partition key, a row key and an ETag, `OrderEdit.partitionKey`/`rowKey` stand for the posted keys, and the row key stands in for `OrderId` and `ProductId`.
- ProductController.ProductDb.Create: the action builds the product from the five posted fields without an `Id` (ABCRetails/Controllers/ProductController.cs:72-80), and `Product.Id` is a `[Key]` string with no initialiser (ABCRetails/Models/Product.cs:7-8). Whether EF accepts or generates that key is library behaviour that is not modelled; the model supplies a fresh `newId` that the source never assigns.
- ProductController's `Create`/`Edit` GET and `Edit` POST (ABCRetails/Controllers/ProductController.cs:113-152) are not modelled.
- `AzureStorageService.DeleteEntityAsync` and the blob and file-share helpers are not modelled.
- Multipart.Parse: the multipart reader's own failures are not modelled. `MediaTypeHeaderValue.Parse(contentType)` throws `FormatException` on a malformed Content-Type (ABCRetailersFunctions/Helpers/MultipartHelper.cs:26), and `ReadNextSectionAsync` throws `IOException`/`InvalidDataException` on a truncated body or one over the reader's limits (line 35). In `ProductsFunctions.Create` and `Update` these escape as server errors with no write; the model's `sections` are always a well-formed list, so it has no such case. Also, `boundary` is a parameter of `Parse`, `ProductsApi.Create` and `ProductsApi.Update`, not derived from the Content-Type header the handler tested (the source derives it at lines 26-27); only its absence or emptiness after quote removal is modelled.
- Configured table and queue names are not modelled. The handlers read them from configuration with defaults, for example `TABLE_PRODUCT` in CustomersFunction.cs:19 and "order_notifications" in OrdersFunctions.cs:28-29. Each handler's table is given directly.
- The entity classes of the Functions project are not part of this model; their fields follow `Map.cs` and `ApiModels.cs`.
- StorageService.GetAllEntities: states that every entity is returned once, not the service's query order, which a map does not have.
- OrdersApi.List: states a sorted permutation, not that the sort is stable among equal dates.
- ProductController.Extension: follows `Path.GetExtension` with '/' and '\\' as separators; volume separators and invalid path characters are not modelled.
- ProductController.Search: a product whose id is null is not modelled; every product has a string id.
- Checkout's order requests are recorded as a sequence with an optional index of the request that throws; what the API does with each request is not modelled.
- The web client sends the image under the form field "imageFile" with the user's file name. The Functions look for a file whose file name is "ImageFile". The model follows the Functions as written (see ProductsApi.ImageOnlyFromFileNamedImageFile).

## Findings

| source | as written | input that shows it | evidently intended | confidence | as-written member | corrected member |
|---|---|---|---|---|---|---|
| ABCRetailersFunctions/Functions/ProductsFunctions.cs:79 | `ct.ToString()` on the collection of header values yields the collection's type name, so the multipart test at line 87 is never true and every upload is read as JSON | a POST with "Content-Type: multipart/form-data; boundary=x" | take the first header value, as Update does at line 151 (`FirstOrDefault()`) | not executed | ProductsApi.CreateAsWrittenNeverMultipart | ProductsApi.MultipartRequestSeen |
