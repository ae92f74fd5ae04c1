/** `OrderController`: placing an order against the storage account, changing an order's
    status, and saving the order edit form. */
module OrderWorkflow {
  import opened Wrappers
  import opened Int32
  import opened Tables
  import opened Notifications
  import opened StorageService
  import Text
  import Records
  import OrderModel

  // ---------------------------------------------------------------------------
  // Create (POST)

  /** The fields of the order form the action reads. */
  datatype OrderForm = OrderForm(customerId: string, productId: string, quantity: int32, orderDate: int)

  /** What the storage account reports at each of the action's calls, in call order. */
  datatype CreateFaults = CreateFaults(
    readCustomer: Option<Failure>, readProduct: Option<Failure>, addOrder: Option<Failure>,
    updateStock: Option<Failure>, sendOrder: Option<Failure>, sendStock: Option<Failure>)

  datatype CreateStep = ReadCustomer | ReadProduct | AddOrder | UpdateStock | SendOrderMessage | SendStockMessage

  datatype CreateOutcome =
    | FormRedisplayed                        // model state invalid
    | InvalidSelection                       // customer or product not found
    | InsufficientStock(available: int32)    // stock below the quantity
    | CreateFailed(step: CreateStep, reason: string)  // a storage call threw; `reason` is its message
    | OrderCreated

  /** The text the action shows for each outcome (as a model error or as the success notice). */
  function CreateMessage(o: CreateOutcome): string {
    match o
    case FormRedisplayed => ""
    case InvalidSelection => "Invalid customer or product selected."
    case InsufficientStock(n) => "Insufficient stock. Availble: " + Text.FormatInt32(n)
    case CreateFailed(_, m) => "Error creating order: " + m
    case OrderCreated => "Order created successfully!"
  }

  function CustomerLookup(customers: Table<Records.Customer>, form: OrderForm, faults: CreateFaults): Result<Option<Entity<Records.Customer>>, Failure> {
    GetEntityAsync(customers, "Customer", form.customerId, faults.readCustomer)
  }

  function ProductLookup(products: Table<Records.Product>, form: OrderForm, faults: CreateFaults): Result<Option<Entity<Records.Product>>, Failure> {
    GetEntityAsync(products, "Product", form.productId, faults.readProduct)
  }

  /** Both records were found and the product has at least the ordered quantity in stock. */
  predicate Placeable(customers: Table<Records.Customer>, products: Table<Records.Product>, form: OrderForm, faults: CreateFaults) {
    var c := CustomerLookup(customers, form, faults);
    var p := ProductLookup(products, form, faults);
    c.Success? && c.value.Some? && p.Success? && p.value.Some?
    && p.value.value.value.stockAvailable >= form.quantity
  }

  /** The order the action builds: price copied from the product at this moment, status "Submitted". */
  function PlacedOrder(form: OrderForm, c: Records.Customer, p: Records.Product): OrderModel.Order {
    OrderModel.Order("", form.customerId, c.username, form.productId, p.productName, form.orderDate,
                     form.quantity, p.price, p.price * form.quantity as real, "Submitted")
  }

  /** The order notification; the order's id is the row key it is stored under. */
  function OrderMessage(orderKey: Key, o: OrderModel.Order, c: Records.Customer): Message {
    OrderPlaced(orderKey.rowKey, o.customerId, c.name + " " + c.surname, o.productName,
                o.quantity, o.totalPrice, o.orderDate, o.status)
  }

  /** The stock notification, built from the product after its stock was lowered:
      the previous level is recomputed as the new level plus the quantity. */
  function StockMessage(productKey: Key, lowered: Records.Product, quantity: int32, now: int): Message {
    StockUpdated(productKey.rowKey, lowered.productName, Add(lowered.stockAvailable, quantity),
                 lowered.stockAvailable, "Order System", now)
  }

  function Lowered(p: Entity<Records.Product>, quantity: int32): Entity<Records.Product> {
    p.(value := p.value.(stockAvailable := Sub(p.value.stockAvailable, quantity)))
  }

  /** The stock message reports the stock as it was before the order and as it is after it, even
      though it recomputes the first from the second; when no 32-bit overflow happens their
      difference is the ordered quantity. */
  lemma StockMessageLevels(key: Key, p: Records.Product, quantity: int32, now: int)
    ensures var m := StockMessage(key, p.(stockAvailable := Sub(p.stockAvailable, quantity)), quantity, now);
      m.previousStock == p.stockAvailable && m.newStock == Sub(p.stockAvailable, quantity)
      && (MinInt32 <= p.stockAvailable as int - quantity as int <= MaxInt32 ==>
            m.previousStock as int - m.newStock as int == quantity as int)
  {
    SubThenAdd(p.stockAvailable, quantity);
  }

  /** After the stock check, a non-negative quantity lowers the stock by exactly that amount and
      leaves it non-negative. */
  lemma CheckedStockStaysNonNegative(stock: int32, quantity: int32)
    requires 0 <= quantity <= stock
    ensures Sub(stock, quantity) as int == stock as int - quantity as int
    ensures 0 <= Sub(stock, quantity) <= stock
  {
  }

  /** Outcomes that are reached before anything is written. */
  predicate WritesNothing(o: CreateOutcome) {
    o.FormRedisplayed? || o.InvalidSelection? || o.InsufficientStock?
    || (o.CreateFailed? && o.step in {ReadCustomer, ReadProduct, AddOrder})
  }

  /** The writes of a placement, from the tables and queues before it (`orders0`, `products0`,
      `queues0`) to those after it: the order is stored (new ETag 1), then the product's stock is
      lowered, then the order message and then the stock message are sent. A call that fails ends
      the placement with that step's error, and what the earlier calls wrote stays written. */
  ghost predicate Placed(
    orders0: Table<OrderModel.Order>, products0: Table<Records.Product>, queues0: map<string, seq<Message>>,
    orders: Table<OrderModel.Order>, products: Table<Records.Product>, queues: map<string, seq<Message>>,
    outcome: CreateOutcome, form: OrderForm, customer: Records.Customer, product: Entity<Records.Product>,
    orderKey: Key, now: int, faults: CreateFaults)
  {
    var order := PlacedOrder(form, customer, product.value);
    var stored := orders0[orderKey := Entity(orderKey.partitionKey, orderKey.rowKey, 1, order)];
    var lowered := Lowered(product, form.quantity);
    var restocked := products0[KeyOf(product) := lowered.(etag := product.etag + 1)];
    var withOrderMessage :=
      if OrderQueue in queues0 then queues0[OrderQueue := queues0[OrderQueue] + [OrderMessage(orderKey, order, customer)]]
      else queues0;
    var addFails := faults.addOrder.Some? || orderKey in orders0;
    var orderSendFails := faults.sendOrder.Some? || OrderQueue !in queues0;
    var stockSendFails := faults.sendStock.Some? || StockQueue !in queues0;
    (addFails ==>
       outcome.CreateFailed? && outcome.step == AddOrder
       && orders == orders0 && products == products0 && queues == queues0)
    && (!addFails && faults.updateStock.Some? ==>
          outcome.CreateFailed? && outcome.step == UpdateStock
          && orders == stored && products == products0 && queues == queues0)
    && (!addFails && faults.updateStock.None? && orderSendFails ==>
          outcome.CreateFailed? && outcome.step == SendOrderMessage
          && orders == stored && products == restocked && queues == queues0)
    && (!addFails && faults.updateStock.None? && !orderSendFails && stockSendFails ==>
          outcome.CreateFailed? && outcome.step == SendStockMessage
          && orders == stored && products == restocked && queues == withOrderMessage)
    && (!addFails && faults.updateStock.None? && !orderSendFails && !stockSendFails ==>
          outcome == OrderCreated
          && orders == stored && products == restocked
          && queues == withOrderMessage[StockQueue := queues0[StockQueue]
               + [StockMessage(KeyOf(product), lowered.value, form.quantity, now)]])
  }

  /** The writing half of Create: store the order, lower the stock, send the two messages. */
  method Place(acct: Account, form: OrderForm, customer: Records.Customer, product: Entity<Records.Product>,
               orderKey: Key, now: int, faults: CreateFaults)
    returns (outcome: CreateOutcome)
    requires acct.Valid()
    requires KeyOf(product) in acct.products && acct.products[KeyOf(product)] == product
    modifies acct
    ensures acct.Valid() && acct.customers == old(acct.customers)
    ensures outcome.CreateFailed? || outcome == OrderCreated
    ensures Placed(old(acct.orders), old(acct.products), old(acct.queues), acct.orders, acct.products, acct.queues,
                   outcome, form, customer, product, orderKey, now, faults)
  {
    var order := PlacedOrder(form, customer, product.value);
    var added := AddEntityAsync(acct.orders, Entity(orderKey.partitionKey, orderKey.rowKey, 0, order), faults.addOrder);
    if added.Failure? {
      return CreateFailed(AddOrder, ErrorText(added.error));
    }
    acct.orders := added.value;
    var lowered := Lowered(product, form.quantity);
    var updated := UpdateEntityAsync(acct.products, lowered, faults.updateStock);
    if updated.Failure? {
      return CreateFailed(UpdateStock, ErrorText(updated.error));
    }
    acct.products := updated.value;
    var sent := acct.SendMessage(OrderQueue, OrderMessage(orderKey, order, customer), faults.sendOrder);
    if sent.Failure? {
      return CreateFailed(SendOrderMessage, sent.error.message);
    }
    sent := acct.SendMessage(StockQueue, StockMessage(KeyOf(product), lowered.value, form.quantity, now), faults.sendStock);
    if sent.Failure? {
      return CreateFailed(SendStockMessage, sent.error.message);
    }
    return OrderCreated;
  }

  /** `Create(OrderCreateViewModel)` (POST). `orderKey` is the key the new order entity carries,
      `now` the clock's reading for the stock message. The steps run in order: look up the
      customer, then the product; check stock; store the order; lower the stock; send the order
      message; send the stock message. A call that throws ends the action, and what the earlier
      steps wrote stays written. */
  method Create(acct: Account, form: OrderForm, modelValid: bool, orderKey: Key, now: int, faults: CreateFaults)
    returns (outcome: CreateOutcome)
    requires acct.Valid()
    modifies acct
    ensures acct.Valid() && acct.customers == old(acct.customers)
    ensures outcome.FormRedisplayed? <==> !modelValid
    ensures WritesNothing(outcome) ==>
      acct.orders == old(acct.orders) && acct.products == old(acct.products) && acct.queues == old(acct.queues)
    ensures modelValid ==>
      var c := CustomerLookup(old(acct.customers), form, faults);
      var p := ProductLookup(old(acct.products), form, faults);
      (c.Failure? ==> outcome == CreateFailed(ReadCustomer, c.error.message))
      && (c.Success? && p.Failure? ==> outcome == CreateFailed(ReadProduct, p.error.message))
      && (c.Success? && p.Success? && (c.value.None? || p.value.None?) ==> outcome == InvalidSelection)
      && ((c.Success? && p.Success? && c.value.Some? && p.value.Some?
           && p.value.value.value.stockAvailable < form.quantity)
          ==> outcome == InsufficientStock(p.value.value.value.stockAvailable))
    ensures modelValid && Placeable(old(acct.customers), old(acct.products), form, faults) ==>
      Placed(old(acct.orders), old(acct.products), old(acct.queues), acct.orders, acct.products, acct.queues,
             outcome, form, CustomerLookup(old(acct.customers), form, faults).value.value.value,
             ProductLookup(old(acct.products), form, faults).value.value, orderKey, now, faults)
  {
    if !modelValid {
      return FormRedisplayed;
    }
    var c := CustomerLookup(acct.customers, form, faults);
    if c.Failure? {
      return CreateFailed(ReadCustomer, c.error.message);
    }
    var p := ProductLookup(acct.products, form, faults);
    if p.Failure? {
      return CreateFailed(ReadProduct, p.error.message);
    }
    if c.value.None? || p.value.None? {
      return InvalidSelection;
    }
    var customer := c.value.value.value;
    var product := p.value.value;
    if product.value.stockAvailable < form.quantity {
      return InsufficientStock(product.value.stockAvailable);
    }
    outcome := Place(acct, form, customer, product, orderKey, now, faults);
  }

  // ---------------------------------------------------------------------------
  // UpdateOrderStatus

  /** `UpdateOrderStatusModel`; an absent JSON property is None. */
  datatype StatusRequest = StatusRequest(id: Option<string>, newStatus: Option<string>)

  /** The JSON the action answers with. */
  datatype Reply = Reply(success: bool, message: string)

  predicate InvalidInput(request: Option<StatusRequest>) {
    request.None? || Text.IsNullOrEmpty(request.value.id) || Text.IsNullOrEmpty(request.value.newStatus)
  }

  /** The status-change notification; the order's id is its row key, its customer name the username. */
  function StatusMessage(id: string, o: OrderModel.Order, newStatus: string, now: int): Message {
    OrderStatusChanged(id, o.customerId, o.username, o.productName, o.status, newStatus, now, "System")
  }

  /** `UpdateOrderStatus(model)`. Any accepted status replaces any current one: there are no
      transition rules. The order is written before the notification is sent, so a failed send
      leaves the new status stored without a message. */
  method UpdateOrderStatus(acct: Account, request: Option<StatusRequest>, now: int,
                           readFault: Option<Failure>, updateFault: Option<Failure>, sendFault: Option<Failure>)
    returns (reply: Reply)
    requires acct.Valid()
    modifies acct
    ensures acct.Valid() && acct.customers == old(acct.customers) && acct.products == old(acct.products)
    ensures InvalidInput(request) ==>
      reply == Reply(false, "Invalid input.") && acct.orders == old(acct.orders) && acct.queues == old(acct.queues)
    ensures !InvalidInput(request) && request.value.newStatus.value !in OrderModel.AcceptedStatuses ==>
      reply == Reply(false, "Invalid status value.") && acct.orders == old(acct.orders) && acct.queues == old(acct.queues)
    ensures !InvalidInput(request) && request.value.newStatus.value in OrderModel.AcceptedStatuses ==>
      var id := request.value.id.value;
      var status := request.value.newStatus.value;
      var k := Key("Order", id);
      var read := GetEntityAsync(old(acct.orders), "Order", id, readFault);
      (read.Failure? ==>
         reply == Reply(false, read.error.message) && acct.orders == old(acct.orders) && acct.queues == old(acct.queues))
      && (read == Success(None) ==>
         reply == Reply(false, "Order not found.") && acct.orders == old(acct.orders) && acct.queues == old(acct.queues))
      && (read.Success? && read.value.Some? ==>
            var o := old(acct.orders)[k];
            var written := old(acct.orders)[k := o.(value := o.value.(status := status), etag := o.etag + 1)];
            (updateFault.Some? ==> !reply.success && acct.orders == old(acct.orders) && acct.queues == old(acct.queues))
            && (updateFault.None? ==> acct.orders == written)
            && (updateFault.None? && (sendFault.Some? || OrderQueue !in old(acct.queues)) ==>
                  !reply.success && acct.queues == old(acct.queues))
            && (updateFault.None? && sendFault.None? && OrderQueue in old(acct.queues) ==>
                  reply == Reply(true, "Order status updated to " + status)
                  && acct.queues == old(acct.queues)[OrderQueue := old(acct.queues)[OrderQueue]
                       + [StatusMessage(id, o.value, status, now)]]))
  {
    if InvalidInput(request) {
      return Reply(false, "Invalid input.");
    }
    var id := request.value.id.value;
    var status := request.value.newStatus.value;
    if status !in OrderModel.AcceptedStatuses {
      return Reply(false, "Invalid status value.");
    }
    var read := GetEntityAsync(acct.orders, "Order", id, readFault);
    if read.Failure? {
      return Reply(false, read.error.message);
    }
    if read.value.None? {
      return Reply(false, "Order not found.");
    }
    var order := read.value.value;
    var previous := order.value;
    var updated := UpdateEntityAsync(acct.orders, order.(value := order.value.(status := status)), updateFault);
    if updated.Failure? {
      return Reply(false, ErrorText(updated.error));
    }
    acct.orders := updated.value;
    var sent := acct.SendMessage(OrderQueue, StatusMessage(id, previous, status, now), sendFault);
    if sent.Failure? {
      return Reply(false, sent.error.message);
    }
    return Reply(true, "Order status updated to " + status);
  }

  // ---------------------------------------------------------------------------
  // Edit (POST)

  /** The posted order form: its table keys and the two fields the action copies. */
  datatype OrderEdit = OrderEdit(partitionKey: Option<string>, rowKey: Option<string>, orderDate: int, status: string)

  datatype EditOutcome =
    | EditRedisplayed(error: Option<string>)   // the form again, with this model error
    | EditNotFound
    | EditSaved                                // "Order updated successfully!"

  /** `Edit(Order)` (POST): re-reads the stored order by its row key under partition "Order",
      copies only the order date and the status onto it and writes it back under the ETag just read. */
  method Edit(acct: Account, posted: OrderEdit, modelValid: bool, readFault: Option<Failure>, updateFault: Option<Failure>)
    returns (outcome: EditOutcome)
    requires acct.Valid()
    modifies acct
    ensures acct.Valid() && acct.customers == old(acct.customers) && acct.products == old(acct.products)
    ensures acct.queues == old(acct.queues)
    ensures !outcome.EditSaved? ==> acct.orders == old(acct.orders)
    ensures !modelValid ==> outcome == EditRedisplayed(None)
    ensures modelValid && (Text.IsNullOrEmpty(posted.partitionKey) || Text.IsNullOrEmpty(posted.rowKey)) ==>
      outcome == EditRedisplayed(Some("Missing Order keys. Please reload and try again."))
    ensures modelValid && !Text.IsNullOrEmpty(posted.partitionKey) && !Text.IsNullOrEmpty(posted.rowKey) ==>
      var k := Key("Order", posted.rowKey.value);
      var read := GetEntityAsync(old(acct.orders), "Order", posted.rowKey.value, readFault);
      (read.Failure? ==> outcome == EditRedisplayed(Some("Error updating order: " + read.error.message)))
      && (read == Success(None) ==> outcome == EditNotFound)
      && (read.Success? && read.value.Some? && updateFault.Some? ==>
            outcome == EditRedisplayed(Some(
              if updateFault.value.status == StatusPreconditionFailed then ModifiedMessage
              else "Error updating order: " + updateFault.value.message)))
      && (read.Success? && read.value.Some? && updateFault.None? ==>
            var o := old(acct.orders)[k];
            outcome == EditSaved
            && acct.orders == old(acct.orders)[k := o.(value := o.value.(orderDate := posted.orderDate, status := posted.status),
                                                       etag := o.etag + 1)])
  {
    if !modelValid {
      return EditRedisplayed(None);
    }
    if Text.IsNullOrEmpty(posted.partitionKey) || Text.IsNullOrEmpty(posted.rowKey) {
      return EditRedisplayed(Some("Missing Order keys. Please reload and try again."));
    }
    var read := GetEntityAsync(acct.orders, "Order", posted.rowKey.value, readFault);
    if read.Failure? {
      return EditRedisplayed(Some("Error updating order: " + read.error.message));
    }
    if read.value.None? {
      return EditNotFound;
    }
    var original := read.value.value;
    var edited := original.(value := original.value.(orderDate := posted.orderDate, status := posted.status));
    var updated := UpdateEntityAsync(acct.orders, edited, updateFault);
    if updated.Failure? {
      if updated.error.Modified? {
        return EditRedisplayed(Some(updated.error.message));
      }
      return EditRedisplayed(Some("Error updating order: " + ErrorText(updated.error)));
    }
    acct.orders := updated.value;
    return EditSaved;
  }
}
