/** The two notification queues and the messages the order actions put on them. */
module Notifications {
  import opened Int32

  const OrderQueue: string := "order-notifications"
  const StockQueue: string := "stock-updates"

  /** The payloads serialised to JSON before sending (the serialisation itself is not modelled). */
  datatype Message =
    | OrderPlaced(orderId: string, customerId: string, customerName: string, productName: string,
                  quantity: int32, totalPrice: real, orderDate: int, status: string)
    | StockUpdated(productId: string, productName: string, previousStock: int32, newStock: int32,
                   updateBy: string, updateDate: int)
    | OrderStatusChanged(orderId: string, customerId: string, customerName: string, productName: string,
                         previousStatus: string, newStatus: string, updatedDate: int, updatedBy: string)
}
