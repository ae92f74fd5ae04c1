/** `ABCRetails.Models.Order` and the `OrderStatus` enumeration. */
module OrderModel {
  import opened Int32

  /** The enumeration exactly as declared, including the spelling of its second member. */
  datatype OrderStatus = Submitted | Procossing | Completed | Cancelled

  /** `status.ToString()`: the member's identifier. */
  function StatusName(s: OrderStatus): string {
    match s
    case Submitted => "Submitted"
    case Procossing => "Procossing"
    case Completed => "Completed"
    case Cancelled => "Cancelled"
  }

  /** The status strings the status-update action accepts. */
  const AcceptedStatuses: seq<string> := ["Submitted", "Processing", "Completed", "Cancelled"]

  /** Only three of the four enumeration members have a name that the status-update action accepts:
      `Procossing` is spelled differently from the accepted "Processing". */
  lemma EnumNamesAgainstAccepted(s: OrderStatus)
    ensures StatusName(s) in AcceptedStatuses <==> s != Procossing
    ensures "Processing" != StatusName(s)
  {
  }

  /** An order. Prices are exact reals; dates are instants on a common scale. */
  datatype Order = Order(
    id: string,
    customerId: string,
    username: string,
    productId: string,
    productName: string,
    orderDate: int,
    quantity: int32,
    unitPrice: real,
    totalPrice: real,
    status: string)

  /** `new Order()` on a day whose start is `today`: every string empty, status "Submitted",
      the date today, numbers zero. */
  function NewOrder(today: int): Order {
    Order("", "", "", "", "", today, 0, 0.0, 0.0, "Submitted")
  }

  /** The `[Range(1, int.MaxValue)]` annotation on `Quantity`. */
  predicate QuantityInRange(q: int32) {
    1 <= q as int <= MaxInt32
  }

  /** For a 32-bit quantity the upper bound never bites: the range means "at least one". */
  lemma QuantityRangeMeansPositive(q: int32)
    ensures QuantityInRange(q) <==> q > 0
  {
  }

  /** A fresh order carries the defaults the record declares. */
  lemma NewOrderDefaults(today: int)
    ensures NewOrder(today).id == "" && NewOrder(today).status == "Submitted"
    ensures NewOrder(today).orderDate == today
    ensures !QuantityInRange(NewOrder(today).quantity)
  {
  }
}
