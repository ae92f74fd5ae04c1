/** Record shapes of the web application's `Product` and `Customer` models. */
module Records {
  import opened Int32

  /** `ABCRetails.Models.Product` (the `Orders` navigation collection is left out). */
  datatype Product = Product(
    id: string,
    productName: string,
    description: string,
    price: real,
    stockAvailable: int32,
    imageUrl: string)

  /** `ABCRetails.Models.Customer` (navigation collections left out). */
  datatype Customer = Customer(
    id: string,
    userId: string,
    name: string,
    surname: string,
    username: string,
    email: string,
    shippingAddress: string)
}
