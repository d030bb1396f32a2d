/** The rows of the shop's tables, and the tables themselves.
    Money is a whole number of cents: every price column is DECIMAL(10,2). */
module Entities {
  import opened Wrappers

  // A signed-in customer or an anonymous one, never both.
  datatype Identity = User(userId: int) | Guest(token: string)

  datatype Painting = Painting(price: int, amount: int, isAvailable: bool, isRepeatable: bool)

  datatype CartRow = CartRow(owner: Identity, paintingId: int, quantity: int)

  // A line of an order; a cart row is read into the same shape.
  datatype Item = Item(paintingId: int, quantity: int, price: int)

  datatype Status = Pending | Confirmed | Shipped | Cancelled | Completed

  // `owner` is None once the account behind an order has been deleted.
  datatype Order = Order(
    owner: Option<Identity>,
    items: seq<Item>,
    status: Status,
    isCommission: bool,
    isArchived: bool,
    trackingNumber: Option<string>,
    deliveryCost: int,
    codFee: int,
    total: int)

  // The tables. Ids are handed out in increasing order and never reused.
  datatype Shop = Shop(
    paintings: map<int, Painting>,
    nextPainting: int,
    cart: map<nat, CartRow>,
    nextCart: nat,
    orders: map<nat, Order>,
    nextOrder: nat)

  // Why a request was turned away.
  datatype Rejection =
    | MissingContact | UnconfirmedAddress | EmptyCart | Unpriced | OutOfStock
    | NotFound | AlreadyCancelled | AlreadyCompleted | AlreadyShipped | NoWaybill
    | NotCancelled | NotCompleted | NotForSale | NotEnoughCopies
    | NotRepeatable | OfferTooLow | StillReferenced | OwnAccount | UnknownUser

  // What the services share. A transaction works on a copy of `shop` and
  // assigns it back when it commits.
  class Database {
    var shop: Shop

    constructor (shop: Shop)
      ensures this.shop == shop
    {
      this.shop := shop;
    }
  }
}
