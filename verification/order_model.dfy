/**
 The Order schema (backend/models/Order.js): the ordering user, the line
 items with their name and price snapshots, the total, and a status from a
 fixed list defaulting to Paid.
 */
module OrderModel {
  import opened Js
  import opened Options
  import opened Http

  datatype OrderStatus = Pending | Paid | Cancelled

  /** The enum as the schema spells it. */
  function StatusName(s: OrderStatus): string {
    match s
    case Pending => "Pending"
    case Paid => "Paid"
    case Cancelled => "Cancelled"
  }

  /** The schema's enum check: the status a string names, if any. */
  function StatusFromName(name: string): (r: Option<OrderStatus>)
    ensures r.Some? ==> StatusName(r.value) == name
    ensures r.None? ==> name != "Pending" && name != "Paid" && name != "Cancelled"
  {
    if name == "Pending" then Some(Pending)
    else if name == "Paid" then Some(Paid)
    else if name == "Cancelled" then Some(Cancelled)
    else None
  }

  /** Every status survives the round trip through its name. */
  lemma StatusNameRoundTrip(s: OrderStatus)
    ensures StatusFromName(StatusName(s)) == Some(s)
  {
  }

  const DefaultStatus := Paid

  /** A line item: the product's id, and its name and price when ordered.
      The quantity is kept as given (the Number cast is not modelled). */
  datatype OrderItem = OrderItem(productId: string, name: string, price: real, qty: Value)

  datatype Order = Order(
    id: string,
    userId: string,
    items: seq<OrderItem>,
    total: Value,
    status: OrderStatus,
    createdAt: int)

  function OrderCreatedAt(o: Order): int { o.createdAt }

  /** The schema's required fields: an ObjectId for the user and for every
      item's product, and a total. */
  predicate ValidOrder(o: Order) {
    && IsId(o.userId)
    && (forall i :: 0 <= i < |o.items| ==> IsId(o.items[i].productId))
    && o.total != Undefined && o.total != Null
  }
}
