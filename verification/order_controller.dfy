/**
 The order handlers (backend/controllers/orderController.js): assembling an
 order from the requested line items against the current catalogue, and
 listing the caller's orders. Both run behind `protect`.
 */
module OrderController {
  import opened Js
  import opened Options
  import opened Seqs
  import opened Http
  import opened ProductModel
  import opened OrderModel

  const NoItems := "No items"

  /** One requested line: `{ productId, qty }` as the client sent it. */
  datatype LineRequest = LineRequest(productId: Value, qty: Value)

  /** The body's `items`: an array of lines, or anything else. */
  datatype ItemsInput = NotAnArray | Items(lines: seq<LineRequest>)

  /** `Product.findById(line.productId)` */
  function Resolve(products: seq<Product>, line: LineRequest): Lookup<Product> {
    FindByValue(products, ProductId, line.productId)
  }

  predicate Resolves(products: seq<Product>, line: LineRequest) {
    Resolve(products, line).Found?
  }

  /** The snapshot taken of a resolved line: the product's id, current name
      and price, and the quantity or 1 when it is falsy. */
  function Snap(p: Product, line: LineRequest): OrderItem {
    OrderItem(p.id, p.name, p.price, Or(line.qty, Num(1.0)))
  }

  /** `items` are the snapshots of `hits`, one for one and in order. */
  predicate SnapshotsOf(products: seq<Product>, hits: seq<LineRequest>, items: seq<OrderItem>) {
    |items| == |hits| && forall k :: 0 <= k < |hits| ==>
      Resolves(products, hits[k]) && items[k] == Snap(Resolve(products, hits[k]).value, hits[k])
  }

  /** The loop over the lines: a malformed id throws and ends the request;
      a line whose product is not found is skipped. The snapshots are those
      of the resolving lines, in their order. */
  function Assemble(products: seq<Product>, lines: seq<LineRequest>): (r: Option<seq<OrderItem>>)
    ensures r.None? <==> exists k :: 0 <= k < |lines| && Resolve(products, lines[k]).Malformed?
    ensures r.Some? ==>
      var hits := Filter(lines, (l: LineRequest) => Resolves(products, l));
      && |r.value| == |hits|
      && forall k :: 0 <= k < |hits| ==> r.value[k] == Snap(Resolve(products, hits[k]).value, hits[k])
  {
    if |lines| == 0 then Some([])
    else
      var rest := Assemble(products, lines[1..]);
      assert forall k :: 1 <= k < |lines| ==> lines[k] == lines[1..][k - 1];
      match Resolve(products, lines[0])
      case Malformed => None
      case Absent => rest
      case Found(_, p) =>
        if rest.None? then None
        else
          SnapshotsCons(products, lines[0], Filter(lines[1..], (l: LineRequest) => Resolves(products, l)), rest.value);
          Some([Snap(p, lines[0])] + rest.value)
  }

  /** A resolving line in front adds its snapshot in front. */
  lemma SnapshotsCons(products: seq<Product>, line: LineRequest, hits: seq<LineRequest>, items: seq<OrderItem>)
    requires Resolves(products, line) && SnapshotsOf(products, hits, items)
    ensures SnapshotsOf(products, [line] + hits, [Snap(Resolve(products, line).value, line)] + items)
  {
  }

  /** Assembling a concatenation is assembling each part and concatenating. */
  lemma {:induction false} AssembleConcat(products: seq<Product>, a: seq<LineRequest>, b: seq<LineRequest>)
    ensures Assemble(products, a + b) ==
      if Assemble(products, a).Some? && Assemble(products, b).Some?
      then Some(Assemble(products, a).value + Assemble(products, b).value)
      else None
  {
    if |a| == 0 {
      assert a + b == b;
      assert Assemble(products, a) == Some([]);
      if Assemble(products, b).Some? {
        assert [] + Assemble(products, b).value == Assemble(products, b).value;
      }
    } else {
      assert (a + b)[1..] == a[1..] + b;
      assert (a + b)[0] == a[0];
      AssembleConcat(products, a[1..], b);
      match Resolve(products, a[0])
      case Malformed =>
      case Absent =>
      case Found(_, p) =>
        match (Assemble(products, a[1..]), Assemble(products, b))
        case (Some(x), Some(y)) => assert [Snap(p, a[0])] + (x + y) == ([Snap(p, a[0])] + x) + y;
        case _ =>
    }
  }

  /** `createOrder`. An order is stored whenever the items are a non-empty
      array without malformed ids, even if no product was found; the total is
      the client's, not recomputed; the status is Paid. */
  function CreateOrder(orders: seq<Order>, products: seq<Product>, callerId: string, items: ItemsInput, total: Value,
                       newId: string, now: int): (h: Handled<Order, seq<Order>>)
    ensures !h.reply.Success() ==> h.store == orders
    ensures items.NotAnArray? || items == Items([]) ==> h.reply == Fail(BadRequest, NoItems)
    ensures h.reply.Fail? && h.reply.failure != BadRequest ==>
              h.reply.failure == ServerError && (h.reply.message == CastError || h.reply.message == ValidationError)
    ensures h.reply.Success() ==>
      && items.Items? && |items.lines| > 0
      && Assemble(products, items.lines).Some?
      && h.reply == Created(Order(newId, callerId, Assemble(products, items.lines).value, total, Paid, now))
      && h.store == orders + [h.reply.value]
    ensures items.Items? && |items.lines| > 0 && Assemble(products, items.lines).None? ==>
              h.reply == Fail(ServerError, CastError)
    ensures items.Items? && |items.lines| > 0 && Assemble(products, items.lines).Some? && (total == Undefined || total == Null) ==>
              h.reply == Fail(ServerError, ValidationError)
    ensures items.Items? && |items.lines| > 0 && Assemble(products, items.lines).Some? && total != Undefined && total != Null ==>
              var o := Order(newId, callerId, Assemble(products, items.lines).value, total, Paid, now);
              h == Handled(Created(o), orders + [o])
  {
    if items.NotAnArray? || |items.lines| == 0 then Handled(Fail(BadRequest, NoItems), orders)
    else match Assemble(products, items.lines)
      case None => Handled(Fail(ServerError, CastError), orders)
      case Some(detailed) =>
        if total == Undefined || total == Null then Handled(Fail(ServerError, ValidationError), orders)
        else
          var order := Order(newId, callerId, detailed, total, DefaultStatus, now);
          Handled(Created(order), orders + [order])
  }

  /** Every snapshot names a catalogue product and carries its current name
      and price. */
  lemma SnapshotsFromCatalogue(products: seq<Product>, lines: seq<LineRequest>, k: nat)
    requires Assemble(products, lines).Some? && k < |Assemble(products, lines).value|
    ensures var item := Assemble(products, lines).value[k];
      exists p | p in products :: item.productId == p.id && item.name == p.name && item.price == p.price
  {
    var hits := Filter(lines, (l: LineRequest) => Resolves(products, l));
    SnapOfFound(products, hits[k]);
    var p := Resolve(products, hits[k]).value;
    assert Assemble(products, lines).value[k] == Snap(p, hits[k]);
  }

  /** A resolved line's snapshot copies a product of the catalogue. */
  lemma SnapOfFound(products: seq<Product>, line: LineRequest)
    requires Resolves(products, line)
    ensures var p := Resolve(products, line).value;
      p in products && Snap(p, line).productId == p.id && Snap(p, line).name == p.name && Snap(p, line).price == p.price
  {
  }

  /** With a catalogue of stored ids, every snapshot carries a stored id. */
  lemma SnapshotIdsStored(products: seq<Product>, lines: seq<LineRequest>)
    requires Assemble(products, lines).Some?
    requires forall i :: 0 <= i < |products| ==> IsId(products[i].id)
    ensures forall k :: 0 <= k < |Assemble(products, lines).value| ==> IsId(Assemble(products, lines).value[k].productId)
  {
    forall k | 0 <= k < |Assemble(products, lines).value| {
      SnapshotsFromCatalogue(products, lines, k);
    }
  }

  /** What a created order holds: one snapshot per resolving line and no
      more than there were lines, none at all when no line resolves; the
      caller owns it; and the schema's requirements hold when the caller and
      the catalogue have stored ids. */
  lemma CreatedOrderContents(orders: seq<Order>, products: seq<Product>, callerId: string, items: ItemsInput, total: Value,
                             newId: string, now: int)
    requires CreateOrder(orders, products, callerId, items, total, newId, now).reply.Success()
    ensures var o := CreateOrder(orders, products, callerId, items, total, newId, now).reply.value;
      && o.userId == callerId && o.status == Paid && o.total == total
      && |o.items| == Count(items.lines, (l: LineRequest) => Resolves(products, l))
      && |o.items| <= |items.lines|
      && ((forall k :: 0 <= k < |items.lines| ==> !Resolves(products, items.lines[k])) ==> o.items == [])
      && (IsId(callerId) && (forall i :: 0 <= i < |products| ==> IsId(products[i].id)) ==> ValidOrder(o))
  {
    if forall i :: 0 <= i < |products| ==> IsId(products[i].id) {
      SnapshotIdsStored(products, items.lines);
    }
    FilterExtremes(items.lines, (l: LineRequest) => Resolves(products, l));
  }

  /** Two requests differing only in the total store orders differing only
      in the total: it is never derived from the items. */
  lemma TotalNotRecomputed(orders: seq<Order>, products: seq<Product>, callerId: string, items: ItemsInput,
                           t1: Value, t2: Value, newId: string, now: int)
    requires CreateOrder(orders, products, callerId, items, t1, newId, now).reply.Success()
    requires t2 != Undefined && t2 != Null
    ensures var o1 := CreateOrder(orders, products, callerId, items, t1, newId, now).reply.value;
      CreateOrder(orders, products, callerId, items, t2, newId, now).reply == Created(o1.(total := t2))
  {
  }

  /** `getMyOrders`: exactly the caller's orders, newest first. */
  function GetMyOrders(orders: seq<Order>, callerId: string): (r: seq<Order>)
    ensures forall o | o in r :: o in orders && o.userId == callerId
    ensures forall o | o in orders :: o in r <==> o.userId == callerId
    ensures |r| == Count(orders, (o: Order) => o.userId == callerId)
    ensures multiset(r) == multiset(Filter(orders, (o: Order) => o.userId == callerId))
    ensures SortedDesc(r, OrderCreatedAt)
  {
    var mine := Filter(orders, (o: Order) => o.userId == callerId);
    var sorted := SortDesc(mine, OrderCreatedAt);
    assert forall o :: o in sorted <==> o in multiset(sorted);
    assert forall o :: o in mine <==> o in multiset(mine);
    sorted
  }
}
