/**
 The checkout page (frontend/src/pages/Checkout.jsx): it shows the stored
 cart and its total, and `handlePay` turns the cart into an order request,
 then clears the cart and moves on to the orders page whatever the answer.
 */
module Checkout {
  import opened Js
  import opened Options
  import opened Seqs
  import opened Http
  import opened UserModel
  import opened ProductModel
  import opened OrderModel
  import opened OrderController
  import opened Cart

  /** The shipping form, sent along as typed. */
  datatype Shipping = Shipping(fullName: string, phone: string, address: string, city: string, postalCode: string)

  /** `method === 'saved' && savedMethods[selectedCardIdx]`: `false` for
      another method, the chosen saved card, or `undefined` (dropped from the
      JSON body) when the index is out of range. */
  datatype CardField = NoCard | Omitted | SavedCard(card: Card)

  datatype OrderRequest = OrderRequest(items: seq<LineRequest>, total: Value, shipping: Shipping,
                                       paymentMethod: string, paymentCard: CardField)

  /** What pressing "Place Order" does: nothing, or send a request, remove
      the stored cart and go to `navigateTo`. */
  datatype PayEffect = Nothing | Placed(request: OrderRequest, storedCart: Option<seq<CartItem>>, navigateTo: string)

  const OrdersPage := "/orders"

  /** The cart lines and the total the page holds. */
  datatype Summary = Summary(items: seq<CartItem>, total: real)

  /** The page on load: the stored cart and the same total the cart page shows. */
  function Load(raw: Option<seq<CartItem>>): (r: Summary)
    ensures r.items == Cart.Load(raw).items && r.total == Cart.Load(raw).total
  {
    Summary(Saved(raw), Total(Saved(raw)))
  }

  /** `items.map(({ _id, qty }) => ({ productId: _id, qty }))` */
  function Lines(items: seq<CartItem>): (r: seq<LineRequest>)
    ensures |r| == |items|
    ensures forall k :: 0 <= k < |items| ==> r[k] == LineRequest(Str(ItemId(items[k])), Num(items[k].qty as real))
  {
    seq(|items|, k requires 0 <= k < |items| => LineRequest(Str(ItemId(items[k])), Num(items[k].qty as real)))
  }

  function PaymentCard(payMethod: string, saved: seq<Card>, idx: int): (r: CardField)
    ensures payMethod != "saved" ==> r == NoCard
    ensures payMethod == "saved" && 0 <= idx < |saved| ==> r == SavedCard(saved[idx])
    ensures payMethod == "saved" && !(0 <= idx < |saved|) ==> r == Omitted
  {
    if payMethod != "saved" then NoCard
    else if 0 <= idx < |saved| then SavedCard(saved[idx])
    else Omitted
  }

  /** `handlePay`. The request's outcome is not an input: a failure is
      swallowed and the cart is cleared and the page left either way. */
  function HandlePay(items: seq<CartItem>, total: real, shipping: Shipping, payMethod: string,
                     saved: seq<Card>, selected: int): (e: PayEffect)
    ensures items == [] <==> e == Nothing
    ensures e.Placed? ==>
      && e.storedCart.None? && e.navigateTo == OrdersPage
      && |e.request.items| == |items|
      && (forall k :: 0 <= k < |items| ==>
            e.request.items[k].productId == Str(ItemId(items[k])) && e.request.items[k].qty == Num(items[k].qty as real))
      && e.request.total == Num(total)
      && e.request.shipping == shipping && e.request.paymentMethod == payMethod
      && (e.request.paymentCard.SavedCard? ==> payMethod == "saved")
      && e.request.paymentCard == PaymentCard(payMethod, saved, selected)
  {
    if |items| == 0 then Nothing
    else Placed(OrderRequest(Lines(items), Num(total), shipping, payMethod, PaymentCard(payMethod, saved, selected)), None, OrdersPage)
  }

  /** When every product in the cart is still in the catalogue, the order the
      server stores from the checkout request has one line per cart line, in
      cart order, with the cart's quantities and the catalogue's current names
      and prices, and the total the page showed. `items` is the cart as loaded. */
  lemma CheckoutPlacesOrder(orders: seq<Order>, products: seq<Product>, callerId: string, items: seq<CartItem>,
                            shipping: Shipping, payMethod: string, saved: seq<Card>, selected: int, newId: string, now: int)
    requires items != [] && QtyAtLeastOne(items)
    requires forall k :: 0 <= k < |items| ==> IsId(ItemId(items[k])) && FindById(products, ProductId, ItemId(items[k])).Found?
    ensures var e := HandlePay(items, Total(items), shipping, payMethod, saved, selected);
      && e.Placed?
      && var h := CreateOrder(orders, products, callerId, Items(e.request.items), e.request.total, newId, now);
      && h.reply.Created?
      && h.reply.value.total == Num(Total(items))
      && |h.reply.value.items| == |items|
      && forall k :: 0 <= k < |items| ==>
           var p := FindById(products, ProductId, ItemId(items[k])).value;
           h.reply.value.items[k] == OrderItem(ItemId(items[k]), p.name, p.price, Num(items[k].qty as real))
  {
    CheckoutAssembles(products, items);
    CreateOrderStores(orders, products, callerId, Lines(items), Num(Total(items)), newId, now);
  }

  /** A non-empty list of lines without malformed ids and a present total
      always make an order. */
  lemma CreateOrderStores(orders: seq<Order>, products: seq<Product>, callerId: string, lines: seq<LineRequest>,
                          total: Value, newId: string, now: int)
    requires |lines| > 0 && Assemble(products, lines).Some? && total != Undefined && total != Null
    ensures CreateOrder(orders, products, callerId, Items(lines), total, newId, now).reply
         == Created(Order(newId, callerId, Assemble(products, lines).value, total, Paid, now))
  {
  }

  /** Assembling the request lines of a cart whose products are all in the
      catalogue takes one snapshot per line, in order. */
  lemma CheckoutAssembles(products: seq<Product>, items: seq<CartItem>)
    requires QtyAtLeastOne(items)
    requires forall k :: 0 <= k < |items| ==> IsId(ItemId(items[k])) && FindById(products, ProductId, ItemId(items[k])).Found?
    ensures Assemble(products, Lines(items)).Some?
    ensures |Assemble(products, Lines(items)).value| == |items|
    ensures forall k :: 0 <= k < |items| ==>
      var p := FindById(products, ProductId, ItemId(items[k])).value;
      Assemble(products, Lines(items)).value[k] == OrderItem(ItemId(items[k]), p.name, p.price, Num(items[k].qty as real))
  {
    var lines := Lines(items);
    LinesResolve(products, items);
    FilterExtremes(lines, (l: LineRequest) => Resolves(products, l));
    var r := Assemble(products, lines);
    forall k | 0 <= k < |items|
      ensures r.value[k] == Snap(Resolve(products, lines[k]).value, lines[k])
    {
    }
    forall k | 0 <= k < |items|
      ensures Snap(Resolve(products, lines[k]).value, lines[k])
           == OrderItem(ItemId(items[k]), FindById(products, ProductId, ItemId(items[k])).value.name,
                        FindById(products, ProductId, ItemId(items[k])).value.price, Num(items[k].qty as real))
    {
      LineSnapshot(products, items[k]);
    }
  }

  /** The snapshot of one cart line whose product is in the catalogue. */
  lemma LineSnapshot(products: seq<Product>, item: CartItem)
    requires item.qty >= 1 && IsId(ItemId(item)) && FindById(products, ProductId, ItemId(item)).Found?
    ensures var p := FindById(products, ProductId, ItemId(item)).value;
      Snap(p, LineRequest(Str(ItemId(item)), Num(item.qty as real))) == OrderItem(ItemId(item), p.name, p.price, Num(item.qty as real))
  {
    CastStoredId(ItemId(item));
  }

  lemma LinesResolve(products: seq<Product>, items: seq<CartItem>)
    requires forall k :: 0 <= k < |items| ==> FindById(products, ProductId, ItemId(items[k])).Found?
    ensures forall k :: 0 <= k < |items| ==>
      Resolve(products, Lines(items)[k]) == FindById(products, ProductId, ItemId(items[k])) && Resolves(products, Lines(items)[k])
  {
  }
}
