/**
 The shopping cart page (frontend/src/pages/Cart.jsx). The cart lives in
 the browser's storage under `cart` as a list of products, each with a
 quantity; the page shows it, its total, and lets the user raise, lower or
 remove a line. Storage is a value passed in and handed back.
 */
module Cart {
  import opened Options
  import opened Seqs
  import opened Http
  import opened ProductModel

  /** A cart line: the product as the shop listed it, spread, with `qty`. */
  datatype CartItem = CartItem(product: Product, qty: int)

  function ItemId(i: CartItem): string { i.product.id }

  /** `localStorage.getItem('cart') || '[]'`, parsed: no stored cart is an empty one. */
  function Saved(raw: Option<seq<CartItem>>): seq<CartItem> {
    raw.GetOr([])
  }

  /** `(i.qty || 1)`: a zero quantity counts as one. */
  function CountedQty(q: int): (r: int)
    ensures r != 0
    ensures q != 0 ==> r == q
  {
    if q == 0 then 1 else q
  }

  /** `(i.price || 0) * (i.qty || 1)`. The listed price is a number, and
      `|| 0` maps 0 to 0, so it changes nothing. */
  function LineTotal(i: CartItem): (r: real)
    ensures i.qty != 0 ==> r == i.product.price * i.qty as real
    ensures i.qty == 0 ==> r == i.product.price
  {
    i.product.price * CountedQty(i.qty) as real
  }

  /** The `reduce` over the lines, from the left. */
  function Total(items: seq<CartItem>): (r: real)
    ensures |items| == 1 ==> r == LineTotal(items[0])
    ensures (forall k :: 0 <= k < |items| ==> items[k].product.price >= 0.0 && items[k].qty >= 0) ==> r >= 0.0
  {
    if |items| == 0 then 0.0 else Total(items[..|items| - 1]) + LineTotal(items[|items| - 1])
  }

  /** The total of two carts side by side is the sum of their totals. */
  lemma {:induction false} TotalConcat(a: seq<CartItem>, b: seq<CartItem>)
    ensures Total(a + b) == Total(a) + Total(b)
  {
    if |b| == 0 {
      assert a + b == a;
    } else {
      var c := b[..|b| - 1];
      assert (a + b)[..|a + b| - 1] == a + c;
      assert (a + b)[|a + b| - 1] == b[|b| - 1];
      TotalConcat(a, c);
    }
  }

  lemma TotalSingle(x: CartItem)
    ensures Total([x]) == LineTotal(x)
  {
    assert [x][..0] == [];
  }

  /** Changing one line changes the total by that line's difference. */
  lemma TotalReplace(s: seq<CartItem>, i: nat, x: CartItem)
    requires i < |s|
    ensures Total(ReplaceAt(s, i, x)) == Total(s) - LineTotal(s[i]) + LineTotal(x)
  {
    SplitAt(s, i);
    TotalConcat(s[..i] + [s[i]], s[i + 1..]);
    TotalConcat(s[..i], [s[i]]);
    TotalConcat(s[..i] + [x], s[i + 1..]);
    TotalConcat(s[..i], [x]);
    TotalSingle(s[i]);
    TotalSingle(x);
  }

  /** Dropping one line takes its amount off the total. */
  lemma TotalRemoveAt(s: seq<CartItem>, i: nat)
    requires i < |s|
    ensures Total(RemoveAt(s, i)) == Total(s) - LineTotal(s[i])
  {
    SplitAt(s, i);
    TotalConcat(s[..i] + [s[i]], s[i + 1..]);
    TotalConcat(s[..i], [s[i]]);
    TotalConcat(s[..i], s[i + 1..]);
    TotalSingle(s[i]);
  }

  /** What the page holds after loading or after a change: the lines shown,
      the lines written back to storage, and the total shown. */
  datatype CartView = CartView(items: seq<CartItem>, stored: seq<CartItem>, total: real)

  /** The view after a change to `next`: shown, stored, and totalled. */
  function Show(next: seq<CartItem>): CartView {
    CartView(next, next, Total(next))
  }

  /** The page on load: the stored cart and its total; nothing is written. */
  function Load(raw: Option<seq<CartItem>>): (v: CartView)
    ensures v.items == Saved(raw) && v.total == Total(v.items)
    ensures raw.None? ==> v.items == [] && v.total == 0.0
  {
    CartView(Saved(raw), Saved(raw), Total(Saved(raw)))
  }

  /** Every line has at least one unit; the shop and the buttons keep it so. */
  predicate QtyAtLeastOne(items: seq<CartItem>) {
    forall k :: 0 <= k < |items| ==> items[k].qty >= 1
  }

  /** `inc`: every line with the id gains one unit; storage and total follow. */
  function Inc(items: seq<CartItem>, id: string): (v: CartView)
    ensures v.stored == v.items && v.total == Total(v.items)
    ensures |v.items| == |items|
    ensures forall k :: 0 <= k < |items| ==> v.items[k].product == items[k].product
    ensures forall k :: 0 <= k < |items| ==>
              v.items[k].qty == if ItemId(items[k]) == id then items[k].qty + 1 else items[k].qty
  {
    Show(seq(|items|, k requires 0 <= k < |items| =>
      if ItemId(items[k]) == id then items[k].(qty := items[k].qty + 1) else items[k]))
  }

  /** `dec`: every line with the id loses one unit, but never drops below one. */
  function Dec(items: seq<CartItem>, id: string): (v: CartView)
    ensures v.stored == v.items && v.total == Total(v.items)
    ensures |v.items| == |items|
    ensures forall k :: 0 <= k < |items| ==> v.items[k].product == items[k].product
    ensures forall k :: 0 <= k < |items| ==>
              v.items[k].qty == if ItemId(items[k]) == id then Max(1, items[k].qty - 1) else items[k].qty
  {
    Show(seq(|items|, k requires 0 <= k < |items| =>
      if ItemId(items[k]) == id then items[k].(qty := Max(1, items[k].qty - 1)) else items[k]))
  }

  function Max(a: int, b: int): int { if a < b then b else a }

  /** `removeItem`: the lines without the id, in their order. */
  function Remove(items: seq<CartItem>, id: string): (v: CartView)
    ensures v.stored == v.items && v.total == Total(v.items)
    ensures forall x | x in v.items :: x in items && ItemId(x) != id
    ensures forall x | x in items :: x in v.items <==> ItemId(x) != id
  {
    Show(Filter(items, (i: CartItem) => ItemId(i) != id))
  }

  /** `dec` undoes `inc` on a cart whose lines all have a unit. */
  lemma IncThenDec(items: seq<CartItem>, id: string)
    requires QtyAtLeastOne(items)
    ensures Dec(Inc(items, id).items, id).items == items
  {
  }

  /** Raising and lowering keep every line at one unit or more. */
  lemma ButtonsKeepQtyAtLeastOne(items: seq<CartItem>, id: string)
    requires QtyAtLeastOne(items)
    ensures QtyAtLeastOne(Inc(items, id).items)
    ensures QtyAtLeastOne(Dec(items, id).items)
  {
  }

  /** ... and so does removing. */
  lemma RemoveKeepsQtyAtLeastOne(items: seq<CartItem>, id: string)
    requires QtyAtLeastOne(items)
    ensures QtyAtLeastOne(Remove(items, id).items)
  {
    var r := Remove(items, id).items;
    forall k | 0 <= k < |r|
      ensures r[k].qty >= 1
    {
      assert r[k] in items;
    }
  }

  /** In a cart with one line per product, `inc` adds that product's price to
      the total. */
  lemma IncTotal(items: seq<CartItem>, i: nat)
    requires i < |items| && UniqueKeys(items, ItemId) && QtyAtLeastOne(items)
    ensures Inc(items, ItemId(items[i])).total == Total(items) + items[i].product.price
  {
    var x := items[i].(qty := items[i].qty + 1);
    IncIsReplace(items, i);
    TotalReplace(items, i, x);
    OneMoreUnit(items[i], x);
  }

  /** ... and `dec` takes it off, unless the line is already at one unit. */
  lemma DecTotal(items: seq<CartItem>, i: nat)
    requires i < |items| && UniqueKeys(items, ItemId) && QtyAtLeastOne(items)
    ensures Dec(items, ItemId(items[i])).total ==
              if items[i].qty == 1 then Total(items) else Total(items) - items[i].product.price
  {
    var x := items[i].(qty := Max(1, items[i].qty - 1));
    DecIsReplace(items, i);
    TotalReplace(items, i, x);
    OneUnitLess(items[i], x);
    assert Dec(items, ItemId(items[i])).total == Total(ReplaceAt(items, i, x));
  }

  /** One more unit costs one more price. */
  lemma OneMoreUnit(x: CartItem, y: CartItem)
    requires x.qty >= 1 && y == x.(qty := x.qty + 1)
    ensures LineTotal(y) == LineTotal(x) + x.product.price
  {
    var p, q := x.product.price, x.qty;
    assert LineTotal(x) == p * (q as real);
    assert LineTotal(y) == p * ((q + 1) as real);
    Distribute(p, q);
  }

  /** Lowering a line costs one price, unless it is at one unit and stays. */
  lemma OneUnitLess(x: CartItem, y: CartItem)
    requires x.qty >= 1 && y == x.(qty := Max(1, x.qty - 1))
    ensures LineTotal(y) == if x.qty == 1 then LineTotal(x) else LineTotal(x) - x.product.price
  {
    if x.qty > 1 {
      OneMoreUnit(y, x);
    }
  }

  lemma Distribute(p: real, q: int)
    ensures p * ((q + 1) as real) == p * (q as real) + p
  {
  }

  lemma IncIsReplace(items: seq<CartItem>, i: nat)
    requires i < |items| && UniqueKeys(items, ItemId)
    ensures Inc(items, ItemId(items[i])).items == ReplaceAt(items, i, items[i].(qty := items[i].qty + 1))
  {
    var r := ReplaceAt(items, i, items[i].(qty := items[i].qty + 1));
    var v := Inc(items, ItemId(items[i])).items;
    forall k | 0 <= k < |items|
      ensures v[k] == r[k]
    {
      assert k != i ==> ItemId(items[k]) != ItemId(items[i]);
    }
  }

  lemma DecIsReplace(items: seq<CartItem>, i: nat)
    requires i < |items| && UniqueKeys(items, ItemId)
    ensures Dec(items, ItemId(items[i])).items == ReplaceAt(items, i, items[i].(qty := Max(1, items[i].qty - 1)))
  {
    var r := ReplaceAt(items, i, items[i].(qty := Max(1, items[i].qty - 1)));
    var v := Dec(items, ItemId(items[i])).items;
    forall k | 0 <= k < |items|
      ensures v[k] == r[k]
    {
      assert k != i ==> ItemId(items[k]) != ItemId(items[i]);
    }
  }

  /** In a cart with one line per product, `removeItem` drops exactly that
      line and its amount. */
  lemma RemoveTotal(items: seq<CartItem>, i: nat)
    requires i < |items| && UniqueKeys(items, ItemId)
    ensures Remove(items, ItemId(items[i])).items == RemoveAt(items, i)
    ensures Remove(items, ItemId(items[i])).total == Total(items) - LineTotal(items[i])
  {
    FilterOutKey(items, ItemId, (x: CartItem) => ItemId(x) != ItemId(items[i]), i);
    TotalRemoveAt(items, i);
  }
}
