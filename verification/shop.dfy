/**
 The shop page (frontend/src/pages/Shop.jsx): the picture shown for a
 product, and adding a product to the stored cart.
 */
module Shop {
  import opened Js
  import opened Options
  import opened Seqs
  import opened Http
  import opened ProductModel
  import opened Cart

  /** The stock pictures the page can fall back on. */
  datatype Picture = FoodPicture | ToyPicture | MedicinePicture | AccessoryPicture | CatPicture | WandPicture | ShampooPicture

  /** The address of each stock picture. */
  function PictureUrl(p: Picture): string {
    match p
    case FoodPicture => "https://images.unsplash.com/photo-1596495578065-8b87d4e8e2d4?q=80&w=1200&auto=format&fit=crop"
    case ToyPicture => "https://images.unsplash.com/photo-1583511655857-d19b40a7a54e?q=80&w=1200&auto=format&fit=crop"
    case MedicinePicture => "https://images.unsplash.com/photo-1582719478250-c89cae4dc85b?q=80&w=1200&auto=format&fit=crop"
    case AccessoryPicture => "https://images.unsplash.com/photo-1546443046-ed1ce6ffd1ab?q=80&w=1200&auto=format&fit=crop"
    case CatPicture => "https://images.unsplash.com/photo-1576201836106-db1758fd1c97?q=80&w=1200&auto=format&fit=crop"
    case WandPicture => "https://images.unsplash.com/photo-1574158622682-e40e69881006?q=80&w=1200&auto=format&fit=crop"
    case ShampooPicture => "https://images.unsplash.com/photo-1615485737651-3a5a7cba1cc3?q=80&w=1200&auto=format&fit=crop"
  }

  /** The picture chosen for a product: its own address, a stock picture, or
      the default `/petbg.jpg`. */
  datatype Image = OwnImage(url: string) | StockImage(picture: Picture) | DefaultImage

  /** The `src` the page renders. */
  function Src(i: Image): string {
    match i
    case OwnImage(url) => url
    case StockImage(p) => PictureUrl(p)
    case DefaultImage => "/petbg.jpg"
  }

  /** `categoryImages[p.category]`: one picture per category, nothing otherwise. */
  function CategoryImage(category: string): (r: Option<Picture>)
    ensures r.Some? <==> category in Categories
  {
    if category == "Food" then Some(FoodPicture)
    else if category == "Toy" then Some(ToyPicture)
    else if category == "Medicine" then Some(MedicinePicture)
    else if category == "Accessory" then Some(AccessoryPicture)
    else None
  }

  /** An entry of `keywordImages`: the picture used when the name contains any of the words. */
  datatype KeywordImage = KeywordImage(keywords: seq<string>, picture: Picture)

  const KeywordImages: seq<KeywordImage> := [
    KeywordImage(["dog food", "dog kibble", "dog"], FoodPicture),
    KeywordImage(["cat food", "kitten", "cat"], CatPicture),
    KeywordImage(["ball", "toy"], ToyPicture),
    KeywordImage(["feather", "wand"], WandPicture),
    KeywordImage(["flea", "tick", "medicine"], MedicinePicture),
    KeywordImage(["probiotic", "digest"], MedicinePicture),
    KeywordImage(["shampoo", "wash"], ShampooPicture),
    KeywordImage(["brush", "groom"], AccessoryPicture)
  ]

  /** `m.k.some(kw => name.includes(kw))` */
  predicate Hits(name: string, m: KeywordImage) {
    exists kw | kw in m.keywords :: Contains(name, kw)
  }

  /** The loop over the table: the picture of the first entry the name hits. */
  function FirstKeywordImage(name: string, table: seq<KeywordImage>): (r: Option<Picture>)
    ensures r.None? <==> forall k :: 0 <= k < |table| ==> !Hits(name, table[k])
    ensures r.Some? ==> exists k :: 0 <= k < |table| && Hits(name, table[k]) && r.value == table[k].picture
                                    && forall j :: 0 <= j < k ==> !Hits(name, table[j])
  {
    match FirstIndex(table, (m: KeywordImage) => Hits(name, m))
    case Some(k) => Some(table[k].picture)
    case None => None
  }

  /** `getProductImage`: the product's own picture when it has a non-empty
      one; else the first keyword picture for its lower-cased name; else its
      category's picture; else the default. */
  function GetProductImage(p: Product): (r: Image)
    ensures p.imageUrl.Some? && p.imageUrl.value != "" <==> r.OwnImage?
    ensures r.OwnImage? ==> r.url == p.imageUrl.value
    ensures r.StockImage? ==>
      FirstKeywordImage(Lower(p.name), KeywordImages) == Some(r.picture)
      || (FirstKeywordImage(Lower(p.name), KeywordImages).None? && CategoryImage(p.category) == Some(r.picture))
    ensures r == DefaultImage <==>
      && (p.imageUrl.None? || p.imageUrl.value == "")
      && FirstKeywordImage(Lower(p.name), KeywordImages).None?
      && CategoryImage(p.category).None?
  {
    if p.imageUrl.Some? && p.imageUrl.value != "" then OwnImage(p.imageUrl.value)
    else match FirstKeywordImage(Lower(p.name), KeywordImages)
      case Some(pic) => StockImage(pic)
      case None => match CategoryImage(p.category)
        case Some(pic) => StockImage(pic)
        case None => DefaultImage
  }

  /** A keyword in the name beats the category: the first keyword picture is
      the one shown. */
  lemma KeywordBeatsCategory(p: Product, k: nat)
    requires p.imageUrl.None? || p.imageUrl.value == ""
    requires k < |KeywordImages| && Hits(Lower(p.name), KeywordImages[k])
    ensures GetProductImage(p).StockImage?
    ensures exists j :: 0 <= j <= k && GetProductImage(p).picture == KeywordImages[j].picture
  {
    var hit := FirstKeywordImage(Lower(p.name), KeywordImages);
    var j :| 0 <= j < |KeywordImages| && Hits(Lower(p.name), KeywordImages[j]) && hit.value == KeywordImages[j].picture
             && forall i :: 0 <= i < j ==> !Hits(Lower(p.name), KeywordImages[i]);
  }

  /** An illustration of table order on one input (the general law is
      `FirstKeywordImage`'s contract): a product called "cat toy" gets the
      picture of the cat entry, not the one of the later "toy" entry nor its
      category's. */
  lemma EarlierEntryWins(p: Product)
    requires p.imageUrl.None? && p.name == "cat toy"
    ensures GetProductImage(p) == StockImage(CatPicture)
  {
    CatToy(p.name);
    var hit := FirstKeywordImage(p.name, KeywordImages);
    var k :| 0 <= k < |KeywordImages| && Hits(p.name, KeywordImages[k]) && hit.value == KeywordImages[k].picture
             && forall j :: 0 <= j < k ==> !Hits(p.name, KeywordImages[j]);
    assert k == 1;
  }

  /** "cat toy" is its own lower-casing, hits the cat entry and misses the dog entry. */
  lemma CatToy(name: string)
    requires name == "cat toy"
    ensures Lower(name) == name
    ensures Hits(name, KeywordImages[1]) && !Hits(name, KeywordImages[0])
  {
    LowerFixed(name);
    assert "cat" <= name[0..];
    assert "cat" in KeywordImages[1].keywords && Contains(name, "cat");
    NoDogWord(name);
  }

  /** A name without a `g` contains none of the dog words. */
  lemma NoDogWord(name: string)
    requires forall k :: 0 <= k < |name| ==> name[k] != 'g'
    ensures !Hits(name, KeywordImages[0])
  {
    forall kw, i | kw in KeywordImages[0].keywords && 0 <= i <= |name|
      ensures !(kw <= name[i..])
    {
      assert |kw| > 2 && kw[2] == 'g';
    }
  }

  /** `addToCart`: the first line with the product's id gains a unit; when
      there is none, the product is appended with one unit. The result is
      what is written back to storage. */
  function AddToCart(raw: Option<seq<CartItem>>, product: Product): (r: seq<CartItem>)
    ensures var cart := Saved(raw);
      match FirstIndex(cart, (i: CartItem) => ItemId(i) == product.id)
      case Some(k) => |r| == |cart| && r[k] == cart[k].(qty := cart[k].qty + 1)
                      && forall j :: 0 <= j < |cart| && j != k ==> r[j] == cart[j]
      case None => r == cart + [CartItem(product, 1)]
  {
    var cart := Saved(raw);
    match FirstIndex(cart, (i: CartItem) => ItemId(i) == product.id)
    case Some(k) => cart[k := cart[k].(qty := cart[k].qty + 1)]
    case None => cart + [CartItem(product, 1)]
  }

  /** Adding keeps one line per product and every line at one unit or more. */
  lemma AddToCartKeepsCartValid(raw: Option<seq<CartItem>>, product: Product)
    requires UniqueKeys(Saved(raw), ItemId) && QtyAtLeastOne(Saved(raw))
    ensures UniqueKeys(AddToCart(raw, product), ItemId)
    ensures QtyAtLeastOne(AddToCart(raw, product))
  {
    var cart := Saved(raw);
    var r := AddToCart(raw, product);
    if FirstIndex(cart, (i: CartItem) => ItemId(i) == product.id).Some? {
      assert forall j :: 0 <= j < |r| ==> ItemId(r[j]) == ItemId(cart[j]);
    } else {
      assert forall j :: 0 <= j < |cart| ==> ItemId(r[j]) == ItemId(cart[j]) && ItemId(cart[j]) != product.id;
    }
  }

  /** On a cart with one line per product, adding a product already there is
      the cart page's `+` for it, and adds its price to the total. */
  lemma AddExistingIsInc(raw: Option<seq<CartItem>>, product: Product, i: nat)
    requires UniqueKeys(Saved(raw), ItemId) && QtyAtLeastOne(Saved(raw))
    requires i < |Saved(raw)| && ItemId(Saved(raw)[i]) == product.id
    ensures AddToCart(raw, product) == Inc(Saved(raw), product.id).items
    ensures Total(AddToCart(raw, product)) == Total(Saved(raw)) + Saved(raw)[i].product.price
  {
    AddExistingAt(raw, product, i);
    IncIsReplace(Saved(raw), i);
    IncTotal(Saved(raw), i);
  }

  lemma AddExistingAt(raw: Option<seq<CartItem>>, product: Product, i: nat)
    requires UniqueKeys(Saved(raw), ItemId)
    requires i < |Saved(raw)| && ItemId(Saved(raw)[i]) == product.id
    ensures AddToCart(raw, product) == ReplaceAt(Saved(raw), i, Saved(raw)[i].(qty := Saved(raw)[i].qty + 1))
  {
    var cart := Saved(raw);
    assert forall j :: 0 <= j < |cart| && j != i ==> ItemId(cart[j]) != product.id;
  }

  /** Adding a product not yet there appends one unit of it at its listed price. */
  lemma AddNewTotal(raw: Option<seq<CartItem>>, product: Product)
    requires forall j :: 0 <= j < |Saved(raw)| ==> ItemId(Saved(raw)[j]) != product.id
    ensures AddToCart(raw, product) == Saved(raw) + [CartItem(product, 1)]
    ensures Total(AddToCart(raw, product)) == Total(Saved(raw)) + product.price
  {
    TotalConcat(Saved(raw), [CartItem(product, 1)]);
    TotalSingle(CartItem(product, 1));
  }
}
