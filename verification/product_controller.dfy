/**
 The catalogue handlers (backend/controllers/ProductController.js): the
 public listing and lookup, and the admin-only create, update and delete.
 Query-string values are strings, an absent one being "".
 */
module ProductController {
  import opened Js
  import opened Options
  import opened Seqs
  import opened Http
  import opened ProductModel

  const NotFoundMessage := "Not found"

  /** The filter `listProducts` builds: the category when one is given, a
      case-insensitive name match (the query read literally) when `q` is. */
  predicate MatchesListing(p: Product, category: string, q: string) {
    && (category != "" ==> p.category == category)
    && (q != "" ==> ContainsIgnoringCase(p.name, q))
  }

  /** `listProducts`: every product passing both filters, newest first. */
  function ListProducts(products: seq<Product>, category: string, q: string): (r: seq<Product>)
    ensures forall p | p in r :: p in products && MatchesListing(p, category, q)
    ensures forall p | p in products :: p in r <==> MatchesListing(p, category, q)
    ensures |r| == Count(products, (p: Product) => MatchesListing(p, category, q))
    ensures multiset(r) == multiset(Filter(products, (p: Product) => MatchesListing(p, category, q)))
    ensures SortedDesc(r, ProductCreatedAt)
  {
    var hits := Filter(products, (p: Product) => MatchesListing(p, category, q));
    var sorted := SortDesc(hits, ProductCreatedAt);
    assert forall p :: p in sorted <==> p in multiset(sorted);
    assert forall p :: p in hits <==> p in multiset(hits);
    sorted
  }

  /** Without filters the listing is the whole catalogue, reordered newest first. */
  lemma ListWithoutFilters(products: seq<Product>)
    ensures multiset(ListProducts(products, "", "")) == multiset(products)
    ensures SortedDesc(ListProducts(products, "", ""), ProductCreatedAt)
  {
    FilterExtremes(products, (p: Product) => MatchesListing(p, "", ""));
  }

  /** Both filters together select exactly what each selects alone. */
  lemma ListFiltersCombine(products: seq<Product>, category: string, q: string)
    requires category != "" && q != ""
    ensures forall p | p in products ::
      p in ListProducts(products, category, q) <==>
        p in ListProducts(products, category, "") && p in ListProducts(products, "", q)
  {
  }

  /** `getProduct`: a malformed id is the only 404; a well-formed id that
      names nothing answers success with `null`. */
  function GetProduct(products: seq<Product>, rawId: string): (r: Reply<Option<Product>>)
    ensures r.Fail? <==> CastId(rawId).None?
    ensures r.Fail? ==> r == Fail(NotFound, NotFoundMessage)
    ensures r.Ok? ==> (r.value.Some? <==> exists i :: 0 <= i < |products| && products[i].id == CastId(rawId).value)
    ensures r.Ok? && r.value.Some? ==> r.value.value in products && r.value.value.id == CastId(rawId).value
    ensures !r.Created?
  {
    match FindById(products, ProductId, rawId)
    case Malformed => Fail(NotFound, NotFoundMessage)
    case Absent => Ok(None)
    case Found(_, p) => Ok(Some(p))
  }

  /** `createProduct`: the body goes to the schema as is; a rejected
      document is a 400. */
  function CreateProduct(products: seq<Product>, input: ProductInput, newId: string, now: int)
    : (h: Handled<Product, seq<Product>>)
    ensures NewProduct(input, newId, now).None? <==> h == Handled(Fail(BadRequest, ValidationError), products)
    ensures NewProduct(input, newId, now).Some? ==>
              h == Handled(Created(NewProduct(input, newId, now).value), products + [NewProduct(input, newId, now).value])
    ensures h.reply.Success() ==> h.reply.Created? && ValidProduct(h.reply.value) && h.store == products + [h.reply.value]
  {
    match NewProduct(input, newId, now)
    case Some(p) => Handled(Created(p), products + [p])
    case None => Handled(Fail(BadRequest, ValidationError), products)
  }

  /** The fields an update body supplies. */
  datatype ProductPatch = ProductPatch(
    name: Option<string>,
    category: Option<string>,
    price: Option<real>,
    description: Option<string>,
    imageUrl: Option<string>,
    inStock: Option<bool>,
    stockQty: Option<real>)

  /** `$set` of the supplied fields, without the schema's validators. */
  function Patch(p: Product, patch: ProductPatch): (r: Product)
    ensures r.id == p.id && r.createdAt == p.createdAt
    ensures r.name == patch.name.GetOr(p.name) && r.category == patch.category.GetOr(p.category)
    ensures r.price == patch.price.GetOr(p.price) && r.inStock == patch.inStock.GetOr(p.inStock)
    ensures r.stockQty == patch.stockQty.GetOr(p.stockQty)
    ensures r.description == (if patch.description.Some? then patch.description else p.description)
    ensures r.imageUrl == (if patch.imageUrl.Some? then patch.imageUrl else p.imageUrl)
  {
    p.(name := patch.name.GetOr(p.name),
       category := patch.category.GetOr(p.category),
       price := patch.price.GetOr(p.price),
       description := if patch.description.Some? then patch.description else p.description,
       imageUrl := if patch.imageUrl.Some? then patch.imageUrl else p.imageUrl,
       inStock := patch.inStock.GetOr(p.inStock),
       stockQty := patch.stockQty.GetOr(p.stockQty))
  }

  /** An empty patch changes nothing. */
  lemma PatchNothing(p: Product)
    ensures Patch(p, ProductPatch(None, None, None, None, None, None, None)) == p
  {
  }

  /** `updateProduct`: a malformed id is a 400; an unknown one answers
      success with `null` and changes nothing; otherwise the supplied fields
      are overwritten and the updated product returned. */
  function UpdateProduct(products: seq<Product>, rawId: string, patch: ProductPatch)
    : (h: Handled<Option<Product>, seq<Product>>)
    ensures CastId(rawId).None? <==> h == Handled(Fail(BadRequest, CastError), products)
    ensures FindById(products, ProductId, rawId).Absent? ==> h == Handled(Ok(None), products)
    ensures FindById(products, ProductId, rawId).Found? ==>
      var i := FindById(products, ProductId, rawId).index;
      h == Handled(Ok(Some(Patch(products[i], patch))), ReplaceAt(products, i, Patch(products[i], patch)))
  {
    match FindById(products, ProductId, rawId)
    case Malformed => Handled(Fail(BadRequest, CastError), products)
    case Absent => Handled(Ok(None), products)
    case Found(i, p) =>
      var q := Patch(p, patch);
      Handled(Ok(Some(q)), ReplaceAt(products, i, q))
  }

  /** Updates skip validation: a negative price or an unknown category is
      stored as given, so a valid product can become invalid. */
  lemma UpdateSkipsValidation(products: seq<Product>, rawId: string, price: real, category: string)
    requires FindById(products, ProductId, rawId).Found?
    requires price < 0.0 || category !in Categories
    ensures var h := UpdateProduct(products, rawId, ProductPatch(None, Some(category), Some(price), None, None, None, None));
      && h.reply.Ok? && h.reply.value.Some?
      && !ValidProduct(h.reply.value.value)
      && h.store[FindById(products, ProductId, rawId).index] == h.reply.value.value
  {
  }

  /** `deleteProduct`: success for any well-formed id, whether or not it
      named a product; the named product, if any, is gone afterwards. */
  function DeleteProduct(products: seq<Product>, rawId: string): (h: Handled<(), seq<Product>>)
    ensures CastId(rawId).None? <==> h == Handled(Fail(BadRequest, CastError), products)
    ensures CastId(rawId).Some? ==> h.reply == Ok(())
    ensures FindById(products, ProductId, rawId).Absent? ==> h.store == products
    ensures FindById(products, ProductId, rawId).Found? ==> h.store == RemoveAt(products, FindById(products, ProductId, rawId).index)
  {
    match FindById(products, ProductId, rawId)
    case Malformed => Handled(Fail(BadRequest, CastError), products)
    case Absent => Handled(Ok(()), products)
    case Found(i, _) => Handled(Ok(()), RemoveAt(products, i))
  }

  /** With unique ids, after a delete no product carries the id, and a lookup
      of it answers success with `null`. */
  lemma DeleteThenGet(products: seq<Product>, rawId: string)
    requires UniqueKeys(products, ProductId)
    requires CastId(rawId).Some?
    ensures GetProduct(DeleteProduct(products, rawId).store, rawId) == Ok(None)
  {
    var r := FindById(products, ProductId, rawId);
    if r.Found? {
      var s := RemoveAt(products, r.index);
      forall j | 0 <= j < |s|
        ensures s[j].id != CastId(rawId).value
      {
        var k := if j < r.index then j else j + 1;
        assert s[j] == products[k];
        assert ProductId(products[k]) != ProductId(products[r.index]);
      }
    }
  }
}
