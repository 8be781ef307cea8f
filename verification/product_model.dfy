/**
 The Product schema (backend/models/Product.js): a required name, a required
 category from a fixed list, a required non-negative price, optional
 description and image, stock flags with defaults, creation timestamps.
 Values arrive already cast to the schema's types.
 */
module ProductModel {
  import opened Options

  datatype Product = Product(
    id: string,
    name: string,
    category: string,
    price: real,
    description: Option<string>,
    imageUrl: Option<string>,
    inStock: bool,
    stockQty: real,
    createdAt: int)

  function ProductId(p: Product): string { p.id }
  function ProductCreatedAt(p: Product): int { p.createdAt }

  const Categories: seq<string> := ["Food", "Toy", "Accessory", "Medicine"]

  /** The schema's validators: `required` (a string must be non-empty), the
      category enum and `min: 0` on the price. */
  predicate ValidProduct(p: Product) {
    |p.name| > 0 && p.category in Categories && p.price >= 0.0
  }

  /** A document as given to `Product.create`: any field may be missing. */
  datatype ProductInput = ProductInput(
    name: Option<string>,
    category: Option<string>,
    price: Option<real>,
    description: Option<string>,
    imageUrl: Option<string>,
    inStock: Option<bool>,
    stockQty: Option<real>)

  /** The schema's defaults and validators applied to a new document; None is
      a ValidationError. */
  function NewProduct(input: ProductInput, id: string, createdAt: int): (r: Option<Product>)
    ensures r.Some? <==>
      && input.name.Some? && |input.name.value| > 0
      && input.category.Some? && input.category.value in Categories
      && input.price.Some? && input.price.value >= 0.0
    ensures r.Some? ==>
      && ValidProduct(r.value)
      && r.value.id == id && r.value.createdAt == createdAt
      && Some(r.value.name) == input.name && Some(r.value.category) == input.category
      && Some(r.value.price) == input.price
      && r.value.description == input.description && r.value.imageUrl == input.imageUrl
      && r.value.inStock == input.inStock.GetOr(true)
      && r.value.stockQty == input.stockQty.GetOr(0.0)
  {
    if input.name.Some? && |input.name.value| > 0
       && input.category.Some? && input.category.value in Categories
       && input.price.Some? && input.price.value >= 0.0
    then Some(Product(id, input.name.value, input.category.value, input.price.value, input.description,
                      input.imageUrl, input.inStock.GetOr(true), input.stockQty.GetOr(0.0), createdAt))
    else None
  }
}
