/** Validation rules for the product endpoints, as error lists computed from
    the request and the current `products` and `categories` tables. */
module ProductValidator {
  import opened Records
  import opened Rules

  const ProductNotFound := "Product not found!"

  /** The body fields a product create or update reads. */
  datatype ProductBody = ProductBody(name: string, categoryId: Value, price: Value, stock: Value)

  /** The `name` column of the products table, keyed by id. */
  function Names(products: map<int, Product>): map<int, string> {
    NameColumn(products, (p: Product) => p.name)
  }

  /** The `category_id`, `price` and `stock` chains, shared by create and
      update. */
  function FieldErrors(categories: map<int, Category>, body: ProductBody): (r: seq<ValidationError>)
    ensures r == [] <==> FieldsValid(categories, body)
  {
    ReferenceErrors("category_id", categories, body.categoryId,
                    "Category cannot be empty!", "Category must be an integer!", "Category not found!")
    + PositiveErrors("price", body.price, "Price cannot be empty!", "Price must be an integer!", "Price must be greater than 0!")
    + PositiveErrors("stock", body.stock, "Stock cannot be empty!", "Stock must be an integer!", "Stock must be greater than 0!")
  }

  /** The body passes the field chains: the referenced category exists and
      price and stock are integers above zero. */
  predicate FieldsValid(categories: map<int, Category>, body: ProductBody) {
    && IsInt(body.categoryId) && body.categoryId.n in categories
    && IsInt(body.price) && body.price.n > 0
    && IsInt(body.stock) && body.stock.n > 0
  }

  /** Create: a fresh non-empty name of at most 255 characters, an existing
      category, and a positive integer price and stock. Every failing check
      reports. */
  function Store(products: map<int, Product>, categories: map<int, Category>, body: ProductBody): (r: seq<ValidationError>)
    ensures r == [] <==>
      && body.name != "" && |body.name| <= MaxNameLength
      && (forall id :: id in products ==> products[id].name != body.name)
      && FieldsValid(categories, body)
    ensures body.stock == Int(0) ==> ValidationError("stock", "Stock must be greater than 0!") in r
    ensures body.price == Null ==>
      && ValidationError("price", "Price cannot be empty!") in r
      && ValidationError("price", "Price must be an integer!") in r
      && ValidationError("price", "Price must be greater than 0!") in r
  {
    StoreNameErrors(Names(products), body.name, NameExists) + FieldErrors(categories, body)
  }

  /** Show: the path id is an integer naming an existing product. */
  function Show(products: map<int, Product>, id: Value): (r: seq<ValidationError>)
    ensures r == [] <==> IsInt(id) && id.n in products
  {
    IdErrors(products, id, "ID must be an integer!", ProductNotFound)
  }

  /** Update: the path id names a product, the name passes the bailing chain
      with the product itself left out of the uniqueness check, and the field
      chains pass. */
  function Update(products: map<int, Product>, categories: map<int, Category>, id: Value, body: ProductBody): (r: seq<ValidationError>)
    ensures r == [] <==>
      && IsInt(id) && id.n in products
      && body.name != "" && |body.name| <= MaxNameLength
      && (forall other :: other in products && other != id.n ==> products[other].name != body.name)
      && FieldsValid(categories, body)
    ensures body.name == "" ==>
      r == IdErrors(products, id, "ID must be a number", ProductNotFound)
           + [ValidationError("name", NameEmpty)] + FieldErrors(categories, body)
  {
    IdErrors(products, id, "ID must be a number", ProductNotFound)
    + UpdateNameErrors(Names(products), body.name, id)
    + FieldErrors(categories, body)
  }

  /** Destroy: the same check as show. */
  function Destroy(products: map<int, Product>, id: Value): (r: seq<ValidationError>)
    ensures r == [] <==> IsInt(id) && id.n in products
  {
    IdErrors(products, id, "ID must be an integer!", ProductNotFound)
  }
}
