/** The product endpoints. Each handler runs after its validator and the
    validation middleware; a storage failure (`fails`) is caught and answered
    with a bare `{message}` 500. */
module ProductController {
  import opened Records
  import opened ResponseHelper
  import opened Database
  import opened Rules
  import ProductValidator

  const Failure := Response(500, MessageOnly(InternalServerError))

  /** `index`: the whole table, empty or not. */
  method Index(db: Db, fails: bool) returns (r: Response)
    ensures fails ==> r == Failure
    ensures !fails ==> r == SendSuccess(200, "OK!", ProductTable(db.products))
  {
    if fails {
      return Failure;
    }
    r := SendSuccess(200, "OK!", ProductTable(db.products));
  }

  /** The model's schema accepts the body's numbers: `category_id` and
      `stock` must be JSON integers and `price` a JSON number; a digit string
      is refused before any SQL runs. (A fractional price never gets past
      the validator.) */
  predicate SchemaAccepts(body: ProductValidator.ProductBody) {
    body.categoryId.Int? && body.price.Int? && body.stock.Int?
  }

  /** The insert or patch goes through: the schema accepts the body and its
      `category_id` satisfies the foreign key. */
  predicate Writable(categories: map<int, Category>, body: ProductValidator.ProductBody) {
    SchemaAccepts(body) && body.categoryId.n in categories
  }

  /** The row the body's four fields make under a given id. */
  function Row(id: int, body: ProductValidator.ProductBody): Product
    requires SchemaAccepts(body)
  {
    Product(id, body.name, body.categoryId.n, body.price.n, body.stock.n)
  }

  /** `store`: inserts the four body fields under the next id and answers
      with the new row. An insert the foreign key refuses has drawn its id
      already; one the schema refuses has not. */
  method Store(db: Db, body: ProductValidator.ProductBody, fails: bool) returns (r: Response)
    requires db.Valid()
    modifies db`products, db`nextProductId
    ensures db.Valid()
    ensures db.nextProductId == old(db.nextProductId) + (if !fails && SchemaAccepts(body) then 1 else 0)
    ensures fails || !Writable(db.categories, body) ==> db.products == old(db.products) && r == Failure
    ensures !fails && Writable(db.categories, body) ==>
      var row := Row(old(db.nextProductId), body);
      && row.id !in old(db.products)
      && db.products == old(db.products)[row.id := row]
      && r == SendSuccess(200, "Success create!", ProductRecord(row))
  {
    if fails || !SchemaAccepts(body) {
      return Failure;
    }
    var row := Row(db.nextProductId, body);
    db.nextProductId := db.nextProductId + 1;
    if body.categoryId.n !in db.categories {
      // The foreign key refuses the row.
      return Failure;
    }
    db.products := db.products[row.id := row];
    r := SendSuccess(200, "Success create!", ProductRecord(row));
  }

  /** `show`: the row with the given id; a missing id leaves `data` out. */
  method Show(db: Db, id: int, fails: bool) returns (r: Response)
    ensures fails ==> r == Failure
    ensures !fails && id in db.products ==> r == SendSuccess(200, "OK!", ProductRecord(db.products[id]))
    ensures !fails && id !in db.products ==> r == SendSuccess(200, "OK!", Absent)
  {
    if fails {
      return Failure;
    }
    var data := if id in db.products then ProductRecord(db.products[id]) else Absent;
    r := SendSuccess(200, "OK!", data);
  }

  /** `update`: overwrites the four body fields of the row with the given id
      (its id is kept), then fetches the row in a separate query and answers
      with it. The schema check runs before any SQL, whatever the id; a
      missing id matches no row, so the foreign key is never consulted, and
      the fetch finds nothing. */
  method Update(db: Db, id: int, body: ProductValidator.ProductBody, fault: UpdateFault) returns (r: Response)
    requires db.Valid()
    modifies db`products
    ensures db.Valid()
    ensures fault == FailsOnPatch || !Writable(db.categories, body) || id !in old(db.products) ==>
      db.products == old(db.products)
    ensures fault != FailsOnPatch && Writable(db.categories, body) && id in old(db.products) ==>
      && old(db.products)[id].id == id
      && db.products == old(db.products)[id := Row(id, body)]
      && (fault == NoUpdateFault ==> r == SendSuccess(200, "Success update!", ProductRecord(Row(id, body))))
    ensures fault == NoUpdateFault && SchemaAccepts(body) && id !in old(db.products) ==>
      r == SendSuccess(200, "Success update!", Absent)
    ensures fault != NoUpdateFault || !SchemaAccepts(body) || (id in old(db.products) && !Writable(db.categories, body)) ==>
      r == Failure
  {
    if fault == FailsOnPatch || !SchemaAccepts(body) {
      return Failure;
    }
    if id in db.products {
      if body.categoryId.n !in db.categories {
        // The foreign key refuses the patched row.
        return Failure;
      }
      db.products := db.products[id := Row(id, body)];
    }
    if fault == FailsOnFetch {
      // The patch has already been applied.
      return Failure;
    }
    var data := if id in db.products then ProductRecord(db.products[id]) else Absent;
    r := SendSuccess(200, "Success update!", data);
  }

  /** `destroy`: deletes the row and, through the foreign key's cascade, its
      detail rows; answers with the number of rows deleted. */
  method Destroy(db: Db, id: int, fails: bool) returns (r: Response)
    requires db.Valid()
    modifies db`products, db`details
    ensures db.Valid()
    ensures fails ==> db.products == old(db.products) && db.details == old(db.details) && r == Failure
    ensures !fails ==>
      && db.products == old(db.products) - {id}
      && db.details == DetailsKept(old(db.details), {}, {id})
      && r == SendSuccess(200, "Success delete!", DeletedCount(if id in old(db.products) then 1 else 0))
  {
    if fails {
      return Failure;
    }
    var count := if id in db.products then 1 else 0;
    db.products := db.products - {id};
    db.details := DetailsKept(db.details, {}, {id});
    r := SendSuccess(200, "Success delete!", DeletedCount(count));
  }

  /** A create that passed its validator keeps product names unique. */
  lemma ValidatedStoreKeepsNamesUnique(products: map<int, Product>, next: int, categories: map<int, Category>,
                                       body: ProductValidator.ProductBody)
    requires ProductsKeyed(products, next) && NamesUnique(ProductValidator.Names(products))
    requires ProductValidator.Store(products, categories, body) == []
    ensures NamesUnique(ProductValidator.Names(products[next := Product(next, body.name, body.categoryId.n, body.price.n, body.stock.n)]))
  {
    var row := Product(next, body.name, body.categoryId.n, body.price.n, body.stock.n);
    assert ProductValidator.Names(products[next := row]) == ProductValidator.Names(products)[next := body.name];
    StoreKeepsNamesUnique(ProductValidator.Names(products), next, body.name, NameExists);
  }

  /** An update that passed its validator keeps product names unique. */
  lemma ValidatedUpdateKeepsNamesUnique(products: map<int, Product>, categories: map<int, Category>, id: int,
                                        body: ProductValidator.ProductBody)
    requires NamesUnique(ProductValidator.Names(products))
    requires ProductValidator.Update(products, categories, QuotedInt(id), body) == []
    ensures NamesUnique(ProductValidator.Names(products[id := Product(id, body.name, body.categoryId.n, body.price.n, body.stock.n)]))
  {
    var row := Product(id, body.name, body.categoryId.n, body.price.n, body.stock.n);
    assert ProductValidator.Names(products[id := row]) == ProductValidator.Names(products)[id := body.name];
    UpdateKeepsNamesUnique(ProductValidator.Names(products), id, body.name);
  }

  /** A validated body holds integers: a positive price and stock and an
      existing category. */
  lemma ValidatedBodyIsSound(products: map<int, Product>, categories: map<int, Category>, body: ProductValidator.ProductBody)
    requires ProductValidator.Store(products, categories, body) == []
    ensures IsInt(body.categoryId) && body.categoryId.n in categories
    ensures IsInt(body.price) && body.price.n > 0 && IsInt(body.stock) && body.stock.n > 0
  {
    assert ProductValidator.FieldErrors(categories, body) == [];
  }

  /** The validator reads a digit string as the integer it spells, the
      schema does not: a body with its numbers quoted passes validation, yet
      the insert is refused with a 500. */
  lemma ValidationAdmitsQuotedNumbers(products: map<int, Product>, categories: map<int, Category>, body: ProductValidator.ProductBody)
    requires ProductValidator.Store(products, categories, body) == []
    ensures var quoted := body.(categoryId := QuotedInt(body.categoryId.n), price := QuotedInt(body.price.n), stock := QuotedInt(body.stock.n));
      && ProductValidator.Store(products, categories, quoted) == []
      && !SchemaAccepts(quoted)
  {
    ValidatedBodyIsSound(products, categories, body);
  }
}
