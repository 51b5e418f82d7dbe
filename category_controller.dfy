/** The category endpoints. Each handler runs after its validator and the
    validation middleware; a storage failure (`fails`) is caught and answered
    with the 500 error envelope. */
module CategoryController {
  import opened Records
  import opened ResponseHelper
  import opened Database
  import opened Rules
  import CategoryValidator

  /** The caught storage failure: the error envelope with its default entry. */
  const Failure := SendError(500, InternalServerError, [])

  const NoneFound := "No categories found!"

  /** `index`: the whole table, or a 404 naming the empty table. */
  method Index(db: Db, fails: bool) returns (r: Response)
    ensures fails ==> r == Failure && r.body.errors == [ErrorItem("error", InternalServerError)]
    ensures !fails && |db.categories| == 0 ==>
      r.code == 404 && r.body == Errors([ErrorItem("categories", NoneFound)])
    ensures !fails && |db.categories| > 0 ==> r == SendSuccess(200, "OK!", CategoryTable(db.categories))
  {
    if fails {
      return Failure;
    }
    if |db.categories| == 0 {
      return SendError(404, NoneFound, [ErrorItem("categories", NoneFound)]);
    }
    r := SendSuccess(200, "OK!", CategoryTable(db.categories));
  }

  /** `store`: inserts the name under the next id and answers with the new
      row. */
  method Store(db: Db, name: string, fails: bool) returns (r: Response)
    requires db.Valid()
    modifies db`categories, db`nextCategoryId
    ensures db.Valid()
    ensures fails ==> db.categories == old(db.categories) && db.nextCategoryId == old(db.nextCategoryId) && r == Failure
    ensures !fails ==>
      var row := Category(old(db.nextCategoryId), name);
      && row.id !in old(db.categories)
      && db.categories == old(db.categories)[row.id := row]
      && db.nextCategoryId == old(db.nextCategoryId) + 1
      && r == SendSuccess(200, "Success create!", CategoryRecord(row))
  {
    if fails {
      return Failure;
    }
    var row := Category(db.nextCategoryId, name);
    db.categories := db.categories[row.id := row];
    db.nextCategoryId := db.nextCategoryId + 1;
    r := SendSuccess(200, "Success create!", CategoryRecord(row));
  }

  /** `show`: the row with the given id; a missing id leaves `data` out. */
  method Show(db: Db, id: int, fails: bool) returns (r: Response)
    ensures fails ==> r == Failure
    ensures !fails && id in db.categories ==> r == SendSuccess(200, "OK!", CategoryRecord(db.categories[id]))
    ensures !fails && id !in db.categories ==> r == SendSuccess(200, "OK!", Absent)
  {
    if fails {
      return Failure;
    }
    var data := if id in db.categories then CategoryRecord(db.categories[id]) else Absent;
    r := SendSuccess(200, "OK!", data);
  }

  /** `update`: patches the name of the row with the given id, then fetches
      the row in a separate query and answers with it; a missing id matches
      no row and the fetch finds nothing. */
  method Update(db: Db, id: int, name: string, fault: UpdateFault) returns (r: Response)
    requires db.Valid()
    modifies db`categories
    ensures db.Valid()
    ensures fault == FailsOnPatch || id !in old(db.categories) ==> db.categories == old(db.categories)
    ensures fault != FailsOnPatch && id in old(db.categories) ==>
      var row := old(db.categories)[id].(name := name);
      && row.id == id
      && db.categories == old(db.categories)[id := row]
      && (fault == NoUpdateFault ==> r == SendSuccess(200, "Success update!", CategoryRecord(row)))
    ensures fault == NoUpdateFault && id !in old(db.categories) ==> r == SendSuccess(200, "Success update!", Absent)
    ensures fault != NoUpdateFault ==> r == Failure
  {
    if fault == FailsOnPatch {
      return Failure;
    }
    if id in db.categories {
      db.categories := db.categories[id := db.categories[id].(name := name)];
    }
    if fault == FailsOnFetch {
      // The patch has already been applied.
      return Failure;
    }
    var data := if id in db.categories then CategoryRecord(db.categories[id]) else Absent;
    r := SendSuccess(200, "Success update!", data);
  }

  /** `destroy`: deletes the row and, through the foreign keys' cascade, the
      category's products and the detail rows of those products; answers
      with the requested id. */
  method Destroy(db: Db, id: int, fails: bool) returns (r: Response)
    requires db.Valid()
    modifies db`categories, db`products, db`details
    ensures db.Valid()
    ensures fails ==> db.categories == old(db.categories) && db.products == old(db.products)
                      && db.details == old(db.details) && r == Failure
    ensures !fails ==>
      && db.categories == old(db.categories) - {id}
      && db.products == ProductsOutside(old(db.products), id)
      && db.details == DetailsKept(old(db.details), {}, old(db.products).Keys - db.products.Keys)
      && r == SendSuccess(200, "Category success delete!", DeletedId(id))
  {
    if fails {
      return Failure;
    }
    var kept := ProductsOutside(db.products, id);
    db.details := DetailsKept(db.details, {}, db.products.Keys - kept.Keys);
    db.products := kept;
    db.categories := db.categories - {id};
    r := SendSuccess(200, "Category success delete!", DeletedId(id));
  }

  /** A create that passed its validator keeps category names unique. */
  lemma ValidatedStoreKeepsNamesUnique(categories: map<int, Category>, next: int, name: string)
    requires CategoriesKeyed(categories, next) && NamesUnique(CategoryValidator.Names(categories))
    requires CategoryValidator.Store(categories, name) == []
    ensures NamesUnique(CategoryValidator.Names(categories[next := Category(next, name)]))
  {
    assert CategoryValidator.Names(categories[next := Category(next, name)]) == CategoryValidator.Names(categories)[next := name];
    StoreKeepsNamesUnique(CategoryValidator.Names(categories), next, name, "Name already exist!");
  }

  /** An update that passed its validator keeps category names unique. */
  lemma ValidatedUpdateKeepsNamesUnique(categories: map<int, Category>, id: int, name: string)
    requires NamesUnique(CategoryValidator.Names(categories))
    requires CategoryValidator.Update(categories, QuotedInt(id), name) == []
    ensures id in categories
    ensures NamesUnique(CategoryValidator.Names(categories[id := categories[id].(name := name)]))
  {
    assert CategoryValidator.Names(categories[id := categories[id].(name := name)]) == CategoryValidator.Names(categories)[id := name];
    UpdateKeepsNamesUnique(CategoryValidator.Names(categories), id, name);
  }
}
