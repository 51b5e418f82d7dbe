/** Validation rules for the category endpoints, as error lists computed from
    the request and the current `categories` table. */
module CategoryValidator {
  import opened Records
  import opened Rules

  const CategoryNotFound := "Category not found!"

  /** The `name` column of the categories table, keyed by id. */
  function Names(categories: map<int, Category>): map<int, string> {
    NameColumn(categories, (c: Category) => c.name)
  }

  /** Create: name non-empty, at most 255 characters, used by no category.
      (The source's message here reads "Name already exist!".) */
  function Store(categories: map<int, Category>, name: string): (r: seq<ValidationError>)
    ensures r == [] <==>
      && name != "" && |name| <= MaxNameLength
      && forall id :: id in categories ==> categories[id].name != name
    ensures forall i :: 0 <= i < |r| ==> r[i].param == "name"
  {
    StoreNameErrors(Names(categories), name, "Name already exist!")
  }

  /** Show: the path id is an integer naming an existing category. */
  function Show(categories: map<int, Category>, id: Value): (r: seq<ValidationError>)
    ensures r == [] <==> IsInt(id) && id.n in categories
  {
    IdErrors(categories, id, "ID must be an integer!", CategoryNotFound)
  }

  /** Update: the path id names a category, and the new name is non-empty,
      at most 255 characters and used by no OTHER category. An empty name
      reports only its emptiness. */
  function Update(categories: map<int, Category>, id: Value, name: string): (r: seq<ValidationError>)
    ensures r == [] <==>
      && IsInt(id) && id.n in categories
      && name != "" && |name| <= MaxNameLength
      && forall other :: other in categories && other != id.n ==> categories[other].name != name
    ensures name == "" ==> r == IdErrors(categories, id, "ID must be a number", CategoryNotFound) + [ValidationError("name", NameEmpty)]
  {
    IdErrors(categories, id, "ID must be a number", CategoryNotFound)
    + UpdateNameErrors(Names(categories), name, id)
  }

  /** Destroy: the same check as show. */
  function Destroy(categories: map<int, Category>, id: Value): (r: seq<ValidationError>)
    ensures r == [] <==> IsInt(id) && id.n in categories
  {
    IdErrors(categories, id, "ID must be an integer!", CategoryNotFound)
  }
}
