/** The express-validator chains the three validator files share. A chain
    without `bail()` runs every check and reports each one that fails, in
    chain order; `bail()` stops the chain at the first failure before it. */
module Rules {
  import opened Records

  const MaxNameLength := 255
  const NameEmpty := "Name cannot be empty!"
  const NameTooLong := "Name cannot be longer than 255 characters!"
  const NameExists := "Name already exists!"

  /** The row id a value names when the database compares it with an
      integer key: a number or a digit string by its value, any other string
      by the database's reading of it (`"5.0"` names row 5). */
  function LookupId(v: Value): (r: Option<int>)
    ensures IsInt(v) ==> r == Some(v.n)
  {
    match v
    case Int(n) => Some(n)
    case QuotedInt(n) => Some(n)
    case Text(s) => TextId(s)
    case _ => None
  }

  /** A `findById(value)` lookup finds a row. The raw value goes to the
      database, so a value that fails `isInt` may still name a row. */
  predicate Found<T>(table: map<int, T>, v: Value) {
    LookupId(v).Some? && LookupId(v).value in table
  }

  function Check(ok: bool, field: string, msg: string): (r: seq<ValidationError>)
    ensures r == [] <==> ok
    ensures !ok ==> r == [ValidationError(field, msg)]
  {
    if ok then [] else [ValidationError(field, msg)]
  }

  /** `param('id').isInt().withMessage(intMsg).custom(<row exists>)`: both
      checks run on the raw id, so an id that is not an integer reports one
      error when it still names a row and two when it does not. */
  function IdErrors<T>(table: map<int, T>, id: Value, intMsg: string, missingMsg: string): (r: seq<ValidationError>)
    ensures r == [] <==> IsInt(id) && id.n in table
    ensures forall i :: 0 <= i < |r| ==> r[i].param == "id"
    ensures !IsInt(id) && !Found(table, id) ==> r == [ValidationError("id", intMsg), ValidationError("id", missingMsg)]
    ensures !IsInt(id) && Found(table, id) ==> r == [ValidationError("id", intMsg)]
    ensures IsInt(id) && id.n !in table ==> r == [ValidationError("id", missingMsg)]
  {
    Check(IsInt(id), "id", intMsg) + Check(Found(table, id), "id", missingMsg)
  }

  /** `check(field).not().isEmpty().isInt().custom(<row exists>)`: a
      reference to another table. */
  function ReferenceErrors<T>(field: string, table: map<int, T>, v: Value,
                              emptyMsg: string, intMsg: string, missingMsg: string): (r: seq<ValidationError>)
    ensures r == [] <==> IsInt(v) && v.n in table
    ensures forall i :: 0 <= i < |r| ==> r[i].param == field
    ensures IsEmpty(v) ==> |r| == 3 && r[0].msg == emptyMsg
    ensures !IsEmpty(v) && !IsInt(v) && Found(table, v) ==> r == [ValidationError(field, intMsg)]
    ensures v.Int? && v.n >= ExponentFormFrom && v.n !in table ==>
              r == [ValidationError(field, intMsg), ValidationError(field, missingMsg)]
  {
    Check(!IsEmpty(v), field, emptyMsg) + Check(IsInt(v), field, intMsg) + Check(Found(table, v), field, missingMsg)
  }

  /** An id sent as an integer's text with a trailing `.0` names that
      integer's row: it fails only the integer check. */
  lemma PointZeroIdFailsOnlyIsInt<T>(table: map<int, T>, n: int, intMsg: string, missingMsg: string)
    requires n in table
    ensures IdErrors(table, Text(IntText(n) + ".0"), intMsg, missingMsg) == [ValidationError("id", intMsg)]
  {
    assert ZeroTail(".0");
    IntTextNamesItsRow(n, ".0");
  }

  /** `check(field).not().isEmpty().isInt().custom(value <= 0 fails)`: price
      and stock. Zero is rejected. */
  function PositiveErrors(field: string, v: Value, emptyMsg: string, intMsg: string, positiveMsg: string): (r: seq<ValidationError>)
    ensures r == [] <==> IsInt(v) && v.n > 0
    ensures forall i :: 0 <= i < |r| ==> r[i].param == field
    ensures v == Int(0) || v == QuotedInt(0) ==> r == [ValidationError(field, positiveMsg)]
    ensures v == Null ==> r == [ValidationError(field, emptyMsg), ValidationError(field, intMsg), ValidationError(field, positiveMsg)]
    ensures v == Undefined ==> r == [ValidationError(field, emptyMsg), ValidationError(field, intMsg)]
    ensures v.Fraction? ==> r == [ValidationError(field, intMsg)] + (if v.x <= 0.0 then [ValidationError(field, positiveMsg)] else [])
    ensures v == Text("") ==>
              r == [ValidationError(field, emptyMsg), ValidationError(field, intMsg), ValidationError(field, positiveMsg)]
    ensures v == Bool(false) ==> r == [ValidationError(field, intMsg), ValidationError(field, positiveMsg)]
    ensures v == Bool(true) ==> r == [ValidationError(field, intMsg)]
    ensures v.Int? && v.n >= ExponentFormFrom ==> r == [ValidationError(field, intMsg)]
  {
    Check(!IsEmpty(v), field, emptyMsg) + Check(IsInt(v), field, intMsg) + Check(!AtMostZero(v), field, positiveMsg)
  }

  /** The `name` column of a table, keyed by id. */
  function NameColumn<T>(table: map<int, T>, name: T -> string): (r: map<int, string>)
    ensures r.Keys == table.Keys
    ensures forall id :: id in r ==> r[id] == name(table[id])
  {
    map id | id in table :: name(table[id])
  }

  /** Some row other than `except` already carries `name` (exact match). */
  predicate NameTaken(names: map<int, string>, name: string, except: Option<int>) {
    exists id :: id in names && names[id] == name && except != Some(id)
  }

  /** The id a `whereNot({ id: req.params.id })` clause leaves out. */
  function Excluded(id: Value): Option<int> {
    LookupId(id)
  }

  /** The create-time name chain (no `bail`): every failing check reports. */
  function StoreNameErrors(names: map<int, string>, name: string, takenMsg: string): (r: seq<ValidationError>)
    ensures r == [] <==> name != "" && |name| <= MaxNameLength && !NameTaken(names, name, None)
    ensures forall i :: 0 <= i < |r| ==> r[i].param == "name"
    ensures |name| > MaxNameLength ==> ValidationError("name", NameTooLong) in r
    ensures NameTaken(names, name, None) ==> ValidationError("name", takenMsg) in r
  {
    Check(name != "", "name", NameEmpty)
    + Check(|name| <= MaxNameLength, "name", NameTooLong)
    + Check(!NameTaken(names, name, None), "name", takenMsg)
  }

  /** The update-time name chain: `bail()` after the emptiness and the length
      checks, so at most one error, and the uniqueness check ignores the row
      being updated. */
  function UpdateNameErrors(names: map<int, string>, name: string, id: Value): (r: seq<ValidationError>)
    ensures |r| <= 1
    ensures r == [] <==> name != "" && |name| <= MaxNameLength && !NameTaken(names, name, Excluded(id))
    ensures name == "" ==> r == [ValidationError("name", NameEmpty)]
    ensures name != "" && |name| > MaxNameLength ==> r == [ValidationError("name", NameTooLong)]
    ensures forall i :: 0 <= i < |r| ==> r[i].param == "name"
  {
    if name == "" then [ValidationError("name", NameEmpty)]
    else if |name| > MaxNameLength then [ValidationError("name", NameTooLong)]
    else Check(!NameTaken(names, name, Excluded(id)), "name", NameExists)
  }

  /** No two rows share a name. The validators guard this on every write. */
  ghost predicate NamesUnique(names: map<int, string>) {
    forall a, b :: a in names && b in names && names[a] == names[b] ==> a == b
  }

  /** A name that passed the create-time chain keeps names unique when it is
      inserted under a fresh id. */
  lemma StoreKeepsNamesUnique(names: map<int, string>, id: int, name: string, takenMsg: string)
    requires NamesUnique(names) && id !in names
    requires StoreNameErrors(names, name, takenMsg) == []
    ensures NamesUnique(names[id := name])
  {
    assert forall other :: other in names ==> names[other] != name;
  }

  /** Renaming a row with a name that passed the update-time chain keeps names
      unique. */
  lemma UpdateKeepsNamesUnique(names: map<int, string>, id: int, name: string)
    requires NamesUnique(names) && id in names
    requires UpdateNameErrors(names, name, QuotedInt(id)) == []
    ensures NamesUnique(names[id := name])
  {
    assert forall other :: other in names && other != id ==> names[other] != name;
  }

  /** Under unique names, resubmitting a row's own (valid) name on update
      passes the update-time chain. */
  lemma OwnNamePassesUpdate(names: map<int, string>, id: int)
    requires NamesUnique(names) && id in names
    requires names[id] != "" && |names[id]| <= MaxNameLength
    ensures UpdateNameErrors(names, names[id], QuotedInt(id)) == []
  {
    assert forall other :: other in names && names[other] == names[id] ==> other == id;
  }
}
