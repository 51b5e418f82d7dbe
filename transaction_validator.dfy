/** Validation rules for the transaction endpoints: the buyer must exist and
    every requested line must be satisfiable against the stored stock. */
module TransactionValidator {
  import opened Records
  import opened Rules

  /** Why a requested line is refused, in the order the checks run. */
  datatype LineFailure =
    | UnknownProduct(productId: int)
    | NonPositiveQuantity(productId: int)
    | NotEnoughStock(productId: int, available: int)

  /** The checks on one line, first failure wins: the product exists, then
      the quantity is above zero, then the stored stock covers it. A quantity
      equal to the stock is accepted. */
  function CheckLine(products: map<int, Product>, l: Line): (r: Option<LineFailure>)
    ensures r.None? <==> l.productId in products && 0 < l.quantity <= products[l.productId].stock
    ensures l.productId !in products ==> r == Some(UnknownProduct(l.productId))
    ensures l.productId in products && l.quantity <= 0 ==> r == Some(NonPositiveQuantity(l.productId))
    ensures l.productId in products && 0 < l.quantity && products[l.productId].stock < l.quantity ==>
              r == Some(NotEnoughStock(l.productId, products[l.productId].stock))
  {
    if l.productId !in products then Some(UnknownProduct(l.productId))
    else if l.quantity <= 0 then Some(NonPositiveQuantity(l.productId))
    else if products[l.productId].stock < l.quantity then Some(NotEnoughStock(l.productId, products[l.productId].stock))
    else None
  }

  predicate LineOk(products: map<int, Product>, l: Line) {
    CheckLine(products, l).None?
  }

  /** The index of the first refused line, if any: the loop throws there and
      the lines after it are not looked at. */
  function FirstFailing(products: map<int, Product>, lines: seq<Line>): (r: Option<nat>)
    ensures r.None? <==> forall i :: 0 <= i < |lines| ==> LineOk(products, lines[i])
    ensures r.Some? ==> r.value < |lines| && !LineOk(products, lines[r.value])
    ensures r.Some? ==> forall i :: 0 <= i < r.value ==> LineOk(products, lines[i])
    decreases |lines|
  {
    if lines == [] then None
    else if !LineOk(products, lines[0]) then Some(0)
    else match FirstFailing(products, lines[1..])
      case None => None
      case Some(k) => Some(k + 1)
  }

  /** The thrown message for a refused line. */
  function LineMessage(f: LineFailure): string {
    match f
    case UnknownProduct(id) => "Product with ID " + IntText(id) + " not found!"
    case NonPositiveQuantity(id) => "Quantity for product ID " + IntText(id) + " must be greater than 0!"
    case NotEnoughStock(id, available) =>
      "Not enough stock for product ID " + IntText(id) + ", available stock: " + IntText(available)
  }

  /** Each kind of refusal has its own message. */
  lemma LineMessageNamesKind(f: LineFailure, g: LineFailure)
    requires LineMessage(f) == LineMessage(g)
    ensures f.UnknownProduct? == g.UnknownProduct?
    ensures f.NonPositiveQuantity? == g.NonPositiveQuantity?
    ensures f.NotEnoughStock? == g.NotEnoughStock?
  {
    assert LineMessage(f)[0] == LineMessage(g)[0];
  }

  /** The `products` chain: `isArray({ min: 1 })`, then the line loop, which
      runs even on an empty list (and then finds nothing). */
  function ProductsErrors(products: map<int, Product>, lines: seq<Line>): (r: seq<ValidationError>)
    ensures r == [] <==> |lines| > 0 && forall i :: 0 <= i < |lines| ==> LineOk(products, lines[i])
    ensures forall i :: 0 <= i < |r| ==> r[i].param == "products"
    ensures |lines| == 0 ==> r == [ValidationError("products", "Products cannot be empty!")]
    ensures FirstFailing(products, lines).Some? ==>
              var k := FirstFailing(products, lines).value;
              r == [ValidationError("products", LineMessage(CheckLine(products, lines[k]).value))]
  {
    var failure := FirstFailing(products, lines);
    Check(|lines| > 0, "products", "Products cannot be empty!")
    + (match failure
       case None => []
       case Some(k) => [ValidationError("products", LineMessage(CheckLine(products, lines[k]).value))])
  }

  /** The `user_id` chain: non-empty, an integer, an existing user. */
  function UserErrors(users: map<int, User>, userId: Value): (r: seq<ValidationError>)
    ensures r == [] <==> IsInt(userId) && userId.n in users
  {
    ReferenceErrors("user_id", users, userId, "User ID cannot be empty!", "User ID must be an integer!", "User not found!")
  }

  /** Create: an existing buyer and a non-empty list of lines each of which,
      ON ITS OWN, is covered by the stored stock. */
  function Store(users: map<int, User>, products: map<int, Product>, userId: Value, lines: seq<Line>): (r: seq<ValidationError>)
    ensures r == [] <==>
      && IsInt(userId) && userId.n in users
      && |lines| > 0
      && forall i :: 0 <= i < |lines| ==>
           lines[i].productId in products && 0 < lines[i].quantity <= products[lines[i].productId].stock
  {
    UserErrors(users, userId) + ProductsErrors(products, lines)
  }

  /** Show: the path id is an integer naming an existing transaction. */
  function Show(transactions: map<int, Transaction>, id: Value): (r: seq<ValidationError>)
    ensures r == [] <==> IsInt(id) && id.n in transactions
  {
    IdErrors(transactions, id, "ID must be an integer!", "Transaction not found!")
  }

  /** Destroy: the same check as show. */
  function Destroy(transactions: map<int, Transaction>, id: Value): (r: seq<ValidationError>)
    ensures r == [] <==> IsInt(id) && id.n in transactions
  {
    IdErrors(transactions, id, "ID must be an integer!", "Transaction not found!")
  }
}
