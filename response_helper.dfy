/** The JSON bodies the controllers send, and the two envelope builders of
    the response helper. */
module ResponseHelper {
  import opened Records

  /** One entry of an `errors` list: `{item_name, message}`. */
  datatype ErrorItem = ErrorItem(itemName: string, message: string)

  /** What a success envelope carries under `data`. `Absent` is a lookup
      that found no row: the key is then left out of the JSON. */
  datatype Data =
    | Absent
    | CategoryRecord(category: Category)
    | CategoryTable(categories: map<int, Category>)
    | ProductRecord(product: Product)
    | ProductTable(products: map<int, Product>)
    | TransactionRecord(transaction: Transaction)
    | TransactionWithDetails(transaction: Transaction, details: seq<Detail>)
    | TransactionTable(transactions: map<int, Transaction>)
    | DeletedCount(count: nat)
    | DeletedId(id: int)

  /** The three body shapes: the success envelope `{status, message, data}`,
      the error envelope `{errors}`, and the bare `{message}` that the product
      and transaction controllers send on a 500. */
  datatype Body =
    | Envelope(status: int, message: string, data: Data)
    | Errors(errors: seq<ErrorItem>)
    | MessageOnly(message: string)

  datatype Response = Response(code: int, body: Body)

  const InternalServerError := "Internal Server Error!"

  /** `sendSuccessResponse`: the HTTP status and the body's `status` agree,
      and the body has exactly the three envelope fields. */
  function SendSuccess(status: int, message: string, data: Data): (r: Response)
    ensures r.body.Envelope? && r.code == r.body.status == status
    ensures r.body.message == message && r.body.data == data
  {
    Response(status, Envelope(status, message, data))
  }

  /** `sendErrorResponse`: a non-empty list is passed on unchanged, an empty
      (or omitted) one becomes the single entry `{item_name: 'error', message}`;
      the body carries `errors` only, and that list is never empty. */
  function SendError(status: int, message: string, errors: seq<ErrorItem>): (r: Response)
    ensures r.code == status && r.body.Errors?
    ensures |r.body.errors| > 0
    ensures |errors| > 0 ==> r.body.errors == errors
    ensures |errors| == 0 ==> r.body.errors == [ErrorItem("error", message)]
  {
    Response(status, Errors(if |errors| > 0 then errors else [ErrorItem("error", message)]))
  }
}
