/** The validation middleware that turns express-validator's error list into
    a 422 response or lets the request through. */
module ErrorHandler {
  import opened Records
  import opened ResponseHelper

  /** `errors.array().map(...)`: one `{item_name: param, message: msg}` per
      error, same order, same count. */
  function ToItems(errs: seq<ValidationError>): (r: seq<ErrorItem>)
    ensures |r| == |errs|
    ensures forall i :: 0 <= i < |r| ==> r[i] == ErrorItem(errs[i].param, errs[i].msg)
  {
    if errs == [] then [] else [ErrorItem(errs[0].param, errs[0].msg)] + ToItems(errs[1..])
  }

  /** Either a response is sent, or `next()` is called. */
  datatype Outcome = Respond(response: Response) | Next

  /** `handleValidation`: no errors calls `next` and sends nothing; otherwise
      a 422 whose body is only the mapped `errors` list. */
  function HandleValidation(errs: seq<ValidationError>): (r: Outcome)
    ensures r.Next? <==> |errs| == 0
    ensures r.Respond? ==> r.response.code == 422 && r.response.body == Errors(ToItems(errs))
  {
    if |errs| > 0 then Respond(Response(422, Errors(ToItems(errs)))) else Next
  }

  /** The mapping loses nothing: a validation error can be read back from the
      item it became. */
  lemma {:induction false} ToItemsInjective(a: seq<ValidationError>, b: seq<ValidationError>)
    requires ToItems(a) == ToItems(b)
    ensures a == b
  {
    assert |a| == |b|;
    forall i | 0 <= i < |a| ensures a[i] == b[i] {
      assert ToItems(a)[i] == ToItems(b)[i];
    }
  }
}
