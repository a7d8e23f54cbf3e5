/** `fetch_expense`: the download job that looks an expense up by its
    `externalID`, reduced to what it does with the HTTP response it gets back. */
module Lookup {
  import opened Wrappers
  import opened PyJson

  /** What `requests.post` gives back for the download job. `body` is the
      decoded JSON, or `None` when `resp.json()` fails to parse the text. */
  datatype Response =
    | HttpResponse(status: int, text: string, body: Option<Json>)
    | TransportFailure(detail: string)

  /** What one call of `fetch_expense` produces: the value it returns (Python
      `None` is `JNull`) or the exception it raises. */
  type Answer = Result<Json, PyError>

  /** `expenses[0] if expenses else None` for whatever value `expenses` holds. */
  function FirstOf(expenses: Json): (r: Answer)
    ensures !Truthy(expenses) ==> r == Success(JNull)
    ensures expenses.JArr? && |expenses.items| > 0 ==> r == Success(expenses.items[0])
    ensures r.Failure? <==> Truthy(expenses) && !expenses.JArr? && !expenses.JStr?
  {
    if !Truthy(expenses) then Success(JNull)
    else match expenses
      case JArr(items) => Success(items[0])
      case JStr(s) => Success(JStr(s[..1]))
      case JObj(_) => Failure(KeyError)
      case _ => Failure(TypeError)
  }

  /** The result of `fetch_expense` for a given response. */
  function FetchExpense(resp: Response): (r: Answer)
    ensures resp.TransportFailure? ==> r == Failure(RequestError(resp.detail))
    ensures resp.HttpResponse? && resp.status != 200 ==> r == Failure(RuntimeError(resp.text))
    ensures resp.HttpResponse? && resp.status == 200 && resp.body.None? ==> r == Success(JNull)
    ensures resp.HttpResponse? && resp.status == 200 && resp.body.Some? ==>
              var blob := resp.body.value;
              && (!blob.JObj? ==> r == Failure(AttributeError))
              && (blob.JObj? && "expenses" !in blob.fields ==> r == Success(JNull))
              && (blob.JObj? && "expenses" in blob.fields && blob.fields["expenses"].JArr? ==>
                    var items := blob.fields["expenses"].items;
                    r == if |items| == 0 then Success(JNull) else Success(items[0]))
    ensures resp.HttpResponse? && resp.status == 200 && resp.body.Some? && resp.body.value.JObj? ==>
              r == FirstOf(Get(resp.body.value.fields, "expenses", JArr([])))
  {
    match resp
    case TransportFailure(detail) => Failure(RequestError(detail))
    case HttpResponse(status, text, body) =>
      if status != 200 then Failure(RuntimeError(text))
      else match body
        case None => Success(JNull)
        case Some(blob) =>
          if !blob.JObj? then Failure(AttributeError)
          else FirstOf(Expenses(blob.fields))
  }

  /** `blob.get("expenses", [])`. */
  function Expenses(fields: map<string, Json>): Json
  {
    Get(fields, "expenses", JArr([]))
  }

}
