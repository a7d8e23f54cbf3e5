/** `submit_to_expensify`: the "create" job that uploads a receipt as a
    zero-amount expense so that SmartScan fills in the real figures later. */
module Submission {
  import opened Wrappers
  import opened PyJson

  /** Merchant placeholder written on every new expense. */
  const ReceiptMerchant: string := "Slack Receipt"

  /** The one expense record carried by the create job. */
  datatype Expense = Expense(
    created: int,
    merchant: string,
    amount: int,
    currency: string,
    category: string,
    externalId: string,
    filename: string)

  /** What `requests.post` gives back for the create job. */
  datatype CreateResponse =
    | CreateHttp(status: int, text: string)
    | CreateRaised(detail: string)

  /** The expense that was sent, and whether the call returned or raised. */
  datatype Submitted = Submitted(sent: Expense, outcome: Result<(), PyError>)

  /** The record built for the file `filename` at Unix time `now`: amount 0 in
      USD under the placeholder merchant, with the file name doubling as the
      `externalID` by which the poller later finds it. */
  function NewExpense(filename: string, now: int, category: string): (e: Expense)
    ensures e.amount == 0 && e.currency == "USD" && e.merchant == ReceiptMerchant
    ensures e.externalId == filename && e.filename == filename
    ensures e.category == category && e.created == now
  {
    Expense(now, ReceiptMerchant, 0, "USD", category, filename, filename)
  }

  /** Submitting a downloaded receipt: the zero-amount record is always what is
      sent; the call returns normally only on a 200 response and otherwise raises
      with the response text, or with the transport error. */
  function SubmitToExpensify(filename: string, now: int, category: string, resp: CreateResponse): (r: Submitted)
    ensures r.sent.amount == 0 && r.sent.currency == "USD" && r.sent.merchant == ReceiptMerchant
    ensures r.sent.externalId == filename && r.sent.filename == filename
    ensures r.sent.category == category && r.sent.created == now
    ensures r.outcome.Success? <==> resp.CreateHttp? && resp.status == 200
    ensures resp.CreateHttp? && resp.status != 200 ==> r.outcome == Failure(RuntimeError(resp.text))
    ensures resp.CreateRaised? ==> r.outcome == Failure(RequestError(resp.detail))
  {
    var expense := NewExpense(filename, now, category);
    match resp
    case CreateRaised(detail) => Submitted(expense, Failure(RequestError(detail)))
    case CreateHttp(status, text) =>
      if status != 200 then Submitted(expense, Failure(RuntimeError(text)))
      else Submitted(expense, Success(()))
  }
}
