# Slack → Expensify receipt tracker, modelled in Dafny

The bot watches Slack messages for shared receipt files. For each one it
downloads the file, submits it to Expensify as a zero-amount expense whose
`externalID` is the file name, and starts a background poller. The poller looks
the expense up by that `externalID` every few seconds until SmartScan (Expensify's
OCR) has filled in an amount, posting one message per attempt into the Slack
thread, and gives up after `MAX_POLLS` attempts.

This project models that control flow from `slack_expensify_bot.py` (the v2
program, lines 1–286) as pure functions over oracles: every network answer
(the Slack download, the create job, each lookup) is an input, and every Slack
message, expense creation and poller start is an element of an output list.

- `wrappers.dfy` — `Option` and `Result`.
- `pyjson.dfy` — module `PyJson`: the JSON values the bot reads (`Json`), Python
  truthiness (`Truthy`), `x == 0` (`EqualsZero`, true of `0` and `False`),
  `dict.get`, and the exceptions the code paths raise (`PyError`).
- `lookup.dfy` — module `Lookup`: `fetch_expense` reduced to what it does with
  the HTTP response (`FetchExpense`).
- `poller.dfy` — module `Poller`: the reading of one returned record
  (`Classify`), the poll loop as a recursive function (`PollFrom`, `Poll`), a
  second, non-recursive reading of the same loop built on the index of the first
  answer that stops it (`FirstStop`, `Expected`), the loop as an imperative
  method (`PollSmartScan`), and the scenario lemmas.
- `submission.dfy` — module `Submission`: the expense record built by
  `submit_to_expensify` and its success/raise outcome.
- `handler.dfy` — module `Handler`: the per-file dispatch of
  `handle_message_events`, and the lemmas relating its output to its input files.

A poller thread's run is `PollRun(notices, lookups, crash)`. `crash` is set when
an exception escapes the loop body outside its `try` (for example `exp.get` on a
record that is a non-empty list, or `amount / 100.0` on a string amount or on an
integer amount too large for a float). Such an
exception ends the daemon thread without posting anything. In that case the run
has no terminal message, and the contracts say so.

Some behaviour of the code that a reader might not expect, all modelled as written:
- A lookup body that does not parse as JSON makes `fetch_expense` return `None`.
  The loop treats it like a record that is not yet visible: it posts "pending"
  and keeps polling.
- Records carry no status field. A record is "still processing" when its
  `amount` is 0 or missing. A numeric nonzero amount ends the loop with a
  success message when `created` is a number, null or missing and the amount's
  magnitude is below 2^1024 - 2^970 cents, the point from which Python's
  int-to-float conversion raises. Any other `created` kills the thread with a
  TypeError and no message, and so does a nonzero amount that is not a number.
  An integer amount at or beyond that limit kills it with an OverflowError at
  `/ 100.0` (`Poller.HugeAmountKillsThread`).
- Pollers are not de-duplicated. Two shared files with the same name are both
  submitted under the same `externalID`, and each gets its own poller
  (`Handler.SameNameStartsTwoPollers`).
- A failed download is answered under the message's own `ts`. Every other reply
  goes to `thread_ts or ts`.

## Model

| member | source | states |
|---|---|---|
| Lookup.FirstOf | slack_expensify_bot.py:154-155 | `expenses[0] if expenses else None`: a falsy `expenses` gives None, a non-empty list gives its first record; it raises exactly when `expenses` is truthy but neither a list nor a string |
| Lookup.FetchExpense | slack_expensify_bot.py:139-155 | a transport error or a non-200 status raises (with the response text); an unparseable body returns None instead of raising; a non-dict body raises AttributeError; otherwise the result is exactly `FirstOf` applied to `expenses` (default `[]`): the first element of a non-empty list, None for an empty, absent or otherwise falsy `expenses`, the first character of a non-empty string, and a raise for any other truthy value |
| Poller.Classify | slack_expensify_bot.py:175-206 | a falsy record (None, `{}`) is "not yet visible"; a dict whose `amount` is 0 or missing is "still processing"; a truthy non-dict record raises AttributeError; a dict with any other amount is scanned exactly when that amount is a number that converts to a float and `created` is a number or None; it raises OverflowError exactly when the amount is an integer too large for a float and `created` is acceptable, and TypeError exactly when the amount is not a number or `created` is neither a number nor None; a scan carries the record's nonzero `amount`, plus the merchant and created values with their defaults |
| Poller.PollFromCounts | slack_expensify_bot.py:162-216 | from attempt `a` on, at most `maxPolls - a + 1` lookups (at least one if an attempt remains); one message per lookup, plus the stop notice after a timeout, which only comes once every attempt is used, minus one when the thread crashed |
| Poller.PollFromNumbered | slack_expensify_bot.py:162-191 | from attempt `a` on, progress messages carry attempts `a, a+1, …` in order, with the configured maximum |
| Poller.PollFromTerminal | slack_expensify_bot.py:164-216 | from any attempt on, every message but the last is a progress message; the last is terminal unless the thread crashed, and then none is; success messages carry a numeric, nonzero amount |
| Poller.Poll | slack_expensify_bot.py:159-216 | the whole loop, `PollFrom` (the recursive model of lines 162-216) started at attempt 1: at most `maxPolls` lookups (at least one when `maxPolls >= 1`); progress messages carry attempts 1, 2, … with the configured maximum; exactly one terminal message unless an exception escaped; a timeout comes only after all `maxPolls` lookups, with `maxPolls` progress messages before it; success messages carry a nonzero amount |
| Poller.ProgressNotice | slack_expensify_bot.py:175-191 | an answer that lets the loop continue gets a progress message for its own attempt number; it is "pending" exactly when the record is falsy, and "still processing" otherwise |
| Poller.PollFromIsSuffix | slack_expensify_bot.py:162-216 | the loop from any attempt up to the first stopping answer is the matching suffix of any run shaped like the reference run (messages, lookup count and crash) |
| Poller.PollIsExpected | slack_expensify_bot.py:162-216 | the loop equals the reference run: one progress message per attempt before the first answer that raises, scans or crashes, then that answer's terminal message; or `maxPolls` progress messages and the stop notice when no answer stops it |
| Poller.AllPendingTimesOut | slack_expensify_bot.py:175-216 | if every lookup finds nothing or a zero amount, exactly `maxPolls` lookups and progress messages 1..maxPolls happen, then one stopped-polling notice ends the run |
| Poller.RaiseOnAttempt | slack_expensify_bot.py:164-173 | a lookup that raises on attempt k after k-1 continuing answers: exactly k lookups, k-1 progress messages, one lookup-error message carrying the exception, and no timeout notice |
| Poller.ScanOnAttempt | slack_expensify_bot.py:184-206 | a scanned record found on attempt k after k-1 continuing answers: exactly k lookups, k-1 progress messages numbered 1..k-1, one success message carrying the record's amount, merchant and created time, and no timeout notice |
| Poller.HugeAmountKillsThread | slack_expensify_bot.py:184-196 | a record whose integer amount has magnitude 2^1024 - 2^970 or more kills the thread after one lookup with OverflowError and no message; an amount one below that limit ends it with a success message |
| Poller.NonDictRecordKillsThread | slack_expensify_bot.py:175-184 | a truthy record that is not a dict makes the thread die after one lookup with AttributeError and no message at all |
| Poller.ScannedOnThirdAttempt | slack_expensify_bot.py:175-206 | two empty lookups and then a record with amount 4200 and merchant "Cafe X" produce two pending messages (attempts 1 and 2) and one success message carrying 4200, "Cafe X" and the created time, after 3 lookups |
| Poller.PollSmartScan | slack_expensify_bot.py:159-216 | the for-loop with early returns, written statement by statement, posts the same messages, performs the same lookups and crashes the same way as `Poll` |
| Poller.UnparseableBodiesKeepPolling | slack_expensify_bot.py:148-182 | when every lookup response is a 200 whose body is not JSON, the thread posts "pending (attempt k/N)" for every k and then the stop notice, never a lookup error |
| Poller.Non200OnFirstAttempt | slack_expensify_bot.py:145-173 | a non-200 lookup response on the first attempt ends the thread after one lookup with one lookup-error message carrying the response text |
| Submission.NewExpense | slack_expensify_bot.py:87-95 | the created expense has amount 0, currency "USD", merchant "Slack Receipt", the configured category, the current time, and `externalID` and `filename` both equal to the file name |
| Submission.SubmitToExpensify | slack_expensify_bot.py:72-116 | the zero-amount record above is what is sent; the call returns normally exactly on a 200 response, raises RuntimeError with the response text on any other status, and propagates a transport error |
| Handler.ReplyThread | slack_expensify_bot.py:253 | replies go to the event's `thread_ts` when it is present and non-empty, otherwise to its `ts` |
| Handler.HandleFile | slack_expensify_bot.py:228-280 | a file of another type does nothing; the handler aborts exactly when a receipt's download raises, and then does nothing for that file; a non-200 download gives exactly one "could not download" reply, with the response text, under the message `ts`; after a 200 download the first action creates exactly `NewExpense(name, clock, category)`, followed by the "uploaded" reply and a poller keyed by the file name when the create answers 200, and otherwise by exactly one "failed to submit" reply carrying the RuntimeError with the response text or the transport error; all replies go to the reply thread |
| Handler.HandleFiles | slack_expensify_bot.py:228-280 | over all files: every poller is keyed by the `externalID` of the zero-amount expense created two steps before it, right after the "uploaded" reply, in the reply thread; download-failure replies use the message `ts`, other replies the reply thread; a list with no receipt files does nothing |
| Handler.HandleMessage | slack_expensify_bot.py:220-230 | a message whose `files` is missing or empty does nothing, and so does one whose files are all of other types; otherwise poller/upload adjacency and reply threading hold as in `HandleFiles` |
| Handler.HandleFilesAppend | slack_expensify_bot.py:228-280 | handling `a + b` is handling `a` and then, unless a download raised in `a`, handling `b`: files do not affect each other |
| Handler.DownloadFailureSkipsOnlyThatFile | slack_expensify_bot.py:241-248 | a receipt whose download answers non-200 adds exactly one "could not download" reply under the message `ts`; the files before and after it are handled as if it were absent |
| Handler.ReceiptsKeepsEveryReceipt | slack_expensify_bot.py:228-230 | the receipt filter keeps every file whose type is png, jpg, jpeg or pdf, and keeps nothing that was not in the list |
| Handler.OnlyReceiptsAreHandled | slack_expensify_bot.py:228-230 | the handler does exactly what it does on the png/jpg/jpeg/pdf files alone; other files leave no trace |
| Handler.PollersMatchAcceptedFiles | slack_expensify_bot.py:256-268 | when no download raises: the handler runs to the end, posts exactly one reply per receipt file, and starts pollers keyed by exactly the names of the receipts whose download and create both answered 200, in file order |
| Handler.SameNameStartsTwoPollers | slack_expensify_bot.py:256-268 | two accepted files with the same name start two pollers with the same key; nothing de-duplicates them |

## Left out

- Slack Bolt, `SocketModeHandler`, `say` and `chat_postMessage`: each message is an element of the output list. Failures of the messages themselves are not modelled.
- `requests` calls, `client.files_info`, and the JSON encoding of the job descriptions (credentials, policy id, filters, `dateRange`, output settings): each call is an oracle answer. The lookup's filter by `externalID` is therefore not modelled; only the key the poller is started with is.
- Threading and `time.sleep`: every poller is an independent sequential run. The 60 s request timeouts carry no logical content here, and neither does a poll interval (`POLL_INTERVAL_SEC`, 15 s by default) of zero or more.
- A negative `POLL_INTERVAL_SEC`: `time.sleep` then raises ValueError outside the `try`, so every poller thread dies before its first lookup without posting anything. The model assumes a non-negative interval.
- Environment and configuration loading: `maxPolls` (default 10) and the category are parameters. `maxPolls` is an unbounded integer; a value of zero or less gives an empty loop, as `range` does.
- The temporary file under `/tmp/slack_expensify` (write, read for upload, unlink).
- Floating-point dollar formatting (the value of `/ 100.0`, whose overflow is modelled, and `,.2f`) and `time.localtime`/`strftime` dates: the success message carries the raw amount in cents, the merchant and the `created` value.
- `time.localtime` range errors (OverflowError, OSError) for out-of-range timestamps: every integer timestamp is accepted.
- JSON numbers with a fractional part: numbers are integers, so a float amount such as `0.0` is not modelled.
- A file entry without `id` or `name`, or an event without `channel`: the `KeyError` that would end the handler is not modelled; these fields are always present.
- File names containing a path separator: the bot builds the temporary path as `TMP_DIR / file_name` and submits `filepath.name`; the model takes that to be the file name itself.
- Logging.
- The commented-out v1 program after line 287: dead code.
