/** `poll_smarts_scan`: the background loop that repeatedly looks an expense up
    until SmartScan has filled in an amount, posting one thread message per
    attempt, or gives up after `MAX_POLLS` attempts.

    The loop is modelled as a pure function of `maxPolls` and of the answers
    that successive `fetch_expense` calls give (an oracle); its output is the
    list of thread messages it posts, the number of lookups it performed, and
    the exception, if any, that escaped the loop and ended the thread. */
module Poller {
  import opened Wrappers
  import opened PyJson
  import Lookup

  type Answer = Lookup.Answer

  /** Placeholder used when a scanned record carries no merchant. */
  const UnknownMerchant: string := "[merchant unknown]"

  /** How one answered lookup is read by the loop body. */
  datatype Observation =
    | NotVisible                                     // `not exp`
    | StillProcessing                                // amount is 0 or missing
    | Scanned(amount: Json, merchant: Json, created: Json)
    | Crashed(error: PyError)                        // raised outside the `try`

  /** One message posted to the receipt's thread. */
  datatype Notice =
    | LookupFailed(error: PyError)                   // lookup error, ends the loop
    | Pending(attempt: int, maxPolls: int)           // record not yet visible
    | Processing(attempt: int, maxPolls: int)        // record visible, amount still 0
    | Complete(amount: Json, merchant: Json, created: Json)  // amount in cents, as returned
    | StoppedPolling                                 // attempts exhausted
  {
    /** Progress messages are the ones after which the loop continues. */
    predicate IsProgress()
    {
      Pending? || Processing?
    }
  }

  /** Everything one poller thread does: the messages in posting order, how
      many lookups it made, and the exception that killed it, if one did. */
  datatype PollRun = PollRun(notices: seq<Notice>, lookups: nat, crash: Option<PyError>)

  /** `range(1, maxPolls + 1)` has this many elements. */
  function Attempts(maxPolls: int): nat
  {
    if maxPolls > 0 then maxPolls else 0
  }

  /** The loop body's reading of the record `fetch_expense` returned. A falsy
      record (None, an empty dict) is not yet visible; a record whose amount is
      0 or missing is still processing; otherwise the merchant and creation time
      are read with their defaults, and the creation time and amount must suit
      `time.localtime` and `/ 100.0` or the thread dies with a TypeError; an
      integer amount too large for a float kills it with an OverflowError. */
  function Classify(exp: Json): (o: Observation)
    ensures o.NotVisible? <==> !Truthy(exp)
    ensures o.StillProcessing? <==>
              Truthy(exp) && exp.JObj? && EqualsZero(Get(exp.fields, "amount", JNum(0)))
    ensures o.Scanned? ==>
              && exp.JObj? && "amount" in exp.fields
              && o.amount == exp.fields["amount"]
              && IsNumber(o.amount) && !EqualsZero(o.amount) && FitsFloat(o.amount)
              && o.merchant == Get(exp.fields, "merchant", JStr(UnknownMerchant))
              && o.created == Get(exp.fields, "created", JNum(0))
    ensures Truthy(exp) && !exp.JObj? ==> o == Crashed(AttributeError)
    ensures Truthy(exp) && exp.JObj? && !EqualsZero(Get(exp.fields, "amount", JNum(0))) ==>
              var created := Get(exp.fields, "created", JNum(0));
              var amount := exp.fields["amount"];
              && (o.Scanned? <==> IsNumber(amount) && FitsFloat(amount) && (IsNumber(created) || created.JNull?))
              && (o == Crashed(OverflowError) <==>
                    IsNumber(amount) && !FitsFloat(amount) && (IsNumber(created) || created.JNull?))
              && (o == Crashed(TypeError) <==> !IsNumber(amount) || !(IsNumber(created) || created.JNull?))
  {
    if !Truthy(exp) then NotVisible
    else if !exp.JObj? then Crashed(AttributeError)
    else
      var amount := Get(exp.fields, "amount", JNum(0));
      if EqualsZero(amount) then StillProcessing
      else
        var merchant := Get(exp.fields, "merchant", JStr(UnknownMerchant));
        var created := Get(exp.fields, "created", JNum(0));
        if !(IsNumber(created) || created.JNull?) then Crashed(TypeError)
        else if !IsNumber(amount) then Crashed(TypeError)
        else if !FitsFloat(amount) then Crashed(OverflowError)
        else Scanned(amount, merchant, created)
  }

  /** Prepends one progress message (and its lookup) to the rest of a run. */
  function Continue(notice: Notice, rest: PollRun): PollRun
  {
    PollRun([notice] + rest.notices, rest.lookups + 1, rest.crash)
  }

  /** Progress messages in `notices` carry consecutive attempt numbers counted
      from `first`, each with the configured maximum. */
  ghost predicate NumberedFrom(notices: seq<Notice>, first: int, maxPolls: int)
  {
    forall i :: 0 <= i < |notices| && notices[i].IsProgress() ==>
      notices[i].attempt == first + i && notices[i].maxPolls == maxPolls
  }

  /** Every message but the last is a progress message; the last is terminal
      unless an exception killed the thread, in which case none is. */
  ghost predicate OneTerminal(r: PollRun)
  {
    && (forall i :: 0 <= i < |r.notices| - 1 ==> r.notices[i].IsProgress())
    && (r.crash.None? ==> |r.notices| > 0 && !r.notices[|r.notices| - 1].IsProgress())
    && (r.crash.Some? ==> forall i :: 0 <= i < |r.notices| ==> r.notices[i].IsProgress())
  }

  /** A success message only ever reports a numeric, nonzero amount. */
  ghost predicate CompletesAreNonzero(notices: seq<Notice>)
  {
    forall i :: 0 <= i < |notices| && notices[i].Complete? ==>
      IsNumber(notices[i].amount) && !EqualsZero(notices[i].amount)
  }

  /** The iterations `attempt, attempt + 1, ..., maxPolls` of the loop,
      followed by the post-loop message. */
  function PollFrom(attempt: int, maxPolls: int, answers: seq<Answer>): PollRun
    requires 1 <= attempt <= Attempts(maxPolls) + 1
    requires Attempts(maxPolls) <= |answers|
    decreases Attempts(maxPolls) + 1 - attempt
  {
    if attempt > maxPolls then PollRun([StoppedPolling], 0, None)
    else
      match answers[attempt - 1]
      case Failure(e) => PollRun([LookupFailed(e)], 1, None)
      case Success(exp) =>
        match Classify(exp)
        case NotVisible => Continue(Pending(attempt, maxPolls), PollFrom(attempt + 1, maxPolls, answers))
        case StillProcessing => Continue(Processing(attempt, maxPolls), PollFrom(attempt + 1, maxPolls, answers))
        case Scanned(amount, merchant, created) => PollRun([Complete(amount, merchant, created)], 1, None)
        case Crashed(e) => PollRun([], 1, Some(e))
  }

  /** The loop from attempt `attempt` on makes at most one lookup per
      remaining attempt, and its message count is tied to its lookup count:
      one message per lookup, plus the stop notice after a timeout (which
      only comes once every attempt is used), minus one when the thread
      crashed. */
  lemma {:induction false} PollFromCounts(attempt: int, maxPolls: int, answers: seq<Answer>)
    requires 1 <= attempt <= Attempts(maxPolls) + 1
    requires Attempts(maxPolls) <= |answers|
    decreases Attempts(maxPolls) + 1 - attempt
    ensures var r := PollFrom(attempt, maxPolls, answers);
      && r.lookups <= Attempts(maxPolls) + 1 - attempt
      && (attempt <= maxPolls ==> r.lookups >= 1)
      && (r.crash.None? ==> |r.notices| > 0)
      && (r.crash.None? && r.notices[|r.notices| - 1] == StoppedPolling ==>
            r.lookups == Attempts(maxPolls) + 1 - attempt && |r.notices| == r.lookups + 1)
      && (r.crash.None? && r.notices[|r.notices| - 1] != StoppedPolling ==> |r.notices| == r.lookups)
      && (r.crash.Some? ==> |r.notices| == r.lookups - 1)
  {
    if attempt <= maxPolls && answers[attempt - 1].Success? {
      var o := Classify(answers[attempt - 1].value);
      if o.NotVisible? || o.StillProcessing? {
        PollFromCounts(attempt + 1, maxPolls, answers);
      }
    }
  }

  /** The progress messages of the loop from attempt `attempt` on carry the
      attempt numbers `attempt, attempt + 1, ...` in order. */
  lemma {:induction false} PollFromNumbered(attempt: int, maxPolls: int, answers: seq<Answer>)
    requires 1 <= attempt <= Attempts(maxPolls) + 1
    requires Attempts(maxPolls) <= |answers|
    decreases Attempts(maxPolls) + 1 - attempt
    ensures NumberedFrom(PollFrom(attempt, maxPolls, answers).notices, attempt, maxPolls)
  {
    if attempt <= maxPolls && answers[attempt - 1].Success? {
      var o := Classify(answers[attempt - 1].value);
      if o.NotVisible? || o.StillProcessing? {
        PollFromNumbered(attempt + 1, maxPolls, answers);
        var rest := PollFrom(attempt + 1, maxPolls, answers).notices;
        var all := PollFrom(attempt, maxPolls, answers).notices;
        assert all == [all[0]] + rest;
        forall i | 0 <= i < |all| && all[i].IsProgress()
          ensures all[i].attempt == attempt + i && all[i].maxPolls == maxPolls
        {
          if i > 0 {
            assert all[i] == rest[i - 1];
          }
        }
      }
    }
  }

  /** In the loop from attempt `attempt` on, every message but the last is a
      progress message, the last is terminal unless the thread crashed, and a
      success message reports a nonzero amount. */
  lemma {:induction false} PollFromTerminal(attempt: int, maxPolls: int, answers: seq<Answer>)
    requires 1 <= attempt <= Attempts(maxPolls) + 1
    requires Attempts(maxPolls) <= |answers|
    decreases Attempts(maxPolls) + 1 - attempt
    ensures OneTerminal(PollFrom(attempt, maxPolls, answers))
    ensures CompletesAreNonzero(PollFrom(attempt, maxPolls, answers).notices)
  {
    if attempt <= maxPolls && answers[attempt - 1].Success? {
      var o := Classify(answers[attempt - 1].value);
      if o.NotVisible? || o.StillProcessing? {
        PollFromTerminal(attempt + 1, maxPolls, answers);
        var rest := PollFrom(attempt + 1, maxPolls, answers).notices;
        var all := PollFrom(attempt, maxPolls, answers).notices;
        assert all == [all[0]] + rest;
        assert forall i :: 1 <= i < |all| ==> all[i] == rest[i - 1];
      }
    }
  }

  /** One poller thread from its first attempt: at most `maxPolls` lookups,
      progress messages numbered 1, 2, ... in order, and exactly one terminal
      message (a lookup error, a success, or the stopped-polling notice) unless
      an exception escaped the loop. */
  function Poll(maxPolls: int, answers: seq<Answer>): (r: PollRun)
    requires Attempts(maxPolls) <= |answers|
    ensures r.lookups <= Attempts(maxPolls)
    ensures maxPolls >= 1 ==> r.lookups >= 1
    ensures NumberedFrom(r.notices, 1, maxPolls)
    ensures OneTerminal(r)
    ensures CompletesAreNonzero(r.notices)
    ensures r.crash.None? && r.notices[|r.notices| - 1] == StoppedPolling ==>
              r.lookups == Attempts(maxPolls) && |r.notices| == Attempts(maxPolls) + 1
    ensures r.crash.None? && r.notices[|r.notices| - 1] != StoppedPolling ==> |r.notices| == r.lookups
    ensures r.crash.Some? ==> |r.notices| == r.lookups - 1
  {
    PollFromCounts(1, maxPolls, answers);
    PollFromNumbered(1, maxPolls, answers);
    PollFromTerminal(1, maxPolls, answers);
    PollFrom(1, maxPolls, answers)
  }

  // ---------------------------------------------------------------------------
  // A reference reading of the loop: find the first attempt that ends it.

  /** Whether an answer ends the loop body (a raise, a scanned record, or a
      record the loop body chokes on) rather than letting it continue. */
  predicate Stops(a: Answer)
  {
    a.Failure? || Classify(a.value).Scanned? || Classify(a.value).Crashed?
  }

  /** The 0-based index of the first of `answers[..n]` that ends the loop, or
      `n` when none does. */
  function FirstStop(answers: seq<Answer>, n: nat): (k: nat)
    requires n <= |answers|
    ensures k <= n
    ensures forall i :: 0 <= i < k ==> !Stops(answers[i])
    ensures k < n ==> Stops(answers[k])
  {
    if n == 0 then 0
    else
      var k := FirstStop(answers, n - 1);
      if k < n - 1 then k
      else if Stops(answers[n - 1]) then n - 1
      else n
  }

  /** The progress message attempt `attempt` posts for an answer that lets the
      loop continue. */
  function ProgressNotice(attempt: int, maxPolls: int, a: Answer): (p: Notice)
    requires !Stops(a)
    ensures p.IsProgress() && p.attempt == attempt && p.maxPolls == maxPolls
    ensures p.Pending? <==> !Truthy(a.value)
  {
    if Classify(a.value).NotVisible? then Pending(attempt, maxPolls) else Processing(attempt, maxPolls)
  }

  /** What the thread does after the attempt whose answer ends the loop. */
  function Finish(a: Answer): (r: PollRun)
    requires Stops(a)
    ensures r.lookups == 1 && |r.notices| <= 1
  {
    match a
    case Failure(e) => PollRun([LookupFailed(e)], 1, None)
    case Success(exp) =>
      if Classify(exp).Scanned? then
        PollRun([Complete(Classify(exp).amount, Classify(exp).merchant, Classify(exp).created)], 1, None)
      else PollRun([], 1, Some(Classify(exp).error))
  }

  /** The run described without recursion: one progress message for each
      attempt before the first stopping answer, then that answer's terminal
      message, or the stopped-polling notice when no answer stops the loop. */
  function Expected(maxPolls: int, answers: seq<Answer>): (r: PollRun)
    requires Attempts(maxPolls) <= |answers|
  {
    var n := Attempts(maxPolls);
    var k := FirstStop(answers, n);
    var progress := seq(k, i requires 0 <= i < k => ProgressNotice(i + 1, maxPolls, answers[i]));
    if k == n then PollRun(progress + [StoppedPolling], n, None)
    else
      var f := Finish(answers[k]);
      PollRun(progress + f.notices, k + 1, f.crash)
  }

  /** A run shaped like the reference: progress messages for the attempts
      before the first stopping answer, then the ending that answer (or the
      lack of one) calls for. */
  ghost predicate ShapedLike(e: PollRun, maxPolls: int, answers: seq<Answer>)
    requires Attempts(maxPolls) <= |answers|
  {
    var n := Attempts(maxPolls);
    var k := FirstStop(answers, n);
    && k <= |e.notices|
    && (forall i :: 0 <= i < k ==> e.notices[i] == ProgressNotice(i + 1, maxPolls, answers[i]))
    && (k == n ==> e.notices[k..] == [StoppedPolling] && e.lookups == n && e.crash.None?)
    && (k < n ==> e.notices[k..] == Finish(answers[k]).notices && e.lookups == k + 1
                  && e.crash == Finish(answers[k]).crash)
  }

  /** The reference run has that shape. */
  lemma ExpectedShape(maxPolls: int, answers: seq<Answer>)
    requires Attempts(maxPolls) <= |answers|
    ensures ShapedLike(Expected(maxPolls, answers), maxPolls, answers)
  {
  }

  /** An attempt whose answer lets the loop continue posts its progress
      message and hands over to the next attempt. */
  lemma PollFromContinues(attempt: int, maxPolls: int, answers: seq<Answer>)
    requires 1 <= attempt <= Attempts(maxPolls)
    requires Attempts(maxPolls) <= |answers|
    requires !Stops(answers[attempt - 1])
    ensures PollFrom(attempt, maxPolls, answers) ==
              Continue(ProgressNotice(attempt, maxPolls, answers[attempt - 1]), PollFrom(attempt + 1, maxPolls, answers))
  {
  }

  /** An attempt whose answer stops the loop ends the run there. */
  lemma PollFromStops(attempt: int, maxPolls: int, answers: seq<Answer>)
    requires 1 <= attempt <= Attempts(maxPolls)
    requires Attempts(maxPolls) <= |answers|
    requires Stops(answers[attempt - 1])
    ensures PollFrom(attempt, maxPolls, answers) == Finish(answers[attempt - 1])
  {
  }

  /** The loop from attempt `attempt` on is the suffix, from that attempt's
      position, of any run shaped like the reference, as long as no earlier
      answer stopped it. */
  lemma {:induction false} PollFromIsSuffix(attempt: int, maxPolls: int, answers: seq<Answer>, e: PollRun)
    requires 1 <= attempt <= Attempts(maxPolls) + 1
    requires Attempts(maxPolls) <= |answers|
    requires attempt - 1 <= FirstStop(answers, Attempts(maxPolls))
    requires ShapedLike(e, maxPolls, answers)
    decreases Attempts(maxPolls) + 1 - attempt
    ensures var r := PollFrom(attempt, maxPolls, answers);
            && attempt - 1 <= |e.notices|
            && r.notices == e.notices[attempt - 1..]
            && r.lookups == e.lookups - (attempt - 1)
            && r.crash == e.crash
  {
    var n := Attempts(maxPolls);
    var k := FirstStop(answers, n);
    if attempt - 1 < k {
      var p := ProgressNotice(attempt, maxPolls, answers[attempt - 1]);
      PollFromIsSuffix(attempt + 1, maxPolls, answers, e);
      PollFromContinues(attempt, maxPolls, answers);
      assert e.notices[attempt - 1] == p;
      assert e.notices[attempt - 1..] == [p] + e.notices[attempt..];
    } else if k == n {
      assert PollFrom(attempt, maxPolls, answers) == PollRun([StoppedPolling], 0, None);
    } else {
      PollFromStops(attempt, maxPolls, answers);
    }
  }

  /** The recursive loop and the first-stop reading agree on every input. */
  lemma PollIsExpected(maxPolls: int, answers: seq<Answer>)
    requires Attempts(maxPolls) <= |answers|
    ensures Poll(maxPolls, answers) == Expected(maxPolls, answers)
  {
    var e := Expected(maxPolls, answers);
    ExpectedShape(maxPolls, answers);
    PollFromIsSuffix(1, maxPolls, answers, e);
    assert e.notices[0..] == e.notices;
  }

  /** When every lookup finds nothing or a zero amount, the thread performs all
      `maxPolls` lookups, posts `maxPolls` progress messages numbered 1..maxPolls,
      then exactly one stopped-polling notice, and nothing after it. */
  lemma AllPendingTimesOut(maxPolls: int, answers: seq<Answer>)
    requires Attempts(maxPolls) <= |answers|
    requires forall i :: 0 <= i < Attempts(maxPolls) ==>
               answers[i].Success? && (!Truthy(answers[i].value) || Classify(answers[i].value).StillProcessing?)
    ensures var r := Poll(maxPolls, answers);
            && r.crash.None?
            && r.lookups == Attempts(maxPolls)
            && |r.notices| == Attempts(maxPolls) + 1
            && (forall i :: 0 <= i < Attempts(maxPolls) ==>
                  r.notices[i].IsProgress() && r.notices[i].attempt == i + 1)
            && r.notices[Attempts(maxPolls)] == StoppedPolling
  {
    var n := Attempts(maxPolls);
    var k := FirstStop(answers, n);
    PollIsExpected(maxPolls, answers);
  }

  /** A lookup that raises on attempt `k`, after `k - 1` answers that let the
      loop continue, ends the thread after exactly `k` lookups with `k - 1`
      progress messages and one lookup-error message, and no timeout notice. */
  lemma RaiseOnAttempt(maxPolls: int, answers: seq<Answer>, k: int)
    requires Attempts(maxPolls) <= |answers|
    requires 1 <= k <= maxPolls
    requires forall i :: 0 <= i < k - 1 ==> !Stops(answers[i])
    requires answers[k - 1].Failure?
    ensures var r := Poll(maxPolls, answers);
            && r.crash.None?
            && r.lookups == k
            && |r.notices| == k
            && (forall i :: 0 <= i < k - 1 ==> r.notices[i].IsProgress())
            && r.notices[k - 1] == LookupFailed(answers[k - 1].error)
            && StoppedPolling !in r.notices
  {
    var n := Attempts(maxPolls);
    assert FirstStop(answers, n) == k - 1;
    PollIsExpected(maxPolls, answers);
  }

  /** A record whose nonzero amount SmartScan has filled in, found on attempt
      `k` after `k - 1` answers that let the loop continue, ends the thread
      after exactly `k` lookups with `k - 1` progress messages and one success
      message carrying that amount, the merchant and the creation time. */
  lemma ScanOnAttempt(maxPolls: int, answers: seq<Answer>, k: int)
    requires Attempts(maxPolls) <= |answers|
    requires 1 <= k <= maxPolls
    requires forall i :: 0 <= i < k - 1 ==> !Stops(answers[i])
    requires answers[k - 1].Success? && Classify(answers[k - 1].value).Scanned?
    ensures var r := Poll(maxPolls, answers);
            var o := Classify(answers[k - 1].value);
            && r.crash.None?
            && r.lookups == k
            && |r.notices| == k
            && (forall i :: 0 <= i < k - 1 ==> r.notices[i].IsProgress() && r.notices[i].attempt == i + 1)
            && r.notices[k - 1] == Complete(o.amount, o.merchant, o.created)
            && StoppedPolling !in r.notices
  {
    var n := Attempts(maxPolls);
    assert FirstStop(answers, n) == k - 1;
    PollIsExpected(maxPolls, answers);
  }

  /** A record that is truthy but not a dict makes `exp.get` raise outside the
      `try`: the thread dies after that lookup without any terminal message. */
  lemma NonDictRecordKillsThread(maxPolls: int, answers: seq<Answer>)
    requires 1 <= maxPolls <= |answers|
    requires answers[0].Success? && Truthy(answers[0].value) && !answers[0].value.JObj?
    ensures Poll(maxPolls, answers) == PollRun([], 1, Some(AttributeError))
  {
  }

  /** An integer amount that `/ 100.0` cannot convert to a float kills the
      thread with an OverflowError and no message; one just below the limit
      is reported as scanned. */
  lemma HugeAmountKillsThread(maxPolls: int, answers: seq<Answer>, n: int)
    requires 1 <= maxPolls <= |answers|
    requires answers[0] == Success(JObj(map["amount" := JNum(n)]))
    ensures n >= FloatOverflow || n <= -FloatOverflow ==>
              Poll(maxPolls, answers) == PollRun([], 1, Some(OverflowError))
    ensures n == FloatOverflow - 1 ==>
              Poll(maxPolls, answers) ==
                PollRun([Complete(JNum(n), JStr(UnknownMerchant), JNum(0))], 1, None)
  {
  }

  /** Two lookups that find nothing, then one that finds a scanned record:
      two pending messages, then a success message carrying the raw amount,
      merchant and creation time. */
  lemma ScannedOnThirdAttempt(maxPolls: int, answers: seq<Answer>, created: int)
    requires 3 <= maxPolls <= |answers|
    requires answers[0] == Success(JNull) && answers[1] == Success(JNull)
    requires answers[2] == Success(JObj(map["amount" := JNum(4200), "merchant" := JStr("Cafe X"), "created" := JNum(created)]))
    ensures Poll(maxPolls, answers) ==
              PollRun([Pending(1, maxPolls), Pending(2, maxPolls), Complete(JNum(4200), JStr("Cafe X"), JNum(created))], 3, None)
  {
    var m := map["amount" := JNum(4200), "merchant" := JStr("Cafe X"), "created" := JNum(created)];
    assert "amount" in m && |m| > 0;
    assert Classify(answers[2].value) == Scanned(JNum(4200), JStr("Cafe X"), JNum(created));
    assert PollFrom(3, maxPolls, answers) == PollRun([Complete(JNum(4200), JStr("Cafe X"), JNum(created))], 1, None);
    assert PollFrom(2, maxPolls, answers) == Continue(Pending(2, maxPolls), PollFrom(3, maxPolls, answers));
    assert PollFrom(1, maxPolls, answers) == Continue(Pending(1, maxPolls), PollFrom(2, maxPolls, answers));
  }

  // ---------------------------------------------------------------------------
  // The loop as written, statement by statement.

  /** A run that first posted the progress messages `done`, one per lookup. */
  function After(done: seq<Notice>, rest: PollRun): PollRun
  {
    PollRun(done + rest.notices, |done| + rest.lookups, rest.crash)
  }

  lemma AfterContinue(done: seq<Notice>, p: Notice, rest: PollRun)
    ensures After(done, Continue(p, rest)) == After(done + [p], rest)
  {
  }

  /** `poll_smarts_scan` as an imperative loop over attempts 1..maxPolls with
      early returns; it posts exactly what the functional model says. */
  method PollSmartScan(maxPolls: int, answers: seq<Answer>)
    returns (notices: seq<Notice>, lookups: nat, crash: Option<PyError>)
    requires Attempts(maxPolls) <= |answers|
    ensures PollRun(notices, lookups, crash) == Poll(maxPolls, answers)
  {
    notices := [];
    lookups := 0;
    crash := None;
    var attempt := 1;
    ghost var whole := Poll(maxPolls, answers);
    while attempt <= maxPolls
      invariant 1 <= attempt <= Attempts(maxPolls) + 1
      invariant lookups == attempt - 1 == |notices|
      invariant crash.None?
      invariant whole == After(notices, PollFrom(attempt, maxPolls, answers))
    {
      var answer := answers[attempt - 1];
      lookups := lookups + 1;
      if answer.Failure? {
        assert PollFrom(attempt, maxPolls, answers) == PollRun([LookupFailed(answer.error)], 1, None);
        notices := notices + [LookupFailed(answer.error)];
        return;
      }
      var exp := answer.value;
      if !Truthy(exp) {
        assert PollFrom(attempt, maxPolls, answers) ==
               Continue(Pending(attempt, maxPolls), PollFrom(attempt + 1, maxPolls, answers));
        AfterContinue(notices, Pending(attempt, maxPolls), PollFrom(attempt + 1, maxPolls, answers));
        notices := notices + [Pending(attempt, maxPolls)];
        attempt := attempt + 1;
        continue;
      }
      if !exp.JObj? {
        assert PollFrom(attempt, maxPolls, answers) == PollRun([], 1, Some(AttributeError));
        crash := Some(AttributeError);
        return;
      }
      var amount := Get(exp.fields, "amount", JNum(0));
      if EqualsZero(amount) {
        assert PollFrom(attempt, maxPolls, answers) ==
               Continue(Processing(attempt, maxPolls), PollFrom(attempt + 1, maxPolls, answers));
        AfterContinue(notices, Processing(attempt, maxPolls), PollFrom(attempt + 1, maxPolls, answers));
        notices := notices + [Processing(attempt, maxPolls)];
        attempt := attempt + 1;
        continue;
      }
      var merchant := Get(exp.fields, "merchant", JStr(UnknownMerchant));
      var created := Get(exp.fields, "created", JNum(0));
      if !(IsNumber(created) || created.JNull?) || !IsNumber(amount) {
        assert PollFrom(attempt, maxPolls, answers) == PollRun([], 1, Some(TypeError));
        crash := Some(TypeError);
        return;
      }
      if !FitsFloat(amount) {
        assert PollFrom(attempt, maxPolls, answers) == PollRun([], 1, Some(OverflowError));
        crash := Some(OverflowError);
        return;
      }
      assert PollFrom(attempt, maxPolls, answers) == PollRun([Complete(amount, merchant, created)], 1, None);
      notices := notices + [Complete(amount, merchant, created)];
      return;
    }
    notices := notices + [StoppedPolling];
  }

  // ---------------------------------------------------------------------------
  // The loop fed by `fetch_expense`.

  /** The answers successive `fetch_expense` calls give for these responses. */
  function Answers(responses: seq<Lookup.Response>): (r: seq<Answer>)
    ensures |r| == |responses|
    ensures forall i :: 0 <= i < |responses| ==> r[i] == Lookup.FetchExpense(responses[i])
  {
    seq(|responses|, i requires 0 <= i < |responses| => Lookup.FetchExpense(responses[i]))
  }

  /** A body that does not parse as JSON is not an error: when every lookup
      gets one, the thread posts a pending message on each of the `maxPolls`
      attempts and then the stopped-polling notice. */
  lemma UnparseableBodiesKeepPolling(maxPolls: int, responses: seq<Lookup.Response>)
    requires Attempts(maxPolls) <= |responses|
    requires forall i :: 0 <= i < Attempts(maxPolls) ==>
               responses[i].HttpResponse? && responses[i].status == 200 && responses[i].body.None?
    ensures var r := Poll(maxPolls, Answers(responses));
            && r.lookups == Attempts(maxPolls)
            && |r.notices| == Attempts(maxPolls) + 1
            && (forall i :: 0 <= i < Attempts(maxPolls) ==> r.notices[i] == Pending(i + 1, maxPolls))
            && r.notices[Attempts(maxPolls)] == StoppedPolling
  {
    var answers := Answers(responses);
    AllPendingTimesOut(maxPolls, answers);
    PollIsExpected(maxPolls, answers);
  }

  /** A non-200 response on the first attempt ends the thread at once with one
      lookup-error message carrying the response text. */
  lemma Non200OnFirstAttempt(maxPolls: int, responses: seq<Lookup.Response>)
    requires 1 <= maxPolls <= |responses|
    requires responses[0].HttpResponse? && responses[0].status != 200
    ensures Poll(maxPolls, Answers(responses)) ==
              PollRun([LookupFailed(RuntimeError(responses[0].text))], 1, None)
  {
  }
}
