/** `handle_message_events`: for each file shared in a message, download it,
    submit it as an expense, answer in the conversation, and start one poller
    per accepted submission. Downloads and submissions are oracles: each file
    comes with the outcome its download and its create call would have. */
module Handler {
  import opened Wrappers
  import opened PyJson
  import Submission

  /** The receipt file types the bot handles. */
  const ValidFiletypes: set<string> := {"png", "jpg", "jpeg", "pdf"}

  /** One entry of the event's `files` list (`filetype` may be missing). */
  datatype FileInfo = FileInfo(id: string, name: string, filetype: Option<string>)

  /** The parts of the message event the handler reads. */
  datatype Event = Event(channel: string, ts: Option<string>, threadTs: Option<string>)

  /** What fetching the file from Slack gives: an HTTP response, or an
      exception from `files_info` or `requests.get`. */
  datatype Download =
    | DownloadHttp(status: int, text: string)
    | DownloadRaised(detail: string)

  /** A shared file together with the outcomes of the calls made for it: its
      download, the clock reading when its expense is built, and the create job. */
  datatype FileCase = FileCase(
    info: FileInfo,
    download: Download,
    clock: int,
    create: Submission.CreateResponse)

  /** The text classes of the handler's own replies. */
  datatype Reply =
    | CouldNotDownload(name: string, text: string)
    | Uploaded
    | FailedToSubmit(name: string, error: PyError)

  /** The handler's effects, in the order it performs them. */
  datatype Action =
    | Say(channel: string, thread: Option<string>, reply: Reply)
    | Create(expense: Submission.Expense)
    | StartPoller(externalId: string, channel: string, thread: Option<string>)

  /** The handler's effects, and the exception that ended it early, if any. */
  datatype HandlerRun = HandlerRun(actions: seq<Action>, aborted: Option<string>)

  predicate IsReceipt(info: FileInfo)
  {
    info.filetype.Some? && info.filetype.value in ValidFiletypes
  }

  /** `event.get("thread_ts") or event.get("ts")`: a missing or empty
      `thread_ts` falls back to the message's own timestamp. */
  function ReplyThread(ev: Event): (t: Option<string>)
    ensures ev.threadTs.Some? && ev.threadTs.value != "" ==> t == ev.threadTs
    ensures ev.threadTs.None? || ev.threadTs == Some("") ==> t == ev.ts
  {
    if ev.threadTs.Some? && |ev.threadTs.value| > 0 then ev.threadTs else ev.ts
  }

  /** A file for which the handler starts a poller. */
  predicate StartsPoller(c: FileCase)
  {
    && IsReceipt(c.info)
    && c.download.DownloadHttp? && c.download.status == 200
    && c.create.CreateHttp? && c.create.status == 200
  }

  /** What one receipt's handling reports: a failed download gets one "could
      not download" reply under the message's `ts`; after a successful one the
      expense `submit_to_expensify` builds is created, and then either the
      "uploaded" reply and a poller on the file name, or one "failed to submit"
      reply carrying the create call's exception, in the reply thread. */
  ghost predicate ReportsOutcome(ev: Event, c: FileCase, category: string, actions: seq<Action>)
  {
    && (IsReceipt(c.info) && c.download.DownloadHttp? && c.download.status != 200 ==>
          actions == [Say(ev.channel, ev.ts, CouldNotDownload(c.info.name, c.download.text))])
    && (IsReceipt(c.info) && c.download.DownloadHttp? && c.download.status == 200 ==>
          && |actions| >= 2
          && actions[0] == Create(Submission.NewExpense(c.info.name, c.clock, category))
          && (StartsPoller(c) ==>
                actions[1..] == [Say(ev.channel, ReplyThread(ev), Uploaded),
                                   StartPoller(c.info.name, ev.channel, ReplyThread(ev))])
          && (c.create.CreateHttp? && c.create.status != 200 ==>
                actions[1..] == [Say(ev.channel, ReplyThread(ev),
                                       FailedToSubmit(c.info.name, RuntimeError(c.create.text)))])
          && (c.create.CreateRaised? ==>
                actions[1..] == [Say(ev.channel, ReplyThread(ev),
                                       FailedToSubmit(c.info.name, RequestError(c.create.detail)))]))
  }

  /** One iteration of the loop over `files`. */
  function HandleFile(ev: Event, c: FileCase, category: string): (r: HandlerRun)
    ensures !IsReceipt(c.info) ==> r == HandlerRun([], None)
    ensures r.aborted.Some? <==> IsReceipt(c.info) && c.download.DownloadRaised?
    ensures r.aborted.Some? ==> r.actions == []
    ensures PollersFollowUploads(ev, r.actions)
    ensures RepliesThreaded(ev, r.actions)
    ensures ReportsOutcome(ev, c, category, r.actions)
  {
    if !IsReceipt(c.info) then HandlerRun([], None)
    else match c.download
      case DownloadRaised(detail) => HandlerRun([], Some(detail))
      case DownloadHttp(status, text) =>
        if status != 200 then
          HandlerRun([Say(ev.channel, ev.ts, CouldNotDownload(c.info.name, text))], None)
        else
          var thread := ReplyThread(ev);
          var sub := Submission.SubmitToExpensify(c.info.name, c.clock, category, c.create);
          if sub.outcome.Success? then
            HandlerRun([Create(sub.sent), Say(ev.channel, thread, Uploaded),
                        StartPoller(c.info.name, ev.channel, thread)], None)
          else
            HandlerRun([Create(sub.sent), Say(ev.channel, thread, FailedToSubmit(c.info.name, sub.outcome.error))], None)
  }

  /** Every poller started is keyed by the name that the create call two steps
      earlier sent as `externalID`, right after the "uploaded" reply, and
      answers in the reply thread of the conversation. */
  ghost predicate PollersFollowUploads(ev: Event, actions: seq<Action>)
  {
    forall j :: 0 <= j < |actions| && actions[j].StartPoller? ==>
      && j >= 2
      && actions[j - 2].Create?
      && actions[j - 2].expense.externalId == actions[j].externalId
      && actions[j - 2].expense.amount == 0
      && actions[j - 1] == Say(ev.channel, ReplyThread(ev), Uploaded)
      && actions[j].channel == ev.channel
      && actions[j].thread == ReplyThread(ev)
  }

  /** Replies go to the conversation; a failed download answers under the
      message's own `ts`, every other reply in the reply thread. */
  ghost predicate RepliesThreaded(ev: Event, actions: seq<Action>)
  {
    forall j :: 0 <= j < |actions| && actions[j].Say? ==>
      && actions[j].channel == ev.channel
      && (actions[j].reply.CouldNotDownload? ==> actions[j].thread == ev.ts)
      && (!actions[j].reply.CouldNotDownload? ==> actions[j].thread == ReplyThread(ev))
  }

  lemma PollersFollowUploadsAppend(ev: Event, a: seq<Action>, b: seq<Action>)
    requires PollersFollowUploads(ev, a) && PollersFollowUploads(ev, b)
    ensures PollersFollowUploads(ev, a + b)
  {
  }

  lemma RepliesThreadedAppend(ev: Event, a: seq<Action>, b: seq<Action>)
    requires RepliesThreaded(ev, a) && RepliesThreaded(ev, b)
    ensures RepliesThreaded(ev, a + b)
  {
  }

  /** Runs one file after another; an exception from a download ends the
      handler and leaves the remaining files untouched. */
  function Then(first: HandlerRun, rest: HandlerRun): HandlerRun
  {
    if first.aborted.Some? then first
    else HandlerRun(first.actions + rest.actions, rest.aborted)
  }

  /** The loop `for file_info in files`. */
  function HandleFiles(ev: Event, cases: seq<FileCase>, category: string): (r: HandlerRun)
    ensures PollersFollowUploads(ev, r.actions)
    ensures RepliesThreaded(ev, r.actions)
    ensures (forall i :: 0 <= i < |cases| ==> !IsReceipt(cases[i].info)) ==> r == HandlerRun([], None)
    decreases |cases|
  {
    if cases == [] then HandlerRun([], None)
    else
      var first := HandleFile(ev, cases[0], category);
      var rest := HandleFiles(ev, cases[1..], category);
      PollersFollowUploadsAppend(ev, first.actions, rest.actions);
      RepliesThreadedAppend(ev, first.actions, rest.actions);
      Then(first, rest)
  }

  /** `handle_message_events`: a message without files does nothing. */
  function HandleMessage(ev: Event, files: Option<seq<FileCase>>, category: string): (r: HandlerRun)
    ensures files.None? || files.value == [] ==> r == HandlerRun([], None)
    ensures files.Some? && (forall i :: 0 <= i < |files.value| ==> !IsReceipt(files.value[i].info)) ==>
              r == HandlerRun([], None)
    ensures PollersFollowUploads(ev, r.actions)
    ensures RepliesThreaded(ev, r.actions)
  {
    if files.None? || files.value == [] then HandlerRun([], None)
    else HandleFiles(ev, files.value, category)
  }

  // ---------------------------------------------------------------------------
  // Files are handled independently of each other.

  lemma ThenAssociative(x: HandlerRun, y: HandlerRun, z: HandlerRun)
    ensures Then(Then(x, y), z) == Then(x, Then(y, z))
  {
  }

  /** Handling a list of files is handling its first part and then, unless a
      download raised there, its second part. */
  lemma {:induction false} HandleFilesAppend(ev: Event, a: seq<FileCase>, b: seq<FileCase>, category: string)
    ensures HandleFiles(ev, a + b, category) == Then(HandleFiles(ev, a, category), HandleFiles(ev, b, category))
    decreases |a|
  {
    if a == [] {
      assert a + b == b;
    } else {
      assert (a + b)[1..] == a[1..] + b;
      HandleFilesAppend(ev, a[1..], b, category);
      ThenAssociative(HandleFile(ev, a[0], category), HandleFiles(ev, a[1..], category), HandleFiles(ev, b, category));
    }
  }

  /** A receipt whose download gets a non-200 answer costs one "could not
      download" reply under the message's `ts` and nothing else: the files
      before and after it are handled exactly as they would be without it. */
  lemma DownloadFailureSkipsOnlyThatFile(ev: Event, before: seq<FileCase>, c: FileCase, after: seq<FileCase>, category: string)
    requires IsReceipt(c.info) && c.download.DownloadHttp? && c.download.status != 200
    requires HandleFiles(ev, before, category).aborted.None?
    ensures HandleFiles(ev, before + [c] + after, category) ==
              HandlerRun(HandleFiles(ev, before, category).actions
                           + [Say(ev.channel, ev.ts, CouldNotDownload(c.info.name, c.download.text))]
                           + HandleFiles(ev, after, category).actions,
                         HandleFiles(ev, after, category).aborted)
  {
    HandleFilesAppend(ev, before + [c], after, category);
    HandleFilesAppend(ev, before, [c], category);
    assert HandleFiles(ev, [c], category) ==
             HandlerRun([Say(ev.channel, ev.ts, CouldNotDownload(c.info.name, c.download.text))], None) by {
      assert [c][1..] == [];
    }
  }

  /** The files of the list whose type is one the bot handles. */
  function Receipts(cases: seq<FileCase>): (r: seq<FileCase>)
    ensures forall i :: 0 <= i < |r| ==> IsReceipt(r[i].info)
    ensures |r| <= |cases|
  {
    if cases == [] then []
    else if IsReceipt(cases[0].info) then [cases[0]] + Receipts(cases[1..])
    else Receipts(cases[1..])
  }

  /** `Receipts` keeps every receipt file of the list and nothing that is not
      in it: it is exactly the filter on the file type. */
  lemma {:induction false} ReceiptsKeepsEveryReceipt(cases: seq<FileCase>)
    ensures forall i :: 0 <= i < |cases| && IsReceipt(cases[i].info) ==> cases[i] in Receipts(cases)
    ensures forall c :: c in Receipts(cases) ==> c in cases
    decreases |cases|
  {
    if cases != [] {
      ReceiptsKeepsEveryReceipt(cases[1..]);
      forall i | 1 <= i < |cases|
        ensures cases[i] == cases[1..][i - 1]
      {
      }
    }
  }

  /** Files of any other type are skipped without a trace: the handler does
      exactly what it would do on the receipts alone. */
  lemma {:induction false} OnlyReceiptsAreHandled(ev: Event, cases: seq<FileCase>, category: string)
    ensures HandleFiles(ev, cases, category) == HandleFiles(ev, Receipts(cases), category)
    decreases |cases|
  {
    if cases != [] {
      OnlyReceiptsAreHandled(ev, cases[1..], category);
      if IsReceipt(cases[0].info) {
        assert ([cases[0]] + Receipts(cases[1..]))[1..] == Receipts(cases[1..]);
      }
    }
  }

  // ---------------------------------------------------------------------------
  // Pollers and replies, counted against the files.

  /** The keys of the pollers started, in order. */
  function PollerKeys(actions: seq<Action>): seq<string>
  {
    if actions == [] then []
    else (if actions[0].StartPoller? then [actions[0].externalId] else []) + PollerKeys(actions[1..])
  }

  /** The number of replies posted. */
  function ReplyCount(actions: seq<Action>): nat
  {
    if actions == [] then 0
    else (if actions[0].Say? then 1 else 0) + ReplyCount(actions[1..])
  }

  lemma {:induction false} CountsAppend(a: seq<Action>, b: seq<Action>)
    ensures PollerKeys(a + b) == PollerKeys(a) + PollerKeys(b)
    ensures ReplyCount(a + b) == ReplyCount(a) + ReplyCount(b)
    decreases |a|
  {
    if a == [] {
      assert a + b == b;
    } else {
      assert (a + b)[1..] == a[1..] + b;
      CountsAppend(a[1..], b);
    }
  }

  lemma SingleCounts(x: Action)
    ensures PollerKeys([x]) == (if x.StartPoller? then [x.externalId] else [])
    ensures ReplyCount([x]) == (if x.Say? then 1 else 0)
  {
  }

  /** One file yields one reply if it is a receipt, and a poller keyed by its
      name exactly when it is downloaded and accepted. */
  lemma FileCounts(ev: Event, c: FileCase, category: string)
    requires !(IsReceipt(c.info) && c.download.DownloadRaised?)
    ensures PollerKeys(HandleFile(ev, c, category).actions) == (if StartsPoller(c) then [c.info.name] else [])
    ensures ReplyCount(HandleFile(ev, c, category).actions) == (if IsReceipt(c.info) then 1 else 0)
  {
    var acts := HandleFile(ev, c, category).actions;
    if |acts| == 1 {
      SingleCounts(acts[0]);
      assert acts == [acts[0]];
    } else if |acts| == 2 {
      SingleCounts(acts[0]);
      SingleCounts(acts[1]);
      CountsAppend([acts[0]], [acts[1]]);
      assert acts == [acts[0]] + [acts[1]];
    } else if |acts| == 3 {
      SingleCounts(acts[0]);
      SingleCounts(acts[1]);
      SingleCounts(acts[2]);
      CountsAppend([acts[0]], [acts[1]]);
      CountsAppend([acts[0]] + [acts[1]], [acts[2]]);
      assert acts == [acts[0]] + [acts[1]] + [acts[2]];
    }
  }

  /** The names of the files that should get a poller: receipts whose download
      and create calls both answered 200. */
  function PolledNames(cases: seq<FileCase>): seq<string>
  {
    if cases == [] then []
    else (if StartsPoller(cases[0]) then [cases[0].info.name] else []) + PolledNames(cases[1..])
  }

  /** No receipt's download raises, so the handler runs to the end. */
  predicate NoDownloadRaises(cases: seq<FileCase>)
  {
    forall i :: 0 <= i < |cases| ==> !(IsReceipt(cases[i].info) && cases[i].download.DownloadRaised?)
  }

  /** When no download raises, the handler posts exactly one reply per receipt
      file and starts exactly one poller per receipt that was downloaded and
      accepted, keyed by that file's name, in file order. */
  lemma {:induction false} PollersMatchAcceptedFiles(ev: Event, cases: seq<FileCase>, category: string)
    requires NoDownloadRaises(cases)
    ensures var r := HandleFiles(ev, cases, category);
            && r.aborted.None?
            && PollerKeys(r.actions) == PolledNames(cases)
            && ReplyCount(r.actions) == |Receipts(cases)|
    decreases |cases|
  {
    if cases != [] {
      var c := cases[0];
      assert NoDownloadRaises(cases[1..]) by {
        forall i | 0 <= i < |cases[1..]|
          ensures !(IsReceipt(cases[1..][i].info) && cases[1..][i].download.DownloadRaised?)
        {
          assert cases[1..][i] == cases[i + 1];
        }
      }
      PollersMatchAcceptedFiles(ev, cases[1..], category);
      var first := HandleFile(ev, c, category);
      var rest := HandleFiles(ev, cases[1..], category);
      assert !(IsReceipt(c.info) && c.download.DownloadRaised?);
      CountsAppend(first.actions, rest.actions);
      FileCounts(ev, c, category);
    }
  }

  /** The handler does not guard against two files with the same name: both
      are submitted under the same `externalID` and both get a poller. */
  lemma SameNameStartsTwoPollers(ev: Event, c1: FileCase, c2: FileCase, category: string)
    requires StartsPoller(c1) && StartsPoller(c2) && c1.info.name == c2.info.name
    ensures PollerKeys(HandleFiles(ev, [c1, c2], category).actions) == [c1.info.name, c1.info.name]
  {
    PollersMatchAcceptedFiles(ev, [c1, c2], category);
    assert PolledNames([c1, c2]) == [c1.info.name] + PolledNames([c2]) by {
      assert [c1, c2][1..] == [c2];
    }
    assert PolledNames([c2]) == [c2.info.name] + PolledNames([]) by {
      assert [c2][1..] == [];
    }
  }
}
