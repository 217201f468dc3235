/** Importing the followed series into a MangaUpdates reading list, by title or by MangaUpdates
    ID, in batches of 100, with the log lines the import publishes. The server is the script of
    responses the client reads; every import reads it from its start, in order. */
module MangaUpdatesImport {
  import opened Wrappers
  import opened Seqs
  import opened Strings
  import opened Titles
  import opened MangaUpdatesClient

  /** The reading list both imports add to (it is created if it does not exist). */
  const ListTitle: string := "MangaDex Reading List"
  const BatchSize: nat := 100
  const Beginning: string := "Beginning MangaUpdates export...\n"

  /** `LogType`: how the UI shows a published line. */
  datatype LogType = Standard | Warning | Error

  /** One published line and its kind. */
  datatype LogEntry = LogEntry(text: string, kind: LogType)

  /** What an import did: the lines it published, the requests it sent, the batches it handed to
      the server (in order), and how it ended. */
  datatype Run = Run(log: seq<LogEntry>, sent: seq<Request>, batches: seq<seq<string>>, outcome: Outcome<()>)

  function Min(a: nat, b: nat): nat {
    if a < b then a else b
  }

  // ---------------------------------------------------------------------------------------
  // Batching.

  /** `for (i in 0..n - 1 step 100)` with `subList(i, min(i + 100, n))`, from position `i`. */
  function BatchesFrom<T>(xs: seq<T>, i: nat): (r: seq<seq<T>>)
    requires i <= |xs|
    ensures forall k :: 0 <= k < |r| ==> 1 <= |r[k]| <= BatchSize
    ensures forall k :: 0 <= k < |r| - 1 ==> |r[k]| == BatchSize
    ensures i == |xs| <==> r == []
    decreases |xs| - i
  {
    if i == |xs| then []
    else
      var to := Min(i + BatchSize, |xs|);
      [xs[i..to]] + BatchesFrom(xs, to)
  }

  /** The batches hold every element once, in order: laid end to end they are the list. */
  lemma {:induction false} BatchesCover<T>(xs: seq<T>, i: nat)
    requires i <= |xs|
    ensures Flatten(BatchesFrom(xs, i)) == xs[i..]
    decreases |xs| - i
  {
    if i < |xs| {
      var to := Min(i + BatchSize, |xs|);
      var rest := BatchesFrom(xs, to);
      BatchesCover(xs, to);
      assert BatchesFrom(xs, i) == [xs[i..to]] + rest;
      assert ([xs[i..to]] + rest)[1..] == rest;
      assert xs[i..] == xs[i..to] + xs[to..];
    }
  }

  /** The number of batches is the length divided by 100, rounded up. */
  lemma {:induction false} BatchCount<T>(xs: seq<T>, i: nat)
    requires i <= |xs|
    ensures |BatchesFrom(xs, i)| == (|xs| - i + BatchSize - 1) / BatchSize
    decreases |xs| - i
  {
    if i < |xs| {
      BatchCount(xs, Min(i + BatchSize, |xs|));
    }
  }

  /** "Exporting titles i to j": the announcement of the batch from `i` up to `to`. */
  function Announce(i: nat, to: nat): LogEntry
    requires i < to
  {
    LogEntry("Exporting titles " + NatToString(i) + " to " + NatToString(to - 1) + "\n", Standard)
  }

  // ---------------------------------------------------------------------------------------
  // Import by title.

  /** The characters trimmed off a title before it is sent. */
  predicate TitleJunk(c: char) {
    c == '\'' || c == '"' || c == '\n' || c == '\r' || c == ' '
  }

  function SentTitle(t: Title): string {
    Trim(t.title, TitleJunk)
  }

  /** `TitleError.toString`: the quoted series name, a dash, the reason. */
  function ErrorText(e: TitleError): string {
    "\"" + e.seriesName + "\" - " + e.error
  }

  /** `joinToString("\n", "\t")`: a tab, then the errors one per line. */
  function ErrorList(es: seq<TitleError>): string {
    "\t" + Join(MapSeq(ErrorText, es), "\n")
  }

  /** What a bulk answer makes the import publish for the batch from `i` up to `to`: an error when
      the status starts with "partial" and every title of the batch failed, a warning when only
      some did, a success line otherwise; a partial answer without a context throws. */
  function BatchReport(i: nat, to: nat, status: string, errors: Option<seq<TitleError>>): (o: Outcome<LogEntry>)
    requires i < to
    ensures !o.Unanswered?
    ensures o.Threw? <==> StartsWith(status, "partial") && errors.None?
    ensures o.Threw? ==> o.failure == NullPointer
    ensures o.Done? && o.value.kind == Error <==>
              StartsWith(status, "partial") && errors.Some? && |errors.value| == to - i
    ensures o.Done? && o.value.kind == Warning <==>
              StartsWith(status, "partial") && errors.Some? && |errors.value| != to - i
    ensures o.Done? && o.value.kind == Standard <==> !StartsWith(status, "partial")
    ensures o.Done? && errors.Some? && StartsWith(status, "partial") ==> EndsWith(o.value.text, ErrorList(errors.value))
  {
    var count := to - i;
    if StartsWith(status, "partial") then
      match errors
      case None => Threw(NullPointer)
      case Some(es) =>
        if |es| == count then
          Done(LogEntry("Failed to add titles " + NatToString(i) + " to " + NatToString(to - 1) + ".\n" + ErrorList(es), Error))
        else
          Done(LogEntry("Failed to add some titles (" + NatToString(|es|) + " of " + NatToString(count) + ").\n" + ErrorList(es), Warning))
    else Done(LogEntry("Added " + NatToString(count) + " titles successfully\n", Standard))
  }

  /** The batch loop of `importToMangaUpdatesByTitle`, from position `i`: announce the batch, add
      it, publish the report, pause; any exception ends the import. */
  function ByTitleFrom(titles: seq<string>, listId: string, i: nat, script: seq<Response>): (r: Run)
    requires i <= |titles|
    ensures |r.sent| <= |script|
    ensures r.batches <= BatchesFrom(titles, i)
    ensures r.outcome.Done? ==> r.batches == BatchesFrom(titles, i) && |r.log| == 2 * |r.batches|
    decreases |titles| - i
  {
    if i == |titles| then Run([], [], [], Done(()))
    else
      var to := Min(i + BatchSize, |titles|);
      var batch := titles[i..to];
      var c := AddTitlesToListByTitle(batch, listId, script);
      match c.outcome
      case Done(answer) =>
        if !answer.decoded.Bulk? then Run([Announce(i, to)], c.sent, [batch], Threw(UndecodableBody(answer.status)))
        else
          var report := BatchReport(i, to, answer.decoded.status, answer.decoded.errors);
          if report.Threw? then Run([Announce(i, to)], c.sent, [batch], Threw(report.failure))
          else
            var rest := ByTitleFrom(titles, listId, to, script[|c.sent|..]);
            Run([Announce(i, to), report.value] + rest.log, c.sent + rest.sent, [batch] + rest.batches, rest.outcome)
      case Threw(f) => Run([Announce(i, to)], c.sent, [batch], Threw(f))
      case Unanswered => Run([Announce(i, to)], c.sent, [batch], Unanswered)
  }

  /** `importToMangaUpdatesByTitle`: find or make the reading list, then send every trimmed title,
      in order, in batches of at most 100. */
  function ImportByTitle(ts: seq<Title>, script: seq<Response>): (r: Run)
    ensures |r.sent| <= |script|
    ensures r.outcome.Done? ==> Flatten(r.batches) == MapSeq(SentTitle, ts)
    ensures r.outcome.Done? ==> |r.log| == 1 + 2 * |r.batches| && r.log[0] == LogEntry(Beginning, Standard)
  {
    var list := GetListId(ListTitle, None, script);
    match list.outcome
    case Done(listId) =>
      var titles := MapSeq(SentTitle, ts);
      var rest := ByTitleFrom(titles, listId, 0, script[|list.sent|..]);
      BatchesCover(titles, 0);
      Run([LogEntry(Beginning, Standard)] + rest.log, list.sent + rest.sent, rest.batches, rest.outcome)
    case Threw(f) => Run([], list.sent, [], Threw(f))
    case Unanswered => Run([], list.sent, [], Unanswered)
  }

  // ---------------------------------------------------------------------------------------
  // Import by ID.

  /** The series has a MangaUpdates link. */
  predicate HasMu(t: Title) {
    LinkValue(t, Mu).Some?
  }

  function Ignored(t: Title): LogEntry {
    LogEntry("Ignoring " + t.title + " because it doesn't have a title\n", Warning)
  }

  /** What the ID lookups did: the IDs found (one per series with a link, "" when the page had
      none), the lines published, the requests sent, and how the lookups ended. */
  datatype Lookup = Lookup(ids: seq<string>, log: seq<LogEntry>, sent: seq<Request>, outcome: Outcome<()>)

  /** The lookup loop of `importToMangaUpdatesByID`: a series without a MangaUpdates link is
      skipped with a warning; for the others the series page named by the link is fetched and
      the ID read from it, with a warning when none was found. A failed fetch ends the import. */
  function LookupIds(ts: seq<Title>, script: seq<Response>): (r: Lookup)
    ensures |r.sent| <= |script|
    ensures r.outcome.Done? ==> |r.ids| == |Filter(HasMu, ts)|
    ensures forall k :: 0 <= k < |r.ids| ==> r.ids[k] == "" || AllDigits(r.ids[k])
  {
    if ts == [] then Lookup([], [], [], Done(()))
    else
      var t := ts[0];
      if !HasMu(t) then
        var rest := LookupIds(ts[1..], script);
        Lookup(rest.ids, [Ignored(t)] + rest.log, rest.sent, rest.outcome)
      else
        var mu := LinkValue(t, Mu).value;
        var fetching := LogEntry("Fetching ID for " + t.title + "\n", Standard);
        var c := GetTitleId(mu, script);
        match c.outcome
        case Done(id) =>
          var missing := if id == "" then [LogEntry("Could not get MangaUpdates page for " + t.title + " (" + mu + ")\n", Warning)] else [];
          var got := LogEntry("Got ID for " + t.title + ": " + id + "\n", Standard);
          var rest := LookupIds(ts[1..], script[|c.sent|..]);
          Lookup([id] + rest.ids, [fetching] + missing + [got] + rest.log, c.sent + rest.sent, rest.outcome)
        case Threw(f) => Lookup([], [fetching], c.sent, Threw(f))
        case Unanswered => Lookup([], [fetching], c.sent, Unanswered)
  }

  /** Series without a MangaUpdates link cost no request: each is only named in a warning. */
  lemma {:induction false} UnlinkedAreOnlyWarned(ts: seq<Title>, script: seq<Response>)
    requires forall k :: 0 <= k < |ts| ==> !HasMu(ts[k])
    ensures LookupIds(ts, script) == Lookup([], MapSeq(Ignored, ts), [], Done(()))
  {
    if ts != [] {
      UnlinkedAreOnlyWarned(ts[1..], script);
    }
  }

  /** How `$e` renders the exception in the error line, abbreviated: `Throwable.toString` gives the
      qualified class name, ": " and the message; the model keeps the class's simple name and the
      status. */
  function FailureText(status: int): string {
    "UnexpectedMUApiResponseException: " + IntToString(status)
  }

  /** The batch loop of `importToMangaUpdatesByID`, from position `i`: announce the batch, add it,
      publish the server's answer; a rejected batch is reported as an error and the loop goes on,
      so only an undecodable rejection can end it early. */
  function ByIdFrom(ids: seq<string>, listId: string, i: nat, script: seq<Response>): (r: Run)
    requires i <= |ids|
    ensures |r.sent| <= |script|
    ensures r.batches <= BatchesFrom(ids, i)
    ensures r.outcome.Threw? ==> r.outcome.failure.UndecodableBody?
    ensures r.outcome.Done? ==> r.batches == BatchesFrom(ids, i) && |r.log| == 2 * |r.batches|
    decreases |ids| - i
  {
    if i == |ids| then Run([], [], [], Done(()))
    else
      var to := Min(i + BatchSize, |ids|);
      var batch := ids[i..to];
      var c := AddTitlesToListById(batch, listId, script);
      match c.outcome
      case Done(answer) =>
        var rest := ByIdFrom(ids, listId, to, script[|c.sent|..]);
        var finished := LogEntry("Finished with response: " + answer.text + "\n", Standard);
        Run([Announce(i, to), finished] + rest.log, c.sent + rest.sent, [batch] + rest.batches, rest.outcome)
      case Threw(f) =>
        if f.UnexpectedResponse? then
          var rest := ByIdFrom(ids, listId, to, script[|c.sent|..]);
          var failed := LogEntry("Export of titles (" + NatToString(i) + " -> " + NatToString(to - 1)
                                 + ") failed due to a non-success code: " + FailureText(f.status) + "\n", Error);
          Run([Announce(i, to), failed] + rest.log, c.sent + rest.sent, [batch] + rest.batches, rest.outcome)
        else Run([Announce(i, to)], c.sent, [batch], Threw(f))
      case Unanswered => Run([Announce(i, to)], c.sent, [batch], Unanswered)
  }

  /** `importToMangaUpdatesByID`: find or make the reading list, look up the IDs, then send them
      in batches of at most 100. */
  function ImportById(ts: seq<Title>, script: seq<Response>): (r: Run)
    ensures |r.sent| <= |script|
    ensures r.outcome.Done? ==> |Flatten(r.batches)| == |Filter(HasMu, ts)|
  {
    var list := GetListId(ListTitle, None, script);
    match list.outcome
    case Done(listId) =>
      var found := LookupIds(ts, script[|list.sent|..]);
      if !found.outcome.Done? then Run(found.log, list.sent + found.sent, [], found.outcome)
      else
        var rest := ByIdFrom(found.ids, listId, 0, script[|list.sent| + |found.sent|..]);
        BatchesCover(found.ids, 0);
        Run(found.log + [LogEntry(Beginning, Standard)] + rest.log, list.sent + found.sent + rest.sent, rest.batches, rest.outcome)
    case Threw(f) => Run([], list.sent, [], Threw(f))
    case Unanswered => Run([], list.sent, [], Unanswered)
  }
}
