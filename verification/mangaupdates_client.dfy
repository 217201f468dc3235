/** The MangaUpdates API client: the requests it builds, the loops that re-send a request while
    the server answers 412, the success check, reading-list lookup-or-create, series-ID discovery
    from a series page, and which URLs carry the session token. The server is a script of
    responses, read one per request sent. */
module MangaUpdatesClient {
  import opened Wrappers
  import opened Seqs
  import opened Strings

  const ApiHost: string := "api.mangaupdates.com"
  const SiteHost: string := "www.mangaupdates.com"
  const ApiVersion: string := "v1"
  const PreconditionFailed: int := 412
  const NotFound: int := 404

  /** `HttpStatusCode.isSuccess()`. */
  predicate IsSuccess(status: int) {
    200 <= status <= 299
  }

  /** `ListType`; the client only ever creates `READ` lists. */
  datatype ListType = Read | Wish | Complete | Unfinished | Hold {
    /** The name the type is serialized under. */
    function SerialName(): string {
      match this
      case Read => "read"
      case Wish => "wish"
      case Complete => "complete"
      case Unfinished => "unfinished"
      case Hold => "hold"
    }
  }

  /** One object of the by-title payload. */
  datatype TitleEntry = TitleEntry(priority: string, seriesTitle: string)

  /** A request body: none, a hand-built JSON text, the by-title JSON array, or the JSON object
      that creates a list. */
  datatype Body =
    | NoBody
    | Text(text: string)
    | Entries(entries: seq<TitleEntry>)
    | NewList(title: string, description: string, listType: ListType)

  datatype Method = Get | Post

  /** An HTTPS request: method, host, path segments, query parameters and body. */
  datatype Request = Request(verb: Method, host: string, path: seq<string>, query: seq<(string, string)>, body: Body)

  /** `ListData`, reduced to the fields the client reads. */
  datatype ListData = ListData(listId: string, title: string)

  /** `TitleError`: a series the bulk add rejected, and why. */
  datatype TitleError = TitleError(seriesName: string, error: string)

  /** What a response body decodes to: a JSON array of lists, a `CreateCustomListResponse`, a
      `BulkTitleAddResponse` (whose `context` may be missing), another JSON object, or no JSON. */
  datatype Decoded =
    | Lists(lists: seq<ListData>)
    | Created(id: string)
    | Bulk(status: string, errors: Option<seq<TitleError>>)
    | OtherObject
    | NotJson

  predicate IsObject(d: Decoded) {
    d.Created? || d.Bulk? || d.OtherObject?
  }

  /** A response: its status, its body as text, and how the body decodes. */
  datatype Response = Response(status: int, text: string, decoded: Decoded)

  /** What a call can throw: `UnexpectedMUApiResponseException` for a non-success status, the
      decoding error raised when a body does not have the shape the client reads it as, or the
      `NullPointerException` of a `!!` applied to a missing value. */
  datatype Failure = UnexpectedResponse(status: int) | UndecodableBody(status: int) | NullPointer

  /** How a call ends: with a value, with an exception, or waiting on a server that the script
      says no more about. */
  datatype Outcome<R> = Done(value: R) | Threw(failure: Failure) | Unanswered

  /** A call: how it ended and the requests it sent, in order (it read one response per request). */
  datatype Call<R> = Call(outcome: Outcome<R>, sent: seq<Request>)

  // ---------------------------------------------------------------------------------------
  // Sending.

  /** A request sent once. */
  function SendOnce(req: Request, script: seq<Response>): (c: Call<Response>)
    ensures |c.sent| <= |script| && forall i :: 0 <= i < |c.sent| ==> c.sent[i] == req
    ensures c.outcome.Done? <==> script != []
    ensures c.outcome.Done? ==> |c.sent| == 1 && c.outcome.value == script[0]
    ensures !c.outcome.Threw?
  {
    if script == [] then Call(Unanswered, []) else Call(Done(script[0]), [req])
  }

  /** The `while (response.status == PreconditionFailed)` loops: the same request is sent again
      (after a 5-second pause) as long as the answer is 412. The answer acted on is the first one
      that is not 412; every answer before it was 412. */
  function SendRetrying(req: Request, script: seq<Response>): (c: Call<Response>)
    ensures |c.sent| <= |script| && (script != [] ==> 1 <= |c.sent|)
    ensures script == [] ==> c.outcome.Unanswered?
    ensures forall i :: 0 <= i < |c.sent| ==> c.sent[i] == req
    ensures forall i :: 0 <= i < |c.sent| - 1 ==> script[i].status == PreconditionFailed
    ensures !c.outcome.Threw?
    ensures c.outcome.Done? ==> c.outcome.value == script[|c.sent| - 1]
    ensures c.outcome.Done? ==> c.outcome.value.status != PreconditionFailed
    ensures c.outcome.Unanswered? ==> |c.sent| == |script|
    ensures c.outcome.Unanswered? ==> forall i :: 0 <= i < |script| ==> script[i].status == PreconditionFailed
    decreases |script|
  {
    if script == [] then Call(Unanswered, [])
    else if script[0].status == PreconditionFailed then
      var rest := SendRetrying(req, script[1..]);
      Call(rest.outcome, [req] + rest.sent)
    else Call(Done(script[0]), [req])
  }

  /** The check after the loop: a success answer is returned, any other is thrown as
      `UnexpectedMUApiResponseException` -- unless building the message needs the body as a JSON
      object (`messageReadsObject`) and it is not one, which throws a decoding error instead. */
  function Check(r: Response, messageReadsObject: bool): (o: Outcome<Response>)
    ensures o.Done? <==> IsSuccess(r.status)
    ensures o.Done? ==> o.value == r
    ensures o.Threw? && !messageReadsObject ==> o.failure == UnexpectedResponse(r.status)
    ensures o.Threw? && messageReadsObject ==>
              o.failure == (if IsObject(r.decoded) then UnexpectedResponse(r.status) else UndecodableBody(r.status))
    ensures !o.Unanswered?
  {
    if IsSuccess(r.status) then Done(r)
    else if messageReadsObject && !IsObject(r.decoded) then Threw(UndecodableBody(r.status))
    else Threw(UnexpectedResponse(r.status))
  }

  /** What one checked call does, stated on the answers alone: only `req` is sent, one answer
      read per sending; every answer but the last one read was 412; the last one read is
      returned exactly when it is a success and otherwise thrown; and nothing is thrown or
      returned when every answer was 412. */
  ghost predicate CheckedCall(req: Request, script: seq<Response>, messageReadsObject: bool, c: Call<Response>) {
    && |c.sent| <= |script|
    && (forall i :: 0 <= i < |c.sent| ==> c.sent[i] == req)
    && (forall i :: 0 <= i < |c.sent| - 1 ==> script[i].status == PreconditionFailed)
    && (c.outcome.Unanswered? <==> |c.sent| == |script| && forall i :: 0 <= i < |script| ==> script[i].status == PreconditionFailed)
    && (!c.outcome.Unanswered? ==>
          && c.sent != []
          && var last := script[|c.sent| - 1];
          && last.status != PreconditionFailed
          && (c.outcome.Done? <==> IsSuccess(last.status))
          && (c.outcome.Done? ==> c.outcome.value == last)
          && (c.outcome.Threw? ==> c.outcome.failure == Check(last, messageReadsObject).failure))
  }

  /** `SendRetrying` followed by `Check`. */
  function SendChecked(req: Request, script: seq<Response>, messageReadsObject: bool): (c: Call<Response>)
    ensures CheckedCall(req, script, messageReadsObject, c)
  {
    var c := SendRetrying(req, script);
    match c.outcome
    case Done(r) => Call(Check(r, messageReadsObject), c.sent)
    case Threw(f) => Call(Threw(f), c.sent)
    case Unanswered => Call(Unanswered, c.sent)
  }

  // ---------------------------------------------------------------------------------------
  // The client's calls.

  /** `fetchLists`: GET /v1/lists, sent once. */
  function ListsRequest(): Request {
    Request(Get, ApiHost, [ApiVersion, "lists"], [], NoBody)
  }

  function FetchLists(script: seq<Response>): (c: Call<seq<ListData>>)
    ensures c.sent == SendOnce(ListsRequest(), script).sent
    ensures c.outcome.Done? <==> script != [] && IsSuccess(script[0].status) && script[0].decoded.Lists?
    ensures c.outcome.Done? ==> c.outcome.value == script[0].decoded.lists
    ensures script != [] && !IsSuccess(script[0].status) && IsObject(script[0].decoded) ==>
              c.outcome == Threw(UnexpectedResponse(script[0].status))
  {
    var c := SendOnce(ListsRequest(), script);
    match c.outcome
    case Done(r) =>
      (match Check(r, true)
       case Done(_) => Call(if r.decoded.Lists? then Done(r.decoded.lists) else Threw(UndecodableBody(r.status)), c.sent)
       case Threw(f) => Call(Threw(f), c.sent)
       case Unanswered => Call(Unanswered, c.sent))
    case Threw(f) => Call(Threw(f), c.sent)
    case Unanswered => Call(Unanswered, c.sent)
  }

  /** The text of one series object in the by-ID body, spacing included. */
  function IdObject(listId: string): string -> string {
    (id: string) => "{\"series\":{\"id\":    " + id + "},\"list_id\":   " + listId + "}"
  }

  /** What the loop appends per ID: the object and a comma. */
  function IdEntry(listId: string): string -> string {
    (id: string) => IdObject(listId)(id) + ","
  }

  /** `addTitlesToListById`'s body, built as written: "[", one entry per ID, the trailing comma
      removed, "]". */
  function ByIdBody(ids: seq<string>, listId: string): string {
    RemoveSuffix("[" + ConcatMap(IdEntry(listId), ids), ",") + "]"
  }

  /** Entries laid end to end are the objects joined by commas, plus one comma. */
  lemma {:induction false} EntriesAreJoinedObjects(ids: seq<string>, listId: string)
    requires ids != []
    ensures ConcatMap(IdEntry(listId), ids) == Join(MapSeq(IdObject(listId), ids), ",") + ","
    decreases |ids|
  {
    var init := ids[..|ids| - 1];
    var objects := MapSeq(IdObject(listId), ids);
    var last := IdObject(listId)(ids[|ids| - 1]);
    assert IdEntry(listId)(ids[|ids| - 1]) == last + ",";
    if init == [] {
      assert ConcatMap(IdEntry(listId), init) == [];
    } else {
      EntriesAreJoinedObjects(init, listId);
      assert objects[..|objects| - 1] == MapSeq(IdObject(listId), init);
      var before := Join(MapSeq(IdObject(listId), init), ",");
      AppendAssoc(before + ",", last, ",");
    }
  }

  /** The by-ID body is a JSON array of the series objects, in order; "[]" for no IDs. */
  lemma ByIdBodyIsArray(ids: seq<string>, listId: string)
    ensures ByIdBody(ids, listId) == "[" + Join(MapSeq(IdObject(listId), ids), ",") + "]"
    ensures ids == [] ==> ByIdBody(ids, listId) == "[]"
  {
    if ids == [] {
      assert !EndsWith("[", ",");
    } else {
      var joined := Join(MapSeq(IdObject(listId), ids), ",");
      EntriesAreJoinedObjects(ids, listId);
      AppendAssoc("[", joined, ",");
      RemoveAddedSuffix("[" + joined, ",");
    }
  }

  function ByIdRequest(ids: seq<string>, listId: string): Request {
    Request(Post, ApiHost, [ApiVersion, "lists", "series"], [], Text(ByIdBody(ids, listId)))
  }

  /** `addTitlesToListById`: the body above, re-sent while 412, then checked. */
  function AddTitlesToListById(ids: seq<string>, listId: string, script: seq<Response>): (c: Call<Response>)
    ensures CheckedCall(ByIdRequest(ids, listId), script, true, c)
  {
    SendChecked(ByIdRequest(ids, listId), script, true)
  }

  /** The by-title payload: one entry per title, in order, each with priority "High". */
  function TitleEntries(titles: seq<string>): (es: seq<TitleEntry>)
    ensures |es| == |titles|
    ensures forall i :: 0 <= i < |titles| ==> es[i] == TitleEntry("High", titles[i])
  {
    MapSeq((t: string) => TitleEntry("High", t), titles)
  }

  function ByTitleRequest(titles: seq<string>, listId: string): Request {
    Request(Post, ApiHost, [ApiVersion, "lists", listId, "series", "bulk"], [], Entries(TitleEntries(titles)))
  }

  /** `addTitlesToListByTitle`: the payload above, re-sent while 412, then checked. */
  function AddTitlesToListByTitle(titles: seq<string>, listId: string, script: seq<Response>): (c: Call<Response>)
    ensures CheckedCall(ByTitleRequest(titles, listId), script, true, c)
  {
    SendChecked(ByTitleRequest(titles, listId), script, true)
  }

  // ---------------------------------------------------------------------------------------
  // Series ID discovery.

  function SeriesPageRequest(pageId: string): Request {
    Request(Get, SiteHost, ["series", pageId], [], NoBody)
  }

  function SeriesHtmlRequest(pageId: string): Request {
    Request(Get, SiteHost, ["series.html"], [("id", pageId)], NoBody)
  }

  /** Line terminators, which a regular-expression `.` does not match. */
  predicate IsLineEnd(c: char) {
    c == '\n' || c == '\r' || c == '\U{85}' || c == '\U{2028}' || c == '\U{2029}'
  }

  /** The pattern around the captured digits, character by character; every `.` in it is the
      regular-expression wildcard (the pattern escapes its slashes but not its dots). */
  const Lead: string := "href=\"https://api.mangaupdates.com/v1/series/"
  const Tail: string := "/rss\">"

  predicate Fits(p: char, c: char) {
    if p == '.' then !IsLineEnd(c) else c == p
  }

  /** `pattern` matches `s` starting at position `i`. */
  predicate FitsAt(pattern: string, s: string, i: nat) {
    i + |pattern| <= |s| && forall k :: 0 <= k < |pattern| ==> Fits(pattern[k], s[i + k])
  }

  /** Length of the run of ASCII digits starting at `i`. */
  function DigitRun(s: string, i: nat): (n: nat)
    requires i <= |s|
    ensures i + n <= |s|
    ensures forall k :: i <= k < i + n ==> IsDigit(s[k])
    ensures i + n < |s| ==> !IsDigit(s[i + n])
    decreases |s| - i
  {
    if i < |s| && IsDigit(s[i]) then 1 + DigitRun(s, i + 1) else 0
  }

  /** The regular expression matches at `i` with a group of `n` digits: its meaning, read
      directly off the pattern. */
  predicate MatchesWith(s: string, i: nat, n: nat) {
    var j := i + |Lead|;
    && FitsAt(Lead, s, i)
    && 1 <= n && j + n <= |s|
    && (forall k :: j <= k < j + n ==> IsDigit(s[k]))
    && FitsAt(Tail, s, j + n)
  }

  /** The match at `i` as the engine finds it: the greedy digit run, then the tail. */
  predicate MatchAt(s: string, i: nat) {
    var j := i + |Lead|;
    FitsAt(Lead, s, i) && 1 <= DigitRun(s, j) && FitsAt(Tail, s, j + DigitRun(s, j))
  }

  /** A match with some digit group is exactly a match with the greedy one: backtracking can
      never shorten the group, because the tail starts with '/'. */
  lemma MatchAtMeansMatch(s: string, i: nat, n: nat)
    ensures MatchAt(s, i) ==> MatchesWith(s, i, DigitRun(s, i + |Lead|))
    ensures MatchesWith(s, i, n) ==> MatchAt(s, i) && n == DigitRun(s, i + |Lead|)
  {
    var j := i + |Lead|;
    if MatchesWith(s, i, n) {
      TailBeginsWithSlash(s, j + n);
    }
  }

  /** Where the tail fits there is a '/', so no digit. */
  lemma TailBeginsWithSlash(s: string, p: nat)
    requires FitsAt(Tail, s, p)
    ensures p < |s| && !IsDigit(s[p])
  {
    assert Fits(Tail[0], s[p]);
  }

  /** `Regex.find` from position `from`: the leftmost start at which the pattern matches. */
  function FindFrom(s: string, from: nat): (r: Option<nat>)
    ensures r.Some? ==> from <= r.value <= |s| && MatchAt(s, r.value)
    ensures r.Some? ==> forall k :: from <= k < r.value ==> !MatchAt(s, k)
    ensures r.None? ==> forall k :: from <= k <= |s| ==> !MatchAt(s, k)
    decreases |s| - from
  {
    if |s| < from then None
    else if MatchAt(s, from) then Some(from)
    else FindFrom(s, from + 1)
  }

  /** The first group of the leftmost match, or "" when the page holds no match (the
      `NullPointerException` the missing match raises is caught and turned into ""). */
  function ExtractSeriesId(page: string): (id: string)
    ensures id == "" <==> forall k :: 0 <= k <= |page| ==> !MatchAt(page, k)
    ensures id != "" ==> AllDigits(id)
  {
    match FindFrom(page, 0)
    case None => ""
    case Some(i) =>
      var j := i + |Lead|;
      page[j..j + DigitRun(page, j)]
  }

  /** A piece of text that fits a pattern character by character fits wherever it occurs. */
  lemma FitsWhereItOccurs(pattern: string, piece: string, s: string, i: nat)
    requires |piece| == |pattern| && forall k :: 0 <= k < |pattern| ==> Fits(pattern[k], piece[k])
    requires i + |piece| <= |s| && s[i..i + |piece|] == piece
    ensures FitsAt(pattern, s, i)
  {
    forall k | 0 <= k < |pattern| ensures Fits(pattern[k], s[i + k]) {
      assert s[i + k] == piece[k];
    }
  }

  /** Digits that occur in a text are digits of it. */
  lemma DigitsWhereTheyOccur(digits: string, s: string, j: nat)
    requires AllDigits(digits) && j + |digits| <= |s| && s[j..j + |digits|] == digits
    ensures forall k :: j <= k < j + |digits| ==> IsDigit(s[k])
  {
    forall k | j <= k < j + |digits| ensures IsDigit(s[k]) {
      assert s[k] == digits[k - j];
    }
  }

  /** The slices of a text made of four parts. */
  lemma FourParts(a: string, b: string, c: string, d: string)
    ensures var s := a + b + c + d;
            && s[..|a|] == s[0..|a|] == a
            && s[|a|..|a| + |b|] == b
            && s[|a| + |b|..|a| + |b| + |c|] == c
  {
  }

  /** A link whose text fits the pattern -- the dots standing for any non-terminator character --
      yields its digits when it begins the page. */
  lemma DotsAreWildcards(lead: string, digits: string, rest: string)
    requires |lead| == |Lead|
    requires forall k :: 0 <= k < |Lead| ==> Fits(Lead[k], lead[k])
    requires digits != [] && AllDigits(digits)
    ensures ExtractSeriesId(lead + digits + Tail + rest) == digits
  {
    var page := lead + digits + Tail + rest;
    var j := |lead|;
    FourParts(lead, digits, Tail, rest);
    FitsWhereItOccurs(Lead, lead, page, 0);
    DigitsWhereTheyOccur(digits, page, j);
    assert forall k :: 0 <= k < |Tail| ==> Fits(Tail[k], Tail[k]);
    FitsWhereItOccurs(Tail, Tail, page, j + |digits|);
    assert MatchesWith(page, 0, |digits|);
    ExtractAtStart(page, |digits|);
  }

  /** A page the pattern matches from its first character yields the digits of that match. */
  lemma ExtractAtStart(page: string, n: nat)
    requires MatchesWith(page, 0, n)
    ensures ExtractSeriesId(page) == page[|Lead|..|Lead| + n]
  {
    MatchAtMeansMatch(page, 0, n);
    var found := FindFrom(page, 0);
    assert found == Some(0);
  }

  /** A page that begins with the RSS link of series `digits` yields `digits`. */
  lemma ExtractFromLink(digits: string, rest: string)
    requires digits != [] && AllDigits(digits)
    ensures ExtractSeriesId(Lead + digits + Tail + rest) == digits
  {
    assert forall k :: 0 <= k < |Lead| ==> Fits(Lead[k], Lead[k]);
    DotsAreWildcards(Lead, digits, rest);
  }

  /** The call's end: a success answer's page is searched for the ID, anything else throws. */
  function Finish(r: Response): (o: Outcome<string>)
    ensures o.Done? <==> IsSuccess(r.status)
    ensures o.Threw? ==> o.failure == UnexpectedResponse(r.status)
    ensures o.Done? ==> o.value == ExtractSeriesId(r.text)
  {
    if IsSuccess(r.status) then Done(ExtractSeriesId(r.text)) else Threw(UnexpectedResponse(r.status))
  }

  /** `getTitleId`: the series page for the trimmed ID, re-sent while 412; if that is 404, the
      old-style `series.html?id=` page, re-sent while 412; then the success check and the search. */
  function GetTitleId(pageId: string, script: seq<Response>): (c: Call<string>)
    ensures |c.sent| <= |script|
    ensures c.outcome.Done? ==> c.outcome.value == "" || AllDigits(c.outcome.value)
    ensures var first := SendRetrying(SeriesPageRequest(Trim(pageId, QuoteOrWhitespace)), script);
            && |first.sent| <= |c.sent|
            && c.sent[..|first.sent|] == first.sent
            && (first.outcome.Unanswered? ==> c.outcome.Unanswered?)
            && (first.outcome.Done? && first.outcome.value.status != NotFound ==>
                  c.outcome == Finish(first.outcome.value) && c.sent == first.sent)
            && (first.outcome.Done? && first.outcome.value.status == NotFound ==>
                  var second := SendRetrying(SeriesHtmlRequest(Trim(pageId, QuoteOrWhitespace)), script[|first.sent|..]);
                  && c.sent == first.sent + second.sent
                  && (second.outcome.Done? ==> c.outcome == Finish(second.outcome.value))
                  && (second.outcome.Unanswered? ==> c.outcome.Unanswered?))
  {
    var id := Trim(pageId, QuoteOrWhitespace);
    var first := SendRetrying(SeriesPageRequest(id), script);
    match first.outcome
    case Done(r) =>
      if r.status == NotFound then
        var second := SendRetrying(SeriesHtmlRequest(id), script[|first.sent|..]);
        (match second.outcome
         case Done(r2) => Call(Finish(r2), first.sent + second.sent)
         case Threw(f) => Call(Threw(f), first.sent + second.sent)
         case Unanswered => Call(Unanswered, first.sent + second.sent))
      else Call(Finish(r), first.sent)
    case Threw(f) => Call(Threw(f), first.sent)
    case Unanswered => Call(Unanswered, first.sent)
  }

  /** A 404 for the series page sends the old-style page request and reads the ID from its answer. */
  lemma GetTitleIdFallsBack(pageId: string, missing: Response, found: Response)
    requires missing.status == NotFound && IsSuccess(found.status)
    ensures var id := Trim(pageId, QuoteOrWhitespace);
            GetTitleId(pageId, [missing, found]) ==
              Call(Done(ExtractSeriesId(found.text)), [SeriesPageRequest(id), SeriesHtmlRequest(id)])
  {
    assert [missing, found][1..] == [found];
  }

  // ---------------------------------------------------------------------------------------
  // Reading lists.

  /** `makeList`: POST /v1/lists with the title, description and type, re-sent while 412,
      checked, and the new list's ID read from the answer. */
  function MakeListRequest(title: string, description: string, listType: ListType): Request {
    Request(Post, ApiHost, [ApiVersion, "lists"], [], NewList(title, description, listType))
  }

  function MakeList(title: string, description: string, listType: ListType, script: seq<Response>): (c: Call<string>)
    ensures |c.sent| <= |script|
    ensures forall i :: 0 <= i < |c.sent| ==> c.sent[i] == MakeListRequest(title, description, listType)
    ensures forall i :: 0 <= i < |c.sent| - 1 ==> script[i].status == PreconditionFailed
    ensures c.outcome.Unanswered? <==> |c.sent| == |script| && forall i :: 0 <= i < |script| ==> script[i].status == PreconditionFailed
    ensures !c.outcome.Unanswered? ==>
              && c.sent != []
              && var last := script[|c.sent| - 1];
              && last.status != PreconditionFailed
              && (c.outcome.Done? <==> IsSuccess(last.status) && last.decoded.Created?)
              && (c.outcome.Done? ==> c.outcome.value == last.decoded.id)
              && (c.outcome.Threw? && IsSuccess(last.status) ==> c.outcome.failure == UndecodableBody(last.status))
              && (c.outcome.Threw? && !IsSuccess(last.status) ==> c.outcome.failure == UnexpectedResponse(last.status))
  {
    var c := SendChecked(MakeListRequest(title, description, listType), script, false);
    match c.outcome
    case Done(r) => Call(if r.decoded.Created? then Done(r.decoded.id) else Threw(UndecodableBody(r.status)), c.sent)
    case Threw(f) => Call(Threw(f), c.sent)
    case Unanswered => Call(Unanswered, c.sent)
  }

  /** `firstOrNull { it.title == title }`, as a position. */
  function FirstWithTitle(lists: seq<ListData>, title: string): (r: Option<nat>)
    ensures r.Some? ==> r.value < |lists| && lists[r.value].title == title
    ensures r.Some? ==> forall k :: 0 <= k < r.value ==> lists[k].title != title
    ensures r.None? <==> forall k :: 0 <= k < |lists| ==> lists[k].title != title
  {
    if lists == [] then None
    else if lists[0].title == title then Some(0)
    else match FirstWithTitle(lists[1..], title)
      case None => None
      case Some(k) => Some(k + 1)
  }

  /** `getListId`: the ID of the first list with the title, otherwise a new read list made with
      the description rendered by `toString` (so a missing description becomes "null"). */
  function GetListId(title: string, description: Option<string>, script: seq<Response>): (c: Call<string>)
    ensures |c.sent| <= |script|
    ensures script != [] ==> c.sent != [] && c.sent[0] == ListsRequest()
    ensures c.outcome.Done? ==> script != [] && IsSuccess(script[0].status) && script[0].decoded.Lists?
    ensures script != [] && !IsSuccess(script[0].status) ==> c.sent == [ListsRequest()] && c.outcome.Threw?
  {
    var fetched := FetchLists(script);
    match fetched.outcome
    case Done(lists) =>
      (match FirstWithTitle(lists, title)
       case Some(k) => Call(Done(lists[k].listId), fetched.sent)
       case None =>
         var made := MakeList(title, Rendered(description), Read, script[|fetched.sent|..]);
         Call(made.outcome, fetched.sent + made.sent))
    case Threw(f) => Call(Threw(f), fetched.sent)
    case Unanswered => Call(Unanswered, fetched.sent)
  }

  /** When a list with the title exists, its ID is returned after the one lookup request. */
  lemma GetListIdFinds(title: string, description: Option<string>, answer: Response, rest: seq<Response>)
    requires IsSuccess(answer.status) && answer.decoded.Lists?
    requires exists k :: 0 <= k < |answer.decoded.lists| && answer.decoded.lists[k].title == title
    ensures var lists := answer.decoded.lists;
            var k := FirstWithTitle(lists, title);
            && k.Some?
            && GetListId(title, description, [answer] + rest) == Call(Done(lists[k.value].listId), [ListsRequest()])
  {
  }

  /** When none exists, a read list with that title is created, its description rendered. */
  lemma GetListIdCreates(title: string, description: Option<string>, answer: Response, rest: seq<Response>)
    requires IsSuccess(answer.status) && answer.decoded.Lists?
    requires forall k :: 0 <= k < |answer.decoded.lists| ==> answer.decoded.lists[k].title != title
    ensures var made := MakeList(title, Rendered(description), Read, rest);
            GetListId(title, description, [answer] + rest) == Call(made.outcome, [ListsRequest()] + made.sent)
  {
    assert ([answer] + rest)[1..] == rest;
  }

  // ---------------------------------------------------------------------------------------
  // Authentication.

  /** The login endpoint, the one API path sent without the session token. */
  const LoginPath: seq<string> := [ApiVersion, "account", "login"]

  /** `urlRequiresAuth`: whether the bearer token is sent with a request before the server asks. */
  function UrlRequiresAuth(host: string, segments: seq<string>): (r: bool)
  {
    if host != ApiHost then false
    else if |segments| < 2 then false
    else if |segments| == 3 && segments[1] == "account" && segments[2] == "login" then false
    else true
  }

  /** The token goes with every reading-list call and with nothing else the client sends: not the
      series pages and not the login itself. */
  lemma TokenOnlyForListCalls(ids: seq<string>, titles: seq<string>, listId: string, pageId: string,
                              title: string, description: string, listType: ListType)
    ensures UrlRequiresAuth(ListsRequest().host, ListsRequest().path)
    ensures UrlRequiresAuth(ByIdRequest(ids, listId).host, ByIdRequest(ids, listId).path)
    ensures UrlRequiresAuth(ByTitleRequest(titles, listId).host, ByTitleRequest(titles, listId).path)
    ensures var m := MakeListRequest(title, description, listType); UrlRequiresAuth(m.host, m.path)
    ensures !UrlRequiresAuth(SeriesPageRequest(pageId).host, SeriesPageRequest(pageId).path)
    ensures !UrlRequiresAuth(SeriesHtmlRequest(pageId).host, SeriesHtmlRequest(pageId).path)
    ensures !UrlRequiresAuth(ApiHost, LoginPath)
  {
  }

  /** The rule in full: an API-host path of two or more segments, other than a three-segment one
      ending in account/login. */
  lemma UrlRequiresAuthMeans(host: string, segments: seq<string>)
    ensures UrlRequiresAuth(host, segments) <==>
              host == ApiHost && 2 <= |segments| && !(|segments| == 3 && segments[1..] == ["account", "login"])
  {
    if |segments| == 3 {
      assert segments[1..] == ["account", "login"] <==> segments[1] == "account" && segments[2] == "login";
    }
  }
}
