/** The follows-list fetch of `MangadexApi.Client.getAllFollowedManga` and its UI twin
    `MangadexApiClientWorker.fetchTitles`, as a state machine driven by a scripted sequence of
    server responses. Each fetch consumes the next response of the script; a script that runs
    out before the loop stops yields `OutOfResponses` (the program would simply keep asking).
    The per-title mapper (`toSimplifiedMangaInfo`) is a parameter and stays uninterpreted. */
module MangadexClient {
  import opened Wrappers
  import opened Seqs
  import Strings

  const AuthHost: string := "auth.mangadex.org"
  const ApiHost: string := "api.mangadex.org"
  const FollowsPath: seq<string> := ["user", "follows", "manga"]

  /** Initial value of `expectedTotal`, before any page has reported the real total. */
  const SentinelTotal: int := 99
  /** Fetch attempts per outer iteration (`for (i in 1..5)`). */
  const AttemptsPerBatch: nat := 5
  /** Pause before the first fetch and after every batch. */
  const PauseMillis: int := 1000
  /** Header text used when neither rate-limit header is present. */
  const FallbackRetryHeader: string := "60000"
  /** Wait used when the header text does not parse. */
  const FallbackWaitMillis: int := 60000

  /** `urlRequiresAuth`: whether the bearer token is attached to a request up front. */
  function UrlRequiresAuth(host: string, segments: seq<string>): (b: bool)
    ensures b <==> host != AuthHost && |segments| > 0 && segments[0] == "user"
  {
    if host == AuthHost then false
    else if |segments| == 0 then false
    else segments[0] == "user"
  }

  /** The follows request carries the token; the token endpoint and the bare host do not. */
  lemma FollowsRequestRequiresAuth()
    ensures UrlRequiresAuth(ApiHost, FollowsPath)
    ensures !UrlRequiresAuth(AuthHost, ["realms", "mangadex", "protocol", "openid-connect", "token"])
    ensures !UrlRequiresAuth(ApiHost, [])
  {
  }

  /** One answer of the follows endpoint. A rate-limited answer carries the two header values and
      the clock reading (`System.currentTimeMillis()`) taken when the wait is computed. */
  datatype Response<M> =
    | Success(items: seq<M>, total: int)
    | RateLimited(now: int, retryAfter: Option<string>, xRetryAfter: Option<string>)
    | Unexpected(status: int)

  /** What the loop does besides bookkeeping: requests sent and delays taken. */
  datatype Event = Request(limit: int, offset: int) | Delay(millis: int)

  /** The loop variables. `stepCount` and `apiCalls` are the statistics counters. */
  datatype FetchState<T> = FetchState(
    offset: int,
    expectedTotal: int,
    emptyDataReturned: bool,
    titles: seq<T>,
    stepCount: int,
    apiCalls: nat,
    events: seq<Event>)

  /** The header text the source parses: `RateLimit-Retry-After`, else `X-RateLimit-Retry-After`,
      else the literal "60000". */
  function RetryHeaderText(retryAfter: Option<string>, xRetryAfter: Option<string>): (h: string)
    ensures retryAfter.Some? ==> h == retryAfter.value
    ensures retryAfter.None? && xRetryAfter.Some? ==> h == xRetryAfter.value
    ensures retryAfter.None? && xRetryAfter.None? ==> h == FallbackRetryHeader
  {
    retryAfter.GetOr(xRetryAfter.GetOr(FallbackRetryHeader))
  }

  /** The wait the source requests after a 429, as written: `now - v + 1` when the header text
      parses as a 32-bit `Int` v, and 60000 when parsing throws. */
  function RateLimitWait(now: int, retryAfter: Option<string>, xRetryAfter: Option<string>): (w: int)
    ensures Strings.ParseInt32(RetryHeaderText(retryAfter, xRetryAfter)).None? ==> w == FallbackWaitMillis
    ensures Strings.ParseInt32(RetryHeaderText(retryAfter, xRetryAfter)).Some? ==>
              w + Strings.ParseInt32(RetryHeaderText(retryAfter, xRetryAfter)).value == now + 1
  {
    match Strings.ParseInt32(RetryHeaderText(retryAfter, xRetryAfter))
    case Some(periodEnd) => now - periodEnd + 1
    case None => FallbackWaitMillis
  }

  /** One fetch and its handling (one pass of the inner loop body, before the break test). */
  function Step<M, T>(s: FetchState<T>, limit: int, r: Response<M>, mapper: M -> T): (s': FetchState<T>)
    ensures s'.apiCalls == s.apiCalls + 1
    ensures |s'.events| > |s.events| && s'.events[|s.events|] == Request(limit, s.offset)
    ensures !r.Success? ==> s'.offset == s.offset && s'.titles == s.titles
    ensures !r.Success? ==> s'.expectedTotal == s.expectedTotal && s'.emptyDataReturned == s.emptyDataReturned
    ensures !r.Success? ==> s'.stepCount == s.stepCount
    ensures r.Success? ==> s'.offset == s.offset + |r.items| && |s'.titles| == |s.titles| + |r.items|
    ensures r.Success? ==> s'.stepCount == s.stepCount + 1
  {
    var sent := s.(apiCalls := s.apiCalls + 1, events := s.events + [Request(limit, s.offset)]);
    match r
    case RateLimited(now, h1, h2) =>
      sent.(events := sent.events + [Delay(RateLimitWait(now, h1, h2))])
    case Success(items, total) =>
      sent.(emptyDataReturned := |items| == 0,
            expectedTotal := total,
            titles := s.titles + MapSeq(mapper, items),
            offset := s.offset + |items|,
            stepCount := s.stepCount + 1)
    case Unexpected(_) => sent
  }

  /** Where one outer iteration stopped: the state, the next unread response, and whether the
      script ran out before the batch was over. */
  datatype BatchEnd<T> = BatchEnd(state: FetchState<T>, pos: nat, outOfResponses: bool)

  /** The inner `for (i in 1..5)` loop, with `attempts` passes left, reading `script[pos..]`. */
  function Batch<M, T>(s: FetchState<T>, limit: int, script: seq<Response<M>>, pos: nat,
                       attempts: nat, mapper: M -> T): (b: BatchEnd<T>)
    requires pos <= |script| && 1 <= attempts
    ensures pos <= b.pos <= |script| && b.pos <= pos + attempts
    ensures b.outOfResponses ==> b.pos == |script|
    ensures !b.outOfResponses ==> pos < b.pos
    ensures !b.outOfResponses && b.pos < pos + attempts ==> b.state.offset >= b.state.expectedTotal
    ensures b.state.apiCalls == s.apiCalls + (b.pos - pos)
    decreases attempts
  {
    if pos == |script| then BatchEnd(s, pos, true)
    else
      var s' := Step(s, limit, script[pos], mapper);
      if s'.offset >= s'.expectedTotal || attempts == 1 then BatchEnd(s', pos + 1, false)
      else Batch(s', limit, script, pos + 1, attempts - 1, mapper)
  }

  /** How a fetch run ends: the `do … while` exits after reading `used` responses, or the script
      is exhausted while the program would still be fetching. */
  datatype Outcome<T> = Finished(state: FetchState<T>, used: nat) | OutOfResponses(state: FetchState<T>)

  /** The outer `do { batch; delay(1000) } while (currentOffset <= expectedTotal && !emptyDataReturned)`. */
  function Loop<M, T>(s: FetchState<T>, limit: int, script: seq<Response<M>>, pos: nat,
                      mapper: M -> T): (o: Outcome<T>)
    requires pos <= |script|
    ensures o.Finished? ==> pos < o.used <= |script|
    ensures o.Finished? ==> o.state.offset > o.state.expectedTotal || o.state.emptyDataReturned
    decreases |script| - pos
  {
    var b := Batch(s, limit, script, pos, AttemptsPerBatch, mapper);
    if b.outOfResponses then OutOfResponses(b.state)
    else
      var paused := b.state.(events := b.state.events + [Delay(PauseMillis)]);
      if paused.offset <= paused.expectedTotal && !paused.emptyDataReturned then
        Loop(paused, limit, script, b.pos, mapper)
      else
        Finished(paused, b.pos)
  }

  /** The variables right after the initial one-second pause. */
  function Start<T>(initialOffset: int, sentinel: int, stepCount: int): (s: FetchState<T>)
    ensures s.titles == [] && s.apiCalls == 0 && !s.emptyDataReturned
  {
    FetchState(initialOffset, sentinel, false, [], stepCount, 0, [Delay(PauseMillis)])
  }

  /** `Client.getAllFollowedManga`: its step counter starts at 1. */
  function GetAllFollowedManga<M, T>(perFetchLimit: int, initialOffset: int,
                                     script: seq<Response<M>>, mapper: M -> T): Outcome<T>
  {
    Loop(Start(initialOffset, SentinelTotal, 1), perFetchLimit, script, 0, mapper)
  }

  /** `MangadexApiClientWorker.fetchTitles`: its step counter starts at 0 and it counts API calls. */
  function FetchTitles<M, T>(fetchLimit: int, initialOffset: int,
                             script: seq<Response<M>>, mapper: M -> T): Outcome<T>
  {
    Loop(Start(initialOffset, SentinelTotal, 0), fetchLimit, script, 0, mapper)
  }

  // ---------------------------------------------------------------------------------------
  // Reference definitions: what a prefix of consumed responses should have produced.

  /** Items of the successful pages among `c`, in arrival order. */
  function Received<M>(c: seq<Response<M>>): seq<M> {
    if c == [] then []
    else Received(c[..|c| - 1]) + (if c[|c| - 1].Success? then c[|c| - 1].items else [])
  }

  function SuccessCount<M>(c: seq<Response<M>>): nat {
    if c == [] then 0 else SuccessCount(c[..|c| - 1]) + (if c[|c| - 1].Success? then 1 else 0)
  }

  /** `total` of the most recent successful page, or `default` when there was none. */
  function LastTotal<M>(c: seq<Response<M>>, default: int): int {
    if c == [] then default
    else if c[|c| - 1].Success? then c[|c| - 1].total
    else LastTotal(c[..|c| - 1], default)
  }

  /** Whether the most recent successful page was empty (`default` when there was none). */
  function LastEmpty<M>(c: seq<Response<M>>, default: bool): bool {
    if c == [] then default
    else if c[|c| - 1].Success? then |c[|c| - 1].items| == 0
    else LastEmpty(c[..|c| - 1], default)
  }

  /** `s` is what `init` becomes after the responses `c`. */
  ghost predicate Tracks<M, T>(init: FetchState<T>, s: FetchState<T>, c: seq<Response<M>>, mapper: M -> T) {
    && s.offset == init.offset + |Received(c)|
    && s.titles == init.titles + MapSeq(mapper, Received(c))
    && s.expectedTotal == LastTotal(c, init.expectedTotal)
    && s.emptyDataReturned == LastEmpty(c, init.emptyDataReturned)
    && s.stepCount == init.stepCount + SuccessCount(c)
    && s.apiCalls == init.apiCalls + |c|
  }

  lemma StepTracks<M, T>(init: FetchState<T>, s: FetchState<T>, c: seq<Response<M>>,
                         limit: int, r: Response<M>, mapper: M -> T)
    requires Tracks(init, s, c, mapper)
    ensures Tracks(init, Step(s, limit, r, mapper), c + [r], mapper)
  {
    var c' := c + [r];
    assert c'[..|c'| - 1] == c;
    var s' := Step(s, limit, r, mapper);
    if r.Success? {
      assert Received(c') == Received(c) + r.items;
      MapSeqAppend(mapper, Received(c), r.items);
      AppendAssoc(init.titles, MapSeq(mapper, Received(c)), MapSeq(mapper, r.items));
      assert s'.titles == init.titles + MapSeq(mapper, Received(c'));
      assert s'.offset == init.offset + |Received(c')|;
      assert s'.expectedTotal == LastTotal(c', init.expectedTotal);
      assert s'.emptyDataReturned == LastEmpty(c', init.emptyDataReturned);
      assert s'.stepCount == init.stepCount + SuccessCount(c');
    } else {
      assert Received(c') == Received(c);
      assert SuccessCount(c') == SuccessCount(c);
      assert LastTotal(c', init.expectedTotal) == LastTotal(c, init.expectedTotal);
      assert LastEmpty(c', init.emptyDataReturned) == LastEmpty(c, init.emptyDataReturned);
    }
  }

  lemma {:induction false} BatchTracks<M, T>(init: FetchState<T>, s: FetchState<T>, limit: int,
                                             script: seq<Response<M>>, pos: nat, attempts: nat,
                                             mapper: M -> T)
    requires pos <= |script| && 1 <= attempts
    requires Tracks(init, s, script[..pos], mapper)
    ensures Tracks(init, Batch(s, limit, script, pos, attempts, mapper).state,
                   script[..Batch(s, limit, script, pos, attempts, mapper).pos], mapper)
    decreases attempts
  {
    if pos < |script| {
      assert script[..pos + 1] == script[..pos] + [script[pos]];
      StepTracks(init, s, script[..pos], limit, script[pos], mapper);
      var s' := Step(s, limit, script[pos], mapper);
      if !(s'.offset >= s'.expectedTotal || attempts == 1) {
        BatchTracks(init, s', limit, script, pos + 1, attempts - 1, mapper);
      }
    }
  }

  lemma {:induction false} LoopTracks<M, T>(init: FetchState<T>, s: FetchState<T>, limit: int,
                                            script: seq<Response<M>>, pos: nat, mapper: M -> T)
    requires pos <= |script|
    requires Tracks(init, s, script[..pos], mapper)
    ensures var o := Loop(s, limit, script, pos, mapper);
            Tracks(init, o.state, if o.Finished? then script[..o.used] else script, mapper)
    decreases |script| - pos
  {
    var b := Batch(s, limit, script, pos, AttemptsPerBatch, mapper);
    BatchTracks(init, s, limit, script, pos, AttemptsPerBatch, mapper);
    if b.outOfResponses {
      assert script[..b.pos] == script;
    } else {
      var paused := b.state.(events := b.state.events + [Delay(PauseMillis)]);
      if paused.offset <= paused.expectedTotal && !paused.emptyDataReturned {
        LoopTracks(init, paused, limit, script, b.pos, mapper);
      }
    }
  }

  // ---------------------------------------------------------------------------------------
  // How many responses a run reads, in terms of the responses alone.

  /** After the responses `c` the inner loop breaks: the offset has reached the total. */
  ghost predicate Reached<M, T>(init: FetchState<T>, c: seq<Response<M>>) {
    init.offset + |Received(c)| >= LastTotal(c, init.expectedTotal)
  }

  /** After the responses `c` the outer loop goes on: the offset has not passed the total and the
      last page was not empty. */
  ghost predicate GoesOn<M, T>(init: FetchState<T>, c: seq<Response<M>>) {
    init.offset + |Received(c)| <= LastTotal(c, init.expectedTotal) && !LastEmpty(c, init.emptyDataReturned)
  }

  /** Where a batch that starts after `script[..p]` ends, looking from its `k`-th fetch on: at the
      first fetch after which the total is reached, else after the fifth. An end beyond the
      script means the script runs out inside the batch. */
  ghost function BatchEndAfter<M, T>(init: FetchState<T>, script: seq<Response<M>>, p: nat, k: nat): (e: nat)
    requires 1 <= k <= AttemptsPerBatch
    ensures p + k <= e <= p + AttemptsPerBatch
    decreases AttemptsPerBatch - k
  {
    if k == AttemptsPerBatch || (p + k <= |script| && Reached(init, script[..p + k])) then p + k
    else BatchEndAfter(init, script, p, k + 1)
  }

  /** How many responses a run that starts after `script[..p]` reads before the `do … while`
      exits, or `None` when the script runs out first: batch after batch, while the guard holds
      at the end of each. */
  ghost function RunLength<M, T>(init: FetchState<T>, script: seq<Response<M>>, p: nat): Option<nat>
    requires p <= |script|
    decreases |script| - p
  {
    var e := BatchEndAfter(init, script, p, 1);
    if e > |script| then None
    else if GoesOn(init, script[..e]) then RunLength(init, script, e)
    else Some(e)
  }

  /** A batch stops where the responses say: at the first fetch after which the offset has
      reached the total, after five fetches otherwise; it runs out exactly when the script ends
      before that point. */
  lemma {:induction false} BatchMeetsEnd<M, T>(init: FetchState<T>, s: FetchState<T>, limit: int,
                                               script: seq<Response<M>>, p: nat, pos: nat, attempts: nat,
                                               mapper: M -> T)
    requires p <= pos <= |script| && 1 <= attempts && (pos - p) + attempts == AttemptsPerBatch
    requires Tracks(init, s, script[..pos], mapper)
    ensures var b := Batch(s, limit, script, pos, attempts, mapper);
            var e := BatchEndAfter(init, script, p, pos - p + 1);
            && (b.outOfResponses <==> e > |script|)
            && (!b.outOfResponses ==> b.pos == e)
    decreases attempts
  {
    var k := pos - p + 1;
    if pos < |script| {
      assert script[..pos + 1] == script[..pos] + [script[pos]];
      StepTracks(init, s, script[..pos], limit, script[pos], mapper);
      var s' := Step(s, limit, script[pos], mapper);
      var stop := s'.offset >= s'.expectedTotal || attempts == 1;
      assert stop <==> k == AttemptsPerBatch || Reached(init, script[..p + k]) by {
        TrackedReach(init, s', script[..pos + 1], mapper);
      }
      if stop {
        assert Batch(s, limit, script, pos, attempts, mapper) == BatchEnd(s', pos + 1, false);
        assert BatchEndAfter(init, script, p, k) == pos + 1;
      } else {
        assert Batch(s, limit, script, pos, attempts, mapper) == Batch(s', limit, script, pos + 1, attempts - 1, mapper);
        assert BatchEndAfter(init, script, p, k) == BatchEndAfter(init, script, p, k + 1);
        BatchMeetsEnd(init, s', limit, script, p, pos + 1, attempts - 1, mapper);
      }
    }
  }

  /** A tracked state breaks exactly when its responses say the total is reached. */
  lemma TrackedReach<M, T>(init: FetchState<T>, s: FetchState<T>, c: seq<Response<M>>, mapper: M -> T)
    requires Tracks(init, s, c, mapper)
    ensures Reached(init, c) <==> s.offset >= s.expectedTotal
    ensures GoesOn(init, c) <==> s.offset <= s.expectedTotal && !s.emptyDataReturned
  {
  }

  /** The run reads exactly `RunLength` responses: it never goes on past a batch after which
      the guard fails, never stops after one where it holds, and runs out of responses exactly
      when the script ends inside a batch it had to start. */
  lemma {:induction false} LoopMeetsRunLength<M, T>(init: FetchState<T>, s: FetchState<T>, limit: int,
                                                    script: seq<Response<M>>, pos: nat, mapper: M -> T)
    requires pos <= |script|
    requires Tracks(init, s, script[..pos], mapper)
    ensures var o := Loop(s, limit, script, pos, mapper);
            var n := RunLength(init, script, pos);
            && (o.Finished? <==> n.Some?)
            && (o.Finished? ==> o.used == n.value)
    decreases |script| - pos
  {
    BatchMeetsEnd(init, s, limit, script, pos, pos, AttemptsPerBatch, mapper);
    BatchTracks(init, s, limit, script, pos, AttemptsPerBatch, mapper);
    var b := Batch(s, limit, script, pos, AttemptsPerBatch, mapper);
    if !b.outOfResponses {
      var paused := b.state.(events := b.state.events + [Delay(PauseMillis)]);
      if paused.offset <= paused.expectedTotal && !paused.emptyDataReturned {
        LoopMeetsRunLength(init, paused, limit, script, b.pos, mapper);
      }
    }
  }

  /** What `getAllFollowedManga` returns: the mapped items of the successful pages, in order, so
      the list grows by exactly what the offset advanced; `expectedTotal` is the last page's total
      (99 before any page); at least one request is made; the loop only stops once the offset has
      passed the total or a page came back empty; and how many responses it reads, or whether it
      runs out of them, is `RunLength` of the responses. */
  lemma GetAllFollowedMangaCollects<M, T>(perFetchLimit: int, initialOffset: int,
                                          script: seq<Response<M>>, mapper: M -> T)
    ensures var o := GetAllFollowedManga(perFetchLimit, initialOffset, script, mapper);
            var c := if o.Finished? then script[..o.used] else script;
            && o.state.titles == MapSeq(mapper, Received(c))
            && o.state.offset == initialOffset + |Received(c)|
            && |o.state.titles| == o.state.offset - initialOffset
            && o.state.expectedTotal == LastTotal(c, SentinelTotal)
            && o.state.stepCount == 1 + SuccessCount(c)
            && o.state.apiCalls == |c|
            && (o.Finished? ==> o.used >= 1 && (o.state.offset > o.state.expectedTotal || o.state.emptyDataReturned))
            && var n := RunLength(Start<T>(initialOffset, SentinelTotal, 1), script, 0);
            && (o.Finished? <==> n.Some?)
            && (o.Finished? ==> o.used == n.value)
  {
    var init: FetchState<T> := Start(initialOffset, SentinelTotal, 1);
    assert script[..0] == [];
    LoopTracks(init, init, perFetchLimit, script, 0, mapper);
    LoopMeetsRunLength(init, init, perFetchLimit, script, 0, mapper);
  }

  /** The same bookkeeping for the UI worker, whose `stepCount` counts successful calls from 0 and
      whose `apiCalls` counts every call. */
  lemma FetchTitlesCollects<M, T>(fetchLimit: int, initialOffset: int,
                                  script: seq<Response<M>>, mapper: M -> T)
    ensures var o := FetchTitles(fetchLimit, initialOffset, script, mapper);
            var c := if o.Finished? then script[..o.used] else script;
            && o.state.titles == MapSeq(mapper, Received(c))
            && |o.state.titles| == o.state.offset - initialOffset
            && o.state.expectedTotal == LastTotal(c, SentinelTotal)
            && o.state.stepCount == SuccessCount(c)
            && o.state.apiCalls == |c|
            && (o.Finished? ==> o.used >= 1 && (o.state.offset > o.state.expectedTotal || o.state.emptyDataReturned))
            && var n := RunLength(Start<T>(initialOffset, SentinelTotal, 0), script, 0);
            && (o.Finished? <==> n.Some?)
            && (o.Finished? ==> o.used == n.value)
  {
    var init: FetchState<T> := Start(initialOffset, SentinelTotal, 0);
    assert script[..0] == [];
    LoopTracks(init, init, fetchLimit, script, 0, mapper);
    LoopMeetsRunLength(init, init, fetchLimit, script, 0, mapper);
  }

  // ---------------------------------------------------------------------------------------
  // The statistics counters never steer the loop.

  /** The variables that decide control flow and the result. */
  ghost predicate SameCore<T>(a: FetchState<T>, b: FetchState<T>) {
    a.offset == b.offset && a.expectedTotal == b.expectedTotal
    && a.emptyDataReturned == b.emptyDataReturned && a.titles == b.titles
  }

  lemma {:induction false} BatchIgnoresCounters<M, T>(a: FetchState<T>, b: FetchState<T>, limit: int,
                                                       script: seq<Response<M>>, pos: nat,
                                                       attempts: nat, mapper: M -> T)
    requires pos <= |script| && 1 <= attempts && SameCore(a, b)
    ensures var x := Batch(a, limit, script, pos, attempts, mapper);
            var y := Batch(b, limit, script, pos, attempts, mapper);
            x.pos == y.pos && x.outOfResponses == y.outOfResponses && SameCore(x.state, y.state)
    decreases attempts
  {
    if pos < |script| {
      var a' := Step(a, limit, script[pos], mapper);
      var b' := Step(b, limit, script[pos], mapper);
      assert SameCore(a', b');
      if !(a'.offset >= a'.expectedTotal || attempts == 1) {
        BatchIgnoresCounters(a', b', limit, script, pos + 1, attempts - 1, mapper);
      }
    }
  }

  lemma {:induction false} LoopIgnoresCounters<M, T>(a: FetchState<T>, b: FetchState<T>, limit: int,
                                                     script: seq<Response<M>>, pos: nat, mapper: M -> T)
    requires pos <= |script| && SameCore(a, b)
    ensures var x := Loop(a, limit, script, pos, mapper);
            var y := Loop(b, limit, script, pos, mapper);
            x.Finished? == y.Finished? && SameCore(x.state, y.state)
            && (x.Finished? ==> x.used == y.used)
    decreases |script| - pos
  {
    BatchIgnoresCounters(a, b, limit, script, pos, AttemptsPerBatch, mapper);
    var x := Batch(a, limit, script, pos, AttemptsPerBatch, mapper);
    var y := Batch(b, limit, script, pos, AttemptsPerBatch, mapper);
    if !x.outOfResponses {
      var px := x.state.(events := x.state.events + [Delay(PauseMillis)]);
      var py := y.state.(events := y.state.events + [Delay(PauseMillis)]);
      if px.offset <= px.expectedTotal && !px.emptyDataReturned {
        LoopIgnoresCounters(px, py, limit, script, x.pos, mapper);
      }
    }
  }

  /** The UI worker and the library loop fetch the same titles and stop at the same point; only
      the step counter differs, by the one it starts with. */
  lemma FetchTitlesMatchesLibrary<M, T>(limit: int, initialOffset: int,
                                        script: seq<Response<M>>, mapper: M -> T)
    ensures var x := FetchTitles(limit, initialOffset, script, mapper);
            var y := GetAllFollowedManga(limit, initialOffset, script, mapper);
            && x.Finished? == y.Finished?
            && x.state.titles == y.state.titles && x.state.offset == y.state.offset
            && (x.Finished? ==> x.used == y.used)
            && y.state.stepCount == x.state.stepCount + 1
  {
    var a: FetchState<T> := Start(initialOffset, SentinelTotal, 0);
    var b: FetchState<T> := Start(initialOffset, SentinelTotal, 1);
    LoopIgnoresCounters(a, b, limit, script, 0, mapper);
    FetchTitlesCollects(limit, initialOffset, script, mapper);
    GetAllFollowedMangaCollects(limit, initialOffset, script, mapper);
  }
  // ---------------------------------------------------------------------------------------
  // The outer guard is `<=`: landing exactly on the total costs one more request.

  /** The first batch of a 205-follow run: three full steps take the offset onto the total. */
  lemma FirstBatchLandsOnTotal<M, T>(script: seq<Response<M>>, p1: seq<M>, p2: seq<M>, p3: seq<M>,
                                     mapper: M -> T)
    requires |script| >= 3 && |p1| == 100 && |p2| == 100 && |p3| == 5
    requires script[0] == Success(p1, 205) && script[1] == Success(p2, 205) && script[2] == Success(p3, 205)
    ensures var b := Batch(Start(0, SentinelTotal, 1), 100, script, 0, AttemptsPerBatch, mapper);
            && !b.outOfResponses && b.pos == 3
            && b.state.offset == 205 && b.state.expectedTotal == 205 && !b.state.emptyDataReturned
  {
    var s0: FetchState<T> := Start(0, SentinelTotal, 1);
    var s1 := Step(s0, 100, script[0], mapper);
    assert s1.offset == 100 && s1.expectedTotal == 205;
    var s2 := Step(s1, 100, script[1], mapper);
    assert s2.offset == 200 && s2.expectedTotal == 205;
    var s3 := Step(s2, 100, script[2], mapper);
    assert s3.offset == 205 && s3.expectedTotal == 205 && !s3.emptyDataReturned;
    assert Batch(s2, 100, script, 2, 3, mapper) == BatchEnd(s3, 3, false);
    assert Batch(s1, 100, script, 1, 4, mapper) == Batch(s2, 100, script, 2, 3, mapper);
  }

  /** 205 follows served 100 at a time: after the third page the offset equals the total, the
      `<=` guard starts another batch, and only the empty fourth page ends the run. */
  lemma FourthFetchWhenOffsetEqualsTotal<M, T>(p1: seq<M>, p2: seq<M>, p3: seq<M>, mapper: M -> T)
    requires |p1| == 100 && |p2| == 100 && |p3| == 5
    ensures var o := GetAllFollowedManga(100, 0, [Success(p1, 205), Success(p2, 205), Success(p3, 205),
                                                  Success([], 205)], mapper);
            o.Finished? && o.used == 4 && o.state.titles == MapSeq(mapper, p1 + p2 + p3)
  {
    var s0: FetchState<T> := Start(0, SentinelTotal, 1);
    var script: seq<Response<M>> := [Success(p1, 205), Success(p2, 205), Success(p3, 205), Success([], 205)];
    FirstBatchLandsOnTotal(script, p1, p2, p3, mapper);
    var b := Batch(s0, 100, script, 0, AttemptsPerBatch, mapper);
    var paused := b.state.(events := b.state.events + [Delay(PauseMillis)]);
    assert Loop(s0, 100, script, 0, mapper) == Loop(paused, 100, script, 3, mapper);
    var s4 := Step(paused, 100, script[3], mapper);
    assert Batch(paused, 100, script, 3, AttemptsPerBatch, mapper) == BatchEnd(s4, 4, false);
    assert Loop(paused, 100, script, 3, mapper).used == 4;
    GetAllFollowedMangaCollects(100, 0, script, mapper);
    ReceivedOfFourPages(script, p1, p2, p3);
  }

  lemma ReceivedOfFourPages<M>(script: seq<Response<M>>, p1: seq<M>, p2: seq<M>, p3: seq<M>)
    requires script == [Success(p1, 205), Success(p2, 205), Success(p3, 205), Success([], 205)]
    ensures Received(script[..4]) == p1 + p2 + p3
  {
    var c1: seq<Response<M>> := [Success(p1, 205)];
    var c2 := c1 + [Success(p2, 205)];
    var c3 := c2 + [Success(p3, 205)];
    assert c1[..0] == [];
    assert Received(c1) == p1;
    assert c2[..1] == c1;
    assert Received(c2) == p1 + p2;
    assert c3[..2] == c2;
    assert Received(c3) == p1 + p2 + p3;
    assert script[..4] == script && script[..3] == c3;
    assert Received(script) == Received(c3) + [];
  }

  /** A script holding just those three pages is not enough: the run is still fetching when it
      runs out. */
  lemma ThreePagesAreNotEnough<M, T>(p1: seq<M>, p2: seq<M>, p3: seq<M>, mapper: M -> T)
    requires |p1| == 100 && |p2| == 100 && |p3| == 5
    ensures GetAllFollowedManga(100, 0, [Success(p1, 205), Success(p2, 205), Success(p3, 205)], mapper).OutOfResponses?
  {
    var s0: FetchState<T> := Start(0, SentinelTotal, 1);
    var script: seq<Response<M>> := [Success(p1, 205), Success(p2, 205), Success(p3, 205)];
    FirstBatchLandsOnTotal(script, p1, p2, p3, mapper);
    var b := Batch(s0, 100, script, 0, AttemptsPerBatch, mapper);
    var paused := b.state.(events := b.state.events + [Delay(PauseMillis)]);
    assert Loop(s0, 100, script, 0, mapper) == Loop(paused, 100, script, 3, mapper);
  }

  // ---------------------------------------------------------------------------------------
  // Finding: the sentinel 99 does not exceed an initial offset of 99 or more.

  /** As written: starting at offset 100, a first answer that is not a success ends the whole
      fetch with nothing, and the page that would have followed is never requested. */
  lemma SentinelEndsFetchBeforeAnyPage<M, T>(page: seq<M>, mapper: M -> T)
    ensures var o := FetchTitles(100, 100, [Unexpected(500), Success(page, 300)], mapper);
            o.Finished? && o.used == 1 && o.state.titles == []
  {
    var script: seq<Response<M>> := [Unexpected(500), Success(page, 300)];
    var s0: FetchState<T> := Start(100, SentinelTotal, 0);
    var s1 := Step(s0, 100, script[0], mapper);
    assert Batch(s0, 100, script, 0, 5, mapper) == BatchEnd(s1, 1, false);
  }

  /** The sentinel the loop evidently needs: above the initial offset. */
  function CorrectedSentinel(initialOffset: int): (t: int)
    ensures t > initialOffset && t >= SentinelTotal
  {
    if initialOffset < SentinelTotal then SentinelTotal else initialOffset + 1
  }

  /** `fetchTitles` with the sentinel placed above the initial offset. */
  function FetchTitlesCorrected<M, T>(fetchLimit: int, initialOffset: int,
                                      script: seq<Response<M>>, mapper: M -> T): Outcome<T>
  {
    Loop(Start(initialOffset, CorrectedSentinel(initialOffset), 0), fetchLimit, script, 0, mapper)
  }

  lemma {:induction false} NoSuccessNoProgress<M>(c: seq<Response<M>>, total: int, empty: bool)
    ensures SuccessCount(c) == 0 ==>
              Received(c) == [] && LastTotal(c, total) == total && LastEmpty(c, empty) == empty
    decreases |c|
  {
    if c != [] {
      NoSuccessNoProgress(c[..|c| - 1], total, empty);
    }
  }

  /** With the corrected sentinel a run never finishes before some page has arrived: rate limits
      and unexpected statuses keep it fetching at the initial offset. */
  lemma FetchTitlesCorrectedNeedsAPage<M, T>(fetchLimit: int, initialOffset: int,
                                             script: seq<Response<M>>, mapper: M -> T)
    ensures var o := FetchTitlesCorrected(fetchLimit, initialOffset, script, mapper);
            o.Finished? ==> SuccessCount(script[..o.used]) >= 1
  {
    var init: FetchState<T> := Start(initialOffset, CorrectedSentinel(initialOffset), 0);
    assert script[..0] == [];
    LoopTracks(init, init, fetchLimit, script, 0, mapper);
    var o := FetchTitlesCorrected(fetchLimit, initialOffset, script, mapper);
    if o.Finished? {
      NoSuccessNoProgress(script[..o.used], init.expectedTotal, false);
    }
  }

  // ---------------------------------------------------------------------------------------
  // Finding: the rate-limit wait.

  /** As written, with neither header present the literal "60000" is parsed as a period end,
      so the requested wait is the clock reading minus 59999 rather than 60000 ms. */
  lemma WaitWithoutHeadersFollowsClock(now: int)
    ensures RateLimitWait(now, None, None) == now - 59999
  {
    Strings.ParseInt32OfIntToString(60000);
    assert Strings.IntToString(60000) == FallbackRetryHeader;
  }

  /** As written, a period ending 4000 ms from now yields a negative wait: the subtraction is
      reversed, so the next request goes out at once. */
  lemma WaitIsReversed()
    ensures RateLimitWait(1000, Some("5000"), None) == -3999
  {
    Strings.ParseInt32OfIntToString(5000);
    assert Strings.IntToString(5000) == "5000";
  }

  /** The wait the rate limiter asks for: until one millisecond past the period end (never
      negative), and 60000 ms when no header is present or its text does not parse. */
  function IntendedRateLimitWait(now: int, retryAfter: Option<string>, xRetryAfter: Option<string>): (w: int)
    ensures w >= 0
    ensures retryAfter.None? && xRetryAfter.None? ==> w == FallbackWaitMillis
    ensures retryAfter.Some? && Strings.ParseInt64(retryAfter.value).Some? ==>
              now + w >= Strings.ParseInt64(retryAfter.value).value + 1
              && (w == 0 || now + w == Strings.ParseInt64(retryAfter.value).value + 1)
    ensures Strings.ParseInt64(RetryHeaderText(retryAfter, xRetryAfter)).None? ==> w == FallbackWaitMillis
  {
    if retryAfter.None? && xRetryAfter.None? then FallbackWaitMillis
    else
      match Strings.ParseInt64(RetryHeaderText(retryAfter, xRetryAfter))
      case Some(periodEnd) => if periodEnd - now + 1 > 0 then periodEnd - now + 1 else 0
      case None => FallbackWaitMillis
  }
}
