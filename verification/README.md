# MangaDex follows exporter, modelled in Dafny

This project models the core of the MangaDex follows exporter, a Kotlin desktop tool. The tool
does four things:

- It pages through a user's followed series on the MangaDex API, backing off on rate limits.
- It writes the series to text files, a CSV file and a MyAnimeList import file.
- It can add the series to a MangaUpdates reading list, by title or by MangaUpdates ID.
- It drives all of this from a Swing window: the locale list editor, the import-method radio
  buttons and the Run button.

Every Kotlin loop becomes a pure Dafny function over sequences. A fold replaces each mutable
counter or buffer, and the HTTP answers are an explicit script of responses. The contracts and
lemmas say what each loop produces. Each one is compared with an independent reference
definition.

Modules, by source file:

- `MangadexClient` (mangadex_client.dfy) covers `MangadexApi/Client.kt`'s
  `getAllFollowedManga` and `urlRequiresAuth`. It also covers `ExporterUI.kt`'s `fetchTitles`,
  which runs the same loop.
- `Export` (export.dfy) covers the per-series export loops shared by `Main.kt`'s `writeToFile`
  and `Utilities/ExportUtilities.kt`'s `writeToTextFile` and `exportMangaList`. It covers both
  buffering modes.
- `ExportFiles` (export_files.dfy) covers the files those functions create: names, time stamp,
  statistics file, MyAnimeList XML, and the order in which `exportMangaList` chains its steps.
  The files are modelled as the code writes them: `ExportMangaList` uses the "__" names, and
  `WriteTextFiles` uses the PER_LIST flush and the one-line statistics. `WriteTextFilesCorrected`
  is the evidently intended version of the latter.
- `MangaUpdatesClient` (mangaupdates_client.dfy) covers `MangaUpdatesAPI/Client.kt`. That is
  the 412 retry loops, the request bodies, the series-ID regular expression, list lookup and
  creation, and which requests carry the session token.
- `MangaUpdatesImport` (mangaupdates_import.dfy) covers `importToMangaUpdatesByTitle` and
  `importToMangaUpdatesByID`: batches of 100, reports, and the ID lookups.
- `LocaleEditor` (locale_editor.dfy) covers the locale list's UP, DEL, DOWN and "+" handlers.
- `RunForm` (run_form.dfy) covers the Run handler's checks, the option and link check boxes,
  and the import-method radio buttons with their save and load.
- `Wrappers`, `Seqs`, `Strings` and `Titles` hold shared definitions. `Titles` holds the
  `Links` enum, the exported series record and the reference text of the export.
  `Strings.ParseInt32` models Kotlin's `toIntOrNull` on ASCII digits.

## Model

| member | source | states |
|---|---|---|
| MangadexClient.FollowsRequestRequiresAuth | src/main/kotlin/MangadexApi/Client.kt:179-186 | The follows request carries the token. The token endpoint and a bare host do not. |
| MangadexClient.RetryHeaderText | src/main/kotlin/MangadexApi/Client.kt:142 | `RateLimit-Retry-After` is read first, then `X-RateLimit-Retry-After`, then the literal "60000". |
| MangadexClient.RateLimitWait | src/main/kotlin/MangadexApi/Client.kt:141-149 | As written: if the header text parses as an `Int` v, wait + v = now + 1. Otherwise the wait is 60000. |
| MangadexClient.Step | src/main/kotlin/MangadexApi/Client.kt:137-163 | One fetch logs a request at the current offset. Only a success moves the offset (by the page size), appends the page and bumps the step count. 429 and other statuses change nothing else. |
| MangadexClient.Batch | src/main/kotlin/MangadexApi/Client.kt:136-168 | The inner loop makes at most 5 fetches. It stops early only once offset >= expected total. Each fetch is one API call. |
| MangadexClient.Loop | src/main/kotlin/MangadexApi/Client.kt:135-171 | The outer loop only finishes once the offset exceeds the expected total or a page came back empty. |
| MangadexClient.Start | src/main/kotlin/MangadexApi/Client.kt:129-134 | The run starts with no titles, no calls and no empty page. |
| MangadexClient.StepTracks | src/main/kotlin/MangadexApi/Client.kt:150-159 | One more response keeps the loop variables equal to their reference definition over the responses read. |
| MangadexClient.BatchTracks | src/main/kotlin/MangadexApi/Client.kt:136-168 | After the inner loop, the variables equal the reference definition over the responses it consumed. |
| MangadexClient.LoopTracks | src/main/kotlin/MangadexApi/Client.kt:135-171 | After the outer loop, the variables equal the reference definition over every response read. |
| MangadexClient.BatchMeetsEnd | src/main/kotlin/MangadexApi/Client.kt:137-168 | The inner loop stops exactly at the first fetch after which the offset has reached the total, or after the fifth. It runs out of responses exactly when they end before that point. |
| MangadexClient.LoopMeetsRunLength | src/main/kotlin/MangadexApi/Client.kt:135-171 | The outer loop finishes exactly when `RunLength` of the responses is defined, after exactly that many responses. It never starts a batch after one whose guard failed, and never stops while the guard holds. It runs out only inside a batch it had to start. |
| MangadexClient.GetAllFollowedMangaCollects | src/main/kotlin/MangadexApi/Client.kt:126-174 | The result is the mapped items of the successful pages, in arrival order. The list grows by what the offset advanced. The expected total is the last page's total (99 before any). The step count is 1 + successes. At least one request is made. Whether the run finishes, and after how many responses, is `RunLength` of the responses. |
| MangadexClient.FetchTitlesCollects | src/main/kotlin/ExporterUI.kt:878-926 | The UI worker collects the same items. Its step count is the number of successes and `apiCalls` is the number of responses read. It stops after `RunLength` of the responses, like the library loop. |
| MangadexClient.BatchIgnoresCounters | src/main/kotlin/MangadexApi/Client.kt:136-168 | The statistics counters never influence the inner loop's control flow or results. |
| MangadexClient.LoopIgnoresCounters | src/main/kotlin/MangadexApi/Client.kt:135-171 | The statistics counters never influence the outer loop's control flow or results. |
| MangadexClient.FetchTitlesMatchesLibrary | src/main/kotlin/ExporterUI.kt:880-923 | `fetchTitles` and `getAllFollowedManga` fetch the same titles and stop after the same responses. Their step counts differ by exactly 1. |
| MangadexClient.FirstBatchLandsOnTotal | src/main/kotlin/MangadexApi/Client.kt:165-167 | For 205 follows at 100 per page, three pages bring the offset onto the total and end the first batch. |
| MangadexClient.FourthFetchWhenOffsetEqualsTotal | src/main/kotlin/MangadexApi/Client.kt:171 | With offset equal to the total, the `<=` guard starts another batch. Only an empty fourth page ends the run. |
| MangadexClient.ThreePagesAreNotEnough | src/main/kotlin/MangadexApi/Client.kt:171 | With only those three pages, the run is still fetching when the answers run out. |
| MangadexClient.SentinelEndsFetchBeforeAnyPage | src/main/kotlin/ExporterUI.kt:881 | As written: at initial offset 100, a failed first call ends the whole fetch with no titles. |
| MangadexClient.CorrectedSentinel | src/main/kotlin/ExporterUI.kt:881 | The corrected sentinel lies above the initial offset and is never below 99. |
| MangadexClient.FetchTitlesCorrectedNeedsAPage | src/main/kotlin/ExporterUI.kt:878-926 | With the corrected sentinel, a run never finishes before some page has been received. |
| MangadexClient.WaitWithoutHeadersFollowsClock | src/main/kotlin/MangadexApi/Client.kt:142-143 | As written: with no header, the wait is now - 59999, not 60000 ms. |
| MangadexClient.WaitIsReversed | src/main/kotlin/MangadexApi/Client.kt:143 | As written: a period ending 4000 ms after the clock reading gives a negative wait. |
| MangadexClient.IntendedRateLimitWait | src/main/kotlin/MangadexApi/Client.kt:141-149 | The intended wait is never negative and reaches one ms past the period end. It is 60000 ms when no header is present or the text does not parse. |
| Export.VisitLink | src/main/kotlin/Utilities/ExportUtilities.kt:143-148 | One pass of the link loop keeps the key sets of the counts and the texts. |
| Export.Run | src/main/kotlin/Utilities/ExportUtilities.kt:136-182 | The outer loop keeps a count (and, with text files, a text) for every selected link. |
| Export.Flush | src/main/kotlin/Main.kt:83-85 | The flush loop keeps the set of files. |
| Export.NullsAt | src/main/kotlin/Utilities/ExportUtilities.kt:143-145 | Per series, a link's null count grows by its number of listings when the series lacks that link. |
| Export.TextsAt | src/main/kotlin/Utilities/ExportUtilities.kt:143-146 | Per series, a link's text grows by the series' line once per listing. |
| Export.CsvOf | src/main/kotlin/Utilities/ExportUtilities.kt:142-149 | Per series, the CSV gets one comma-terminated cell per selected link, and only when a CSV is made. |
| Export.TextsKept | src/main/kotlin/Utilities/ExportUtilities.kt:156-168 | Without text files, the link texts are never touched. |
| Export.StepsAgree | src/main/kotlin/Utilities/ExportUtilities.kt:137-173 | PER_TITLE and PER_LIST advance the loop variables identically for every series. |
| Export.RunIgnoresMode | src/main/kotlin/Utilities/ExportUtilities.kt:136-182 | The loop's results do not depend on the buffering mode. |
| Export.RunNullsAt | src/main/kotlin/Utilities/ExportUtilities.kt:145 | After the loop, a link's count is its listings times the number of series lacking it. |
| Export.RunTextsAt | src/main/kotlin/Utilities/ExportUtilities.kt:146 | After the loop, a link's text holds every series' line, in order, once per listing. |
| Export.RunShape | src/main/kotlin/Utilities/ExportUtilities.kt:140-150 | After the loop, the added count equals the number of series and the titles text is one line per series. Counts exist for exactly the selected links. |
| Export.RunCsv | src/main/kotlin/Utilities/ExportUtilities.kt:138-149 | After the loop, the CSV is the header and then one row per series. |
| Export.FlushAt | src/main/kotlin/Main.kt:83-85 | The flush loop appends a link's buffer once per listing of that link. |
| Export.RunMeetsReference | src/main/kotlin/Utilities/ExportUtilities.kt:136-182 | In either mode, the counts and link texts meet the reference definition. |
| Export.ExportMeetsReference | src/main/kotlin/Utilities/ExportUtilities.kt:101-182 | The export, in either mode, holds exactly the reference titles, link lines, CSV and counts. |
| Export.ExportAsWrittenMeetsReference | src/main/kotlin/Main.kt:70-86 | As written, PER_LIST writes each link's buffer once per listing. |
| Export.ExportAsWrittenInEitherMode | src/main/kotlin/Main.kt:59-86 | As written, the export meets the reference definition in either mode. Under PER_LIST each link's buffer is written once per listing, and under PER_TITLE once. |
| Export.ExportedIsUnique | src/main/kotlin/Utilities/ExportUtilities.kt:101-182 | The reference description determines the export completely. |
| Export.ModesAgree | src/main/kotlin/Utilities/ExportUtilities.kt:136-182 | Both buffering modes produce the same export, whatever the selection. |
| Export.AsWrittenWithoutRepeats | src/main/kotlin/Utilities/ExportUtilities.kt:104 | For a selection without repeats (any `EnumSet`), the as-written flush gives the same export. |
| Export.AsWrittenPerListFileAt | src/main/kotlin/Main.kt:76-85 | As written, PER_LIST leaves a link listed k times with its k-copy lines, written k times over. |
| Export.RepeatedLinkDoublesPerListFile | src/main/kotlin/Main.kt:59-86 | As written, a link listed twice gets different files under PER_TITLE and PER_LIST. |
| ExportFiles.ParseStampOfStamp | src/main/kotlin/Utilities/ExportUtilities.kt:122 | The `yyyy_MM_dd_HH_mm_ss` stamp of a valid moment reads back as that moment. |
| ExportFiles.StampOfParseStamp | src/main/kotlin/Utilities/ExportUtilities.kt:122 | Every text that parses as a stamp is the stamp of what it parses to. |
| ExportFiles.StampsDiffer | src/main/kotlin/Utilities/ExportUtilities.kt:122 | Different moments give different stamps. |
| ExportFiles.TextFileNamesDiffer | src/main/kotlin/Utilities/ExportUtilities.kt:202-205 | Two file names of one export are equal exactly when their kinds are. |
| ExportFiles.ListNamesDoubleUnderscore | src/main/kotlin/Utilities/ExportUtilities.kt:122-131 | As written, the titles, link and CSV names of `exportMangaList` carry "__" before the stamp. The titles name differs from the documented one, and no stamp can be read where the documented name holds it. |
| ExportFiles.DocumentedNamesHoldTheStamp | src/main/kotlin/Utilities/ExportUtilities.kt:121-131 | With the documented single "_", the titles and CSV names hold the export's time right after "[fileName]_", as the MyAnimeList file's name does. |
| ExportFiles.StatsEntriesShareOneLine | src/main/kotlin/Utilities/ExportUtilities.kt:247-249 | As written, the statistics entries contain no line break at all. |
| ExportFiles.StatsLinesOnePerLink | src/main/kotlin/Utilities/ExportUtilities.kt:246-249 | The corrected statistics hold exactly one line per listed link. |
| ExportFiles.NullLinksAreCounts | src/main/kotlin/Main.kt:54 | The recorded null counts are listings times series lacking the link. |
| ExportFiles.TextFileNamesDistinct | src/main/kotlin/Main.kt:48-50 | The titles, link and stats files of one export all have different names. |
| ExportFiles.WriteTextFilesContents | src/main/kotlin/Main.kt:47-96 | As written, `writeToFile` writes the titles file first, then one file per distinct link with one line per series and listing. Under PER_LIST that text is written as many times over as the link is listed. The stats file comes last, with all its entries on one line. All names are distinct. |
| ExportFiles.WriteTextFilesCorrectedContents | src/main/kotlin/Main.kt:47-96 | Corrected, each link file holds one line per series and listing in either mode, and the stats file holds one line per listed link. All names are distinct. |
| ExportFiles.WriteToTextFileLinkFiles | src/main/kotlin/Utilities/ExportUtilities.kt:201-250 | `writeToTextFile` writes one file per selected link in enum order, each holding one line per series, in either mode. The stats file holds the series count and every selected link's null count, on one line. |
| ExportFiles.EntriesAreElements | src/main/kotlin/Utilities/ExportUtilities.kt:343-351 | The MyAnimeList loop emits one element per series that has a `mal` link, in order. |
| ExportFiles.MalXmlListsLinkedSeries | src/main/kotlin/Utilities/ExportUtilities.kt:337-352 | The XML is the header, one `manga` element per linked series, and the footer. |
| ExportFiles.MalIdsTrimmed | src/main/kotlin/Utilities/ExportUtilities.kt:348 | A MyAnimeList ID neither starts nor ends with a quote or whitespace. |
| ExportFiles.Chain | src/main/kotlin/Utilities/ExportUtilities.kt:183-191 | The MangaUpdates import runs only when asked for and needs a client (without one: a null-pointer throw). The MyAnimeList file is written only if the import finished. |
| ExportFiles.MalFileOnlyAfterImport | src/main/kotlin/Utilities/ExportUtilities.kt:183-191 | `exportMangaList` finishes exactly when any requested import finished. The MyAnimeList file is added exactly when requested and finished. |
| ExportFiles.ListFileNamesDistinct | src/main/kotlin/Utilities/ExportUtilities.kt:121-133 | The files `exportMangaList` creates all have different names, with "__" as written or any other text before the stamp. |
| ExportFiles.ListFilesContents | src/main/kotlin/Utilities/ExportUtilities.kt:101-182 | Under the names `exportMangaList` gives them, the text files are the titles and then one file per selected link, with one line per series. The CSV is the header and the rows. |
| MangaUpdatesClient.SendRetrying | src/main/kotlin/MangaUpdatesAPI/Client.kt:106-117 | The same request is re-sent while the answer is 412. The first answer that is not 412 is the one acted on. |
| MangaUpdatesClient.Check | src/main/kotlin/MangaUpdatesAPI/Client.kt:118-120 | A success passes unchanged. Anything else throws, and building the message can throw a decoding error instead. |
| MangaUpdatesClient.SendChecked | src/main/kotlin/MangaUpdatesAPI/Client.kt:97-121 | Only the request is sent, and all answers before the last one read are 412. The last is returned exactly when it is a success and thrown otherwise. |
| MangaUpdatesClient.FetchLists | src/main/kotlin/MangaUpdatesAPI/Client.kt:62-74 | A single GET. The lists are returned exactly when the answer is a success holding lists. |
| MangaUpdatesClient.EntriesAreJoinedObjects | src/main/kotlin/MangaUpdatesAPI/Client.kt:84-92 | The loop's entries are the series objects joined by commas, plus a trailing comma. |
| MangaUpdatesClient.ByIdBodyIsArray | src/main/kotlin/MangaUpdatesAPI/Client.kt:84-94 | The by-ID body is a JSON array of the series objects in order. It is "[]" for no IDs. |
| MangaUpdatesClient.AddTitlesToListById | src/main/kotlin/MangaUpdatesAPI/Client.kt:83-122 | Only the by-ID request is sent, re-sent while 412. A success is returned and anything else thrown. |
| MangaUpdatesClient.TitleEntries | src/main/kotlin/MangaUpdatesAPI/Client.kt:132-139 | One entry per title, in order, each with priority "High". |
| MangaUpdatesClient.AddTitlesToListByTitle | src/main/kotlin/MangaUpdatesAPI/Client.kt:131-162 | Only the bulk request to the list is sent, re-sent while 412. A success is returned and anything else thrown. |
| MangaUpdatesClient.MatchAtMeansMatch | src/main/kotlin/MangaUpdatesAPI/Client.kt:214 | The greedy digit group is the only group any match can have. |
| MangaUpdatesClient.FindFrom | src/main/kotlin/MangaUpdatesAPI/Client.kt:214 | `find` returns the leftmost position where the pattern matches, and none when there is no match. |
| MangaUpdatesClient.ExtractSeriesId | src/main/kotlin/MangaUpdatesAPI/Client.kt:213-217 | The result is "" exactly when the page holds no match. Otherwise it is the digits. |
| MangaUpdatesClient.DotsAreWildcards | src/main/kotlin/MangaUpdatesAPI/Client.kt:214 | The unescaped dots accept any non-terminator character, so look-alike hosts also yield their digits. |
| MangaUpdatesClient.ExtractFromLink | src/main/kotlin/MangaUpdatesAPI/Client.kt:214 | A page that begins with the RSS link of a series yields that series' ID. |
| MangaUpdatesClient.Finish | src/main/kotlin/MangaUpdatesAPI/Client.kt:210-217 | A success answer is searched for the ID. Anything else throws. |
| MangaUpdatesClient.GetTitleId | src/main/kotlin/MangaUpdatesAPI/Client.kt:171-218 | The trimmed page ID is fetched, re-sent while 412. Only a 404 leads to the `series.html?id=` request, and the answer acted on is checked and searched. |
| MangaUpdatesClient.GetTitleIdFallsBack | src/main/kotlin/MangaUpdatesAPI/Client.kt:189-209 | A 404 followed by a success gives the ID read from the old-style page, after exactly those two requests. |
| MangaUpdatesClient.MakeList | src/main/kotlin/MangaUpdatesAPI/Client.kt:228-254 | Only the create request is sent, re-sent while 412. The new list's ID is returned exactly on a success that decodes. |
| MangaUpdatesClient.FirstWithTitle | src/main/kotlin/MangaUpdatesAPI/Client.kt:264 | Gives the first list with the title, or none exactly when no list has it. |
| MangaUpdatesClient.GetListId | src/main/kotlin/MangaUpdatesAPI/Client.kt:262-272 | The lists are looked up first. An ID is returned only after a successful lookup, and a failed lookup throws after that one request. |
| MangaUpdatesClient.GetListIdFinds | src/main/kotlin/MangaUpdatesAPI/Client.kt:262-272 | If a list with the title exists, its ID is returned after the single lookup request. |
| MangaUpdatesClient.GetListIdCreates | src/main/kotlin/MangaUpdatesAPI/Client.kt:262-272 | Otherwise a READ list is created with the rendered description, and its outcome is the call's. |
| MangaUpdatesClient.TokenOnlyForListCalls | src/main/kotlin/MangaUpdatesAPI/Client.kt:300-305 | Every reading-list call carries the token. The series pages and the login do not. |
| MangaUpdatesImport.BatchesFrom | src/main/kotlin/Utilities/ExportUtilities.kt:262-264 | Every batch has 1 to 100 elements, and all but the last have exactly 100. |
| MangaUpdatesImport.BatchesCover | src/main/kotlin/Utilities/ExportUtilities.kt:262-266 | Laid end to end, the batches are the list. |
| MangaUpdatesImport.BatchCount | src/main/kotlin/Utilities/ExportUtilities.kt:262 | There are ceil(n / 100) batches. |
| MangaUpdatesImport.BatchReport | src/main/kotlin/Utilities/ExportUtilities.kt:268-277 | If the status starts with "partial": an error when every title failed, else a warning, each ending in the error list. Otherwise a success line. A partial answer with no context throws. |
| MangaUpdatesImport.ByTitleFrom | src/main/kotlin/Utilities/ExportUtilities.kt:262-281 | The batches sent are a prefix of the batching. A finished run sent them all and published two lines per batch. |
| MangaUpdatesImport.ImportByTitle | src/main/kotlin/Utilities/ExportUtilities.kt:258-282 | A finished import sent every trimmed title in order and published the opening line plus two per batch. |
| MangaUpdatesImport.LookupIds | src/main/kotlin/Utilities/ExportUtilities.kt:305-316 | A finished lookup has one ID per series with a `mu` link. Every ID is digits or "". |
| MangaUpdatesImport.UnlinkedAreOnlyWarned | src/main/kotlin/Utilities/ExportUtilities.kt:306-309 | Series without a `mu` link cost no request and are each named in a warning. |
| MangaUpdatesImport.ByIdFrom | src/main/kotlin/Utilities/ExportUtilities.kt:318-329 | A rejected batch is reported and the loop goes on. Only an undecodable rejection ends it early. |
| MangaUpdatesImport.ImportById | src/main/kotlin/Utilities/ExportUtilities.kt:290-330 | A finished import sent as many IDs as there are series with a `mu` link. |
| LocaleEditor.Initial | src/main/kotlin/ExporterUI.kt:400-402 | The list starts with the eight default locales, no repeats, nothing selected. |
| LocaleEditor.SwapBack | src/main/kotlin/ExporterUI.kt:933-935 | Swapping twice restores the list, in either index order. |
| LocaleEditor.SwapKeepsElements | src/main/kotlin/ExporterUI.kt:933-935 | Swapping permutes the list. |
| LocaleEditor.SwapOrThrow | src/main/kotlin/ExporterUI.kt:933-935 | `swap` succeeds exactly when both indexes are inside the list. Otherwise it throws for the bad one. |
| LocaleEditor.Up | src/main/kotlin/ExporterUI.kt:429-434 | UP below the top moves the selected locale and the selection up by one, and nothing else moves. At the top nothing changes. |
| LocaleEditor.UpAtTopThrows | src/main/kotlin/ExporterUI.kt:429-434 | As written, UP on the first locale throws for index -1. Everywhere else it does what `Up` does. |
| LocaleEditor.Down | src/main/kotlin/ExporterUI.kt:469-474 | DOWN above the bottom moves the selected locale and the selection down by one, and nothing else moves. |
| LocaleEditor.DownUndoesUp | src/main/kotlin/ExporterUI.kt:429-474 | DOWN undoes any UP that moved something. |
| LocaleEditor.UpUndoesDown | src/main/kotlin/ExporterUI.kt:429-474 | UP undoes any DOWN that moved something. |
| LocaleEditor.Delete | src/main/kotlin/ExporterUI.kt:447-455 | DEL removes exactly the selected locale. The selection stays at its index or moves to the new last element, and is cleared when the list empties. |
| LocaleEditor.Insert | src/main/kotlin/ExporterUI.kt:521-531 | "+" adds exactly a non-empty, unlisted locale, before the selection or at the top. The selection stays on its locale. |
| LocaleEditor.InsertThenRemove | src/main/kotlin/ExporterUI.kt:528 | Removing the inserted locale where it went in restores the list. |
| RunForm.CheckboxFindsOption | src/main/kotlin/ExporterUI.kt:750-754 | Every export check box's upper-cased text finds its own option. |
| RunForm.CheckboxFindsLink | src/main/kotlin/ExporterUI.kt:755-759 | Every link check box's text finds the link it was made from. |
| RunForm.CanonicalNamesIdentify | src/main/kotlin/ExporterUI.kt:56 | No two link kinds share a check-box label. |
| RunForm.SelectedIndex | src/main/kotlin/ExporterUI.kt:977-984 | Gives the first selected button, or -1 exactly when none is selected. |
| RunForm.LoadedSelection | src/main/kotlin/ExporterUI.kt:660-661 | The saved text, read as an `Int`, if it names a button. Otherwise 0. |
| RunForm.SaveThenLoad | src/main/kotlin/ExporterUI.kt:644-662 | Saving and then loading selects the same button (the first when none was), and only it. |
| RunForm.NumberField | src/main/kotlin/ExporterUI.kt:734-749 | An empty field gives the default. Otherwise the text must read as an `Int`. |
| RunForm.NumberFieldReadsBack | src/main/kotlin/ExporterUI.kt:734-749 | Every 32-bit value typed into a numeric field is read back. |
| RunForm.RunRefusesFirstFailure | src/main/kotlin/ExporterUI.kt:697-749 | Run is refused exactly when some check fails, and the reason given is the first failing check in the handler's order. |
| RunForm.RunStartsWithForm | src/main/kotlin/ExporterUI.kt:750-775 | A started run gets the fields, the defaults, the checked options and links, the MangaUpdates credentials exactly when MangaUpdates is checked, and the chosen method. It throws only when no method is chosen. |
| Strings.ParseInt32OfIntToString | src/main/kotlin/ExporterUI.kt:734 | `toIntOrNull` reads back every 32-bit value's decimal text. |
| Titles.Ordered | src/main/kotlin/Utilities/ExportUtilities.kt:104 | An `EnumSet` iterates its members once each, in declaration order. |

## Left out

- HTTP: requests and responses are data, and the server's answers are a script. Running out
  of answers is `Unanswered` or `OutOfResponses`, which the program itself cannot reach.
- The Ktor client, the MangaDex token fetch and refresh, and the MangaUpdates login.
- `delay` calls are recorded as events (MangaDex) or left out (MangaUpdates, where they only
  pause).
- The clock. `System.currentTimeMillis()` is a field of a rate-limited response, and
  `LocalDateTime.now()` is a `Moment` parameter.
- `println` output. Lines the imports publish to the window are kept with their kind, and the
  fetch loop's published lines are reduced to request and delay events.
- The floating-point duration estimate in `importToMangaUpdatesByID`.
- The Swing machinery: `SwingWorker` publish, process and done, layouts, and the "All" check
  boxes.
- File creation, `user.home`, and file-system errors. An export is a list of named files with
  their contents.
- The settings and credentials files (`Utilities/SettingsManager.kt`), except the saved
  import-method selection. The locale sync from settings is also out.
- `toSimplifiedMangaInfo` (title choice by locale) is a mapper parameter of the fetch loop.
- JSON encoding and decoding: a response's decoded shape is given with it.
- 32-bit overflow of offsets and counters: they are unbounded integers.
- Exception messages: a thrown failure keeps only its kind and the status.
- Stamps of years outside 1 to 9999: `Valid` excludes them.
- Strings.ParseInt32: reads ASCII digits only. Kotlin's `toIntOrNull` goes through
  `Character.digit`, which also accepts the decimal digits of other Unicode scripts. The
  model leaves those out because it has no Unicode character tables.
- Export.VisitLink, Export.Run and Export.Flush: their own contracts only keep the key sets that
  later accesses need. What they compute is stated by NullsAt, TextsAt, CsvOf, RunNullsAt,
  RunTextsAt, RunCsv and FlushAt.
- MangaUpdatesClient.GetListId: its own contract covers the lookup request and a failed lookup.
  What it returns after a successful lookup is stated by GetListIdFinds and GetListIdCreates.
- MangaUpdatesImport.ImportById: the contract counts the IDs sent, not their values, which
  come from the scripted series pages (LookupIds states that they are digits or empty).

## Findings

| source | as written | input that shows it | evidently intended | confidence | as-written member | corrected member |
|---|---|---|---|---|---|---|
| src/main/kotlin/ExporterUI.kt:881 | `expectedTotal` starts at 99 whatever the initial offset, so a failed first call ends the run when the initial offset is above 99 (100 or more). `getAllFollowedManga` sets the same sentinel at src/main/kotlin/MangadexApi/Client.kt:131. | initial offset 100, answers: 500, then a page of titles | keep fetching until a page has arrived | not executed | MangadexClient.SentinelEndsFetchBeforeAnyPage | MangadexClient.FetchTitlesCorrectedNeedsAPage |
| src/main/kotlin/MangadexApi/Client.kt:142-143 | The wait is `now - periodEnd + 1`, which is negative for a future period end. The no-header fallback "60000" is parsed as a period end. | clock 1000 with header "5000" gives -3999; no header gives now - 59999 | wait until the period end (never negative), or 60000 ms | not executed | MangadexClient.WaitIsReversed | MangadexClient.IntendedRateLimitWait |
| src/main/kotlin/Main.kt:83-85 | The PER_LIST flush appends a link's buffer once per listing. A buffer already holding k copies of each line is written k times. | one series with `mu` = "x", `saveLinks` = [mu, mu]: PER_TITLE gives "x\nx\n", PER_LIST gives "x\nx\nx\nx\n" | both modes write the same file | not executed | ExportFiles.WriteTextFilesContents | ExportFiles.WriteTextFilesCorrectedContents |
| src/main/kotlin/Utilities/ExportUtilities.kt:248 | The stats entries are appended with no line break, so all counts share one line. | any two selected links | one line per link, as the header's "\n" layout shows | not executed | ExportFiles.WriteTextFilesContents | ExportFiles.WriteTextFilesCorrectedContents |
| src/main/kotlin/Utilities/ExportUtilities.kt:122-126 | `fileNameEnd` already starts with "_", and the template adds another. | base "F" at 2024-01-02 03:04:05 gives "F__2024_01_02_03_04_05.txt" | "F_2024_01_02_03_04_05.txt", as documented | not executed | ExportFiles.ListNamesDoubleUnderscore | ExportFiles.DocumentedNamesHoldTheStamp |
| src/main/kotlin/ExporterUI.kt:430 | The UP guard is `selectedIndex >= 0`, so UP on the first locale calls `swap(0, -1)`, which throws. | 8 default locales, first one selected, press UP | UP does nothing at the top, like DOWN at the bottom | not executed | LocaleEditor.UpAtTopThrows | LocaleEditor.Up |

Also, the dots in the series-ID pattern are not escaped, so they match any character. This is
not claimed as a finding, since the pattern still accepts every genuine link.
MangaUpdatesClient.DotsAreWildcards states it.
