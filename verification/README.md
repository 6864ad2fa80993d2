# grepod, verified

A Dafny model of grepod's log pipeline: tailers feed a batch queue, the queue feeds a store with
one SQLite file per day, a paged full-text search reads the store, and live subscribers follow a
broadcaster. `dafny verify dfyconfig.toml` checks everything.

The pure parts of the program are functions with lemmas. Its objects (`Store`, `BatchQueue`,
`Broadcaster`, `Manager`, `fanoutSink`) are classes whose methods update their fields and are proved
against those functions. What goroutines do to each other is a step system: one event for each atomic
action, a run being any sequence of enabled events (`Runs.Exec`). The theorems about the queue, the
drop warning, the broadcaster, the marker and the shutdown hold for all runs.

| file | contents |
|---|---|
| `Text`, `Calendar`, `Timestamps` | strings, days and shard names, RFC 3339 timestamps and their order as text |
| `Cursor`, `MatchQuery`, `Snippet` | the three codecs: page cursor, match query, highlighted HTML |
| `Sql`, `Ranking`, `Shards`, `Search`, `Paging`, `Answers` | a small SQL with positional arguments, the order of results, shard selection, the query compiler, whole pagination runs, and what they show of which rows |
| `Ingest`, `Recency`, `Store` | what a batch adds, the last-seen scan, and the store with retention |
| `Runs`, `QueueSteps`, `BatchQueue`, `DropWarning` | runs, the queue's interleavings, the queue as an object, the drop-warning protocol |
| `FanOut`, `Broadcaster`, `FanoutSink` | the broadcaster's interleavings, the broadcaster and the sink as objects |
| `Reconciler`, `Markers`, `Manager` | pod events, the marker protocol, the manager as an object |
| `Shutdown`, `Delivery`, `EndToEnd` | a whole run up to the exit, that any lines can be stored by one, and what browsing then shows |

Modelling choices that matter when reading the theorems:

- A shard is a sequence of rows with increasing row ids; a transaction commits all of its rows or none.
  `MATCH`, `bm25()` and `snippet()` are arbitrary functions of table, query text and row (`Sql.Engine`).
  A rank is a finite binary64 in the notation `FormatFloat(r, 'x', -1, 64)` prints.
- An instant counts nanoseconds of local time in one fixed zone, from the year 0 to 9999. The clock,
  the disk's failures and the order in which Go visits a map are parameters or arbitrary choices.
- Pod events are handled one at a time. Opening a log stream under a cancelled context fails; this is
  the one fact about client-go that the shutdown theorem rests on.

Places where the code does not do what a comment or document says; the code is what is modelled, and the
exact condition is proved:

- `Close` does not flush every accepted line (internal/storage/queue.go:211-215): a line accepted after
  the loop's last poll stays in the channel (`QueueSteps.LateLineIsLost`). All lines are flushed exactly
  if none is accepted after that poll (`QueueSteps.StoppedMeansFlushed`), so certainly if all producers
  have stopped (`QueueSteps.CloseFlushesAll`); the program's own shutdown sees to that
  (`Shutdown.AcceptedMeansStored`).
- `LastSeen`'s result is not always the latest time (internal/storage/sqlite.go:619-628): in UTC a text
  with a shorter fraction can be greater (`Recency.WholeSecondShadowsHalf`). It is the latest time exactly
  if the zone is numeric or no other row of that second has a fraction that is a prefix of the latest
  one's (`Recency.LastSeenIsLatest`).
- `resolveMarker` can query the store more than once for a container in one process lifetime
  (internal/tailer/manager.go:263-270): goroutines that overlap both query (`Markers.OverlapAsksTwice`), and
  so do two one after the other if the pod is deleted in between (`Markers.DeletionAsksAgain`). It queries at
  most once exactly if no goroutine finds the marker absent while another is asking, or after a deletion that
  followed an earlier miss (`Markers.AskedAtMostOnce`).
- Lines of a previous instance can move the marker (internal/tailer/manager.go:393-394, 435-437), though they
  are not tracked: they are enqueued with the current time, and once inserted they are among the rows from which
  the store seeds an absent marker. Then the live stream starts at such a line's time
  (`Markers.PreviousLineSeedsMarker`), and without the line at its beginning (`Markers.WithoutItNoMarker`). They
  have no influence exactly if at no lookup one of those inserted is reported ahead of all the container's other
  rows of the window (`Markers.PreviousLinesHarmlessIff`); in a numeric zone, ahead means later
  (`Recency.LaterRival`). So there is none if none of them has been inserted yet (`Markers.NoneStoredSameAnswer`),
  or if the marker is there at the check, because then nothing is asked.
- A search whose context expires does not always return the context's error (internal/storage/sqlite.go:371-375):
  if it expires after the first check and before the first ATTACH, every shard is skipped, and the result is an
  empty page without an error (`Search.ExpiredSearchIsEmpty`). The query is made, and can fail, exactly if
  a shard was attached (`Search.SearchStore`).
- Retention keeps what it promises only in UTC (internal/storage/sqlite.go:680-702), because shard dates are
  read as UTC midnights: west of it a line can be lost early (`Store.WestLosesEarly`), east of it one can be
  kept too long (`Store.EastKeepsLonger`), and `Store.PromiseNeedsUtc` shows that no other offset will do.
  `Store.RetentionBounds` has the bounds for every offset.
- The log can hold more than one queue-full warning in an interval (internal/storage/queue.go:13-20, 114-117).
  What the protocol spaces are the stamps it stores: a stamp other than 0 is followed by one at least an
  interval later, exactly unless the clock jumps back so far that their difference overflows
  (`DropWarning.NextStampIsLater`, and `DropWarning.OverflowStoresEarlier` for such a jump). Warnings are
  logged later than their stamps are stored: a producer that stalls in between can log its warning together
  with the next one, which then reports no drop (`DropWarning.StalledWinnerWarnsTwice`). Warnings come one at
  a time exactly if no producer stores a stamp while another has still to warn
  (`DropWarning.WarningsInTurn`). With clocks after 1970, a bound on how much later than its stamp a warning
  is logged puts the warnings of all such runs an interval apart exactly if the bound is zero
  (`DropWarning.LimitNeedsPromptness`); otherwise they are apart by an interval less the delay
  (`DropWarning.WarningsSpaced`).

Two edges of functions that their callers do not reach, proved all the same:

- Replaying a pod event restarts tailers if a container name occurs in it with two restart counts
  (`Reconciler.TwoCountsRestart`), which is the only case (`Reconciler.ReplayChangesNothing`). Kubernetes
  keeps container names unique in a pod.
- A range that ends earlier in its day than it starts loses its last day (`Shards.LastDayCanBeLost`), and only
  such a range does (`Shards.RangeIsWholeDays`). Searches pass midnights, and the list of known pods ends now.

## Model

| member | source | states |
|---|---|---|
| Calendar.DayNumberOfCivil | internal/storage/sqlite.go:115 | stepping a day at a time agrees with the closed-form number of a Gregorian date |
| Calendar.ParseFormat | internal/storage/sqlite.go:21 | a date of a four-digit year survives formatting and parsing |
| Calendar.FormatParse | internal/storage/sqlite.go:697 | a text that parses as a date is the text that date is formatted to |
| Calendar.NameInjective | internal/storage/sqlite.go:113-116 | different days have different shard names |
| Calendar.AliasOrder | internal/storage/sqlite.go:419 | the ATTACH alias is injective and sorts as text exactly as the calendar does, so ORDER BY shard is calendar order |
| Timestamps.StampRoundTrip | internal/storage/sqlite.go:256 | the stored RFC 3339 text of an instant parses back to that instant |
| Timestamps.LaterSecondIsGreater | internal/storage/sqlite.go:660 | within a day, a later second is a greater text |
| Timestamps.SameSecondOrder | internal/storage/sqlite.go:660-667 | within a second, text order is time order exactly if the zone is numeric or the earlier fraction is no prefix of the later one |
| Cursor.RankRoundTrip | internal/storage/sqlite.go:316-328 | every finite rank survives the hexadecimal float notation |
| Cursor.IntRoundTrip | internal/storage/sqlite.go:316-333 | every int64 survives signed decimal; parsing checks the range |
| Cursor.Base64RoundTrip | internal/storage/sqlite.go:317-322 | unpadded base64url decoding undoes encoding, for every byte string |
| Cursor.CursorRoundTrip | internal/storage/sqlite.go:311-338 | a decoded cursor is the one encoded, for every mode, finite rank, int64 row id and shard without a bar; an encoded cursor is never empty |
| Cursor.DecodesIffFields | internal/storage/sqlite.go:320-338 | a text is read as a cursor exactly if it is base64 for a mode, a rank, a shard and a row id that make it up, separated by bars; anything else is refused |
| Cursor.RankOrder | internal/storage/sqlite.go:488-492 | the numbers that ranks stand for are ordered as sign, exponent and digits say: negative ones first, a larger magnitude further from zero |
| MatchQuery.SanitizeMatchQuery | internal/storage/sqlite.go:269-275 | the in-place loop computes the joined quoted fields |
| MatchQuery.SanitizedRoundTrip | internal/storage/sqlite.go:263-275 | read as FTS5 string literals, the sanitized query is exactly the list of its fields, whatever quotes and operators they contain |
| MatchQuery.FieldsComplete | internal/storage/sqlite.go:270 | the fields are nonempty, free of white space, and together everything else in the text |
| MatchQuery.FieldsSeparated | internal/storage/sqlite.go:270 | a text is its fields with white space around and some between any two of them, so no word is cut or joined |
| MatchQuery.WhiteSpaceSeparates | internal/storage/sqlite.go:270 | blanks, tabs, line ends, no-break and wide spaces each separate two words |
| Snippet.EscapeIsRender | internal/storage/sqlite.go:356-361 | the three whole-string replacements equal one substitution per character |
| Snippet.SnippetRoundTrip | internal/storage/sqlite.go:346-361 | undoing tags and entities recovers the raw line, for every line |
| Snippet.MarkupOnlyFromSentinels | internal/storage/sqlite.go:346-355 | every '<' in the output opens the tag of one sentinel of the input, and no quote survives |
| Shards.PathInjective | internal/storage/sqlite.go:90-92 | different dates have different files |
| Shards.ExistingShardDates | internal/storage/sqlite.go:114-126 | the loop returns the last ten of the dates in range that have a file, and whether any were dropped |
| Shards.ShardDaysExact | internal/storage/sqlite.go:115-120 | a day is listed exactly if it has a file and is reached by whole-day steps from start no later than end |
| Shards.RangeIsWholeDays | internal/storage/sqlite.go:115 | the days in range are all from the first to the last, exactly if the range does not end earlier in its day than it starts |
| Shards.LastDayCanBeLost | internal/storage/sqlite.go:115 | a range over two days that lists only the first |
| Shards.ShardDaysAscending | internal/storage/sqlite.go:103-105 | the days are listed once each, oldest first |
| Shards.CapKeepsLatest | internal/storage/sqlite.go:105-125 | the cap keeps min(10, n) days in ascending order, each later than every day it drops |
| Shards.LatestDates | internal/storage/sqlite.go:114-126 | the dates a query attaches are the names of those latest days |
| Search.LevelsMeaning | internal/storage/sqlite.go:43-63 | a recognised minimum level selects exactly the levels at least as severe; an unrecognised one filters nothing |
| Search.LevelsByName | internal/storage/sqlite.go:43-63 | a minimum of FATAL, ERROR, WARN, INFO, DEBUG or TRACE, in any case, selects the names up to it in this list |
| Search.WhereMeaning | internal/storage/sqlite.go:435-471 | one shard's conditions have as many placeholders as arguments, and hold of a row exactly if it matches, has a wanted level and the wanted pod |
| Search.UnionMeaning | internal/storage/sqlite.go:416-479 | the UNION ALL over any shard list takes its arguments in order and yields the wanted hits of all of them |
| Search.KeysetMeaning | internal/storage/sqlite.go:480-487 | the keyset condition, in either mode, holds exactly of hits that come after the cursor in the result order |
| Search.OuterMeaning | internal/storage/sqlite.go:480-487 | the outer WHERE keeps exactly the hits after the cursor, or all without one |
| Search.SortMeaning | internal/storage/sqlite.go:488-492 | the ORDER BY sorts by (shard, rowid) descending when browsing and (rank, shard, rowid) ascending otherwise |
| Search.QueryMeaning | internal/storage/sqlite.go:405-495 | for every shard list, mode, filters and cursor: placeholders and arguments line up, and the query's rows are the first limit + 1 of the sorted wanted hits beyond the cursor |
| Search.SourcesWellFormed | internal/storage/sqlite.go:418-424 | the attached shards have different aliases, so (shard, rowid) names a row |
| Search.BuildConditions | internal/storage/sqlite.go:435-448 | the loop over levels and the pod filter build conditions and arguments side by side |
| Search.BuildUnion | internal/storage/sqlite.go:416-473 | the loop over dates skips exactly the shards that fail to ATTACH and appends SELECTs and arguments in step |
| Search.BuildQuery | internal/storage/sqlite.go:405-495 | query and arguments built are the compiled ones of the shards that were attached |
| Search.ReadPage | internal/storage/sqlite.go:503-533 | limit + 1 rows become a page of at most limit results, and a cursor exactly if there are more |
| Search.SearchStore | internal/storage/sqlite.go:376-534 | a search returns the page its specification says: sort, skip through the cursor, take limit; a page never holds more than the limit, clamped to 500, and exactly so many if it offers a next one; without a shard in range the page is empty whatever the cursor, otherwise an unreadable cursor is an error; a cancelled context and a query that fails are errors, the latter only if there is a shard to query |
| Search.ExpiredSearchIsEmpty | internal/storage/sqlite.go:420-476 | if no shard can be attached, as after the context has expired, the result is an empty page and no error |
| Ranking.BeyondIsFilter | internal/storage/sqlite.go:480-492 | filtering by the keyset and then sorting is sorting and then skipping through the cursor |
| Ranking.SortSorted | internal/storage/sqlite.go:488-492 | sorting rearranges, and puts distinct rows in strict order |
| Ranking.RankedSorted | internal/storage/sqlite.go:297-306 | the full result is strictly ordered and holds every wanted row once, rank ties included |
| Ranking.DropThroughOwn | internal/storage/sqlite.go:529-532 | skipping through a result's own place leaves exactly the results after it |
| Paging.FollowAll | internal/storage/sqlite.go:521-533 | following next from any point reads the following results in order, and all of them in at most as many pages as results plus one |
| Paging.NextFromCursor | internal/storage/sqlite.go:480-533 | with the cursor of the k-th result a later search finds exactly the results after it, also when the newest shard has grown meanwhile while browsing |
| Paging.GrowthNotAfter | internal/storage/sqlite.go:481-489 | rows appended to the newest shard are never beyond a browse cursor of the snapshot |
| Paging.PaginationComplete | internal/storage/sqlite.go:480-533 | a whole run ends and its pages concatenate to the full ordered result of page one's snapshot, in either mode, with no gap, duplicate or reordering |
| Paging.StableStore | internal/storage/sqlite.go:480-533 | a store that does not change needs nothing else for that |
| Paging.IngestionIsStable | internal/storage/sqlite.go:481-489 | nor does browsing while batches of the newest date are inserted between the pages, whichever of them fail |
| Paging.InsertBatchIngests | internal/storage/sqlite.go:210-240 | what InsertBatch ensures is such an insertion, when the newest date has its file |
| Answers.RunShowsRows | internal/storage/sqlite.go:376-534 | a whole run, keyword search or browsing, shows exactly the rows of the attached days that match and have a wanted level and the wanted pod, each once: every result has its row's columns, and its text, or its bm25() and snippet(); no result's bm25() is above that of a later one, ties going by day and row id; browsing shows the newest first |
| Answers.AttachedExactly | internal/storage/sqlite.go:114-126 | a day is attached exactly if it is in range, has a file that can be attached, and fewer than ten later days in range have a file |
| Ingest.GroupsPartition | internal/storage/sqlite.go:224-228 | each line of a batch is in its own date's group as often as in the batch |
| Ingest.AppendAdds | internal/storage/sqlite.go:242-261 | a committed transaction adds exactly its rows, in order, behind the table, with increasing ids |
| Ingest.InsertedKeepsPartition | internal/storage/sqlite.go:210-240 | whichever groups were committed, every row's timestamp still falls on its shard's date |
| Ingest.InsertedAddsBatch | internal/storage/sqlite.go:210-240 | with all groups committed each shard has gained its part of the batch in order, and the shards together the batch as a multiset |
| Ingest.InsertedHoldsLines | internal/storage/sqlite.go:242-261 | each day's table has gained one row for each of the day's lines, in order, with the line's own pod, namespace, container, level and text and a timestamp that reads back as its time; or, if not all dates were committed, is what it was |
| Ingest.OfDayExact | internal/storage/sqlite.go:224-228 | the day's lines are those written on it, each as often as in the batch |
| Ingest.NewStore | internal/storage/sqlite.go:77-88 | a new store is in order and has room for as many lines as there are row ids |
| Recency.MaxIsGreatest | internal/storage/sqlite.go:660 | MAX over text is a greatest element, and null exactly for no rows |
| Recency.NotFoundIffNone | internal/storage/sqlite.go:619-646 | the scan reports not found exactly if the container has no row in the 30-day window |
| Recency.FailsIffBlocked | internal/storage/sqlite.go:629-646 | the scan fails exactly if some day of the window has a file that cannot be read and no later day that can be read has a row of the container; otherwise unreadable files make no difference, and no stored time fails to parse |
| Recency.LatestExists | internal/storage/sqlite.go:619-628 | a container with a row in the window has a latest one |
| Recency.LastSeenIsLatest | internal/storage/sqlite.go:619-671 | otherwise the early-exit scan reports a stored time of the latest second in the window, and the latest itself exactly if the zone is numeric or nothing shadows it |
| Recency.GreatestTextIsLatest | internal/storage/sqlite.go:660-667 | the greatest text of a shard is of its latest second, and of its latest instant under that same condition |
| Recency.WholeSecondShadowsHalf | internal/storage/sqlite.go:660-667 | in UTC, of two lines half a second apart the earlier one is reported |
| Recency.LastSeenIsReported | internal/storage/sqlite.go:619-671 | the scan depends on nothing but the set of times at which the container has rows, and reports the foremost of those in the window |
| Recency.ReportedIffOvertaken | internal/storage/sqlite.go:660-667 | leaving out some of the times changes what is reported, exactly if one of those left out is ahead of all that remain |
| Recency.AheadIsLater | internal/storage/sqlite.go:660-667 | in a numeric zone ahead means later |
| Recency.SeenAfterInsert | internal/storage/sqlite.go:210-261 | an insert adds to a container's times exactly those of its lines on the dates committed, whichever instance they come from |
| Store.FileNameRoundTrip | internal/storage/sqlite.go:90-92 | a file name yields a date exactly if it is that date's path |
| Store.RetentionInUtc | internal/storage/sqlite.go:680-702 | in UTC lines at most days - 1 days old survive; of older ones than days only those written at the cutoff itself, at midnight |
| Store.RetentionBounds | internal/storage/sqlite.go:680-702 | in a zone with an offset both bounds move by the offset |
| Store.PromiseNeedsUtc | internal/storage/sqlite.go:680-702 | both bounds hold of all lines and all times of cleanup exactly if the offset is zero (or a nanosecond less) |
| Store.WestLosesEarly | internal/storage/sqlite.go:680-702 | in any zone west of UTC a line exactly days - 1 days old that is lost |
| Store.EastKeepsLonger | internal/storage/sqlite.go:680-702 | in any zone east of UTC a line more than days days old that is kept |
| Store.CleanedDay | internal/storage/sqlite.go:687-712 | cleanup takes away a day's rows exactly if its midnight precedes the cutoff and its file can be removed |
| Store.CleanedFiles | internal/storage/sqlite.go:700-708 | a day's file and both of its sidecars go exactly if its midnight precedes the cutoff, but for what cannot be removed |
| Store.CleanedKeepsPartition | internal/storage/sqlite.go:674-720 | cleanup keeps every row in its own day's shard |
| Store.GroupsOf | internal/storage/sqlite.go:224-228 | the map by date has exactly the batch's dates, and for each its lines in order |
| Store.Store.ByDate | internal/storage/sqlite.go:224-228 | the loop builds that map |
| Store.Store.GetOrOpenDB | internal/storage/sqlite.go:149-177 | returns the date's handle, opening and creating the file if needed; a failure leaves all tables and handles as they were |
| Store.Store.InsertGroup | internal/storage/sqlite.go:242-261 | all rows are committed or none, whichever statement fails |
| Store.Store.InsertBatch | internal/storage/sqlite.go:210-240 | for every order of visiting the dates whole groups are added and nothing else; success means all of them, and there is success exactly if no group's transaction is bound to fail, unless the context is cancelled; rows stay in their day's shard, and only shards of the batch's dates can be new; each day's table has gained a row for each of its lines, field by field, or on failure may be what it was |
| Store.Store.LastSeen | internal/storage/sqlite.go:629-646 | the loop returns what the specified scan returns, errors included |
| Store.Store.DeleteExpired | internal/storage/sqlite.go:687-712 | for every order of the directory: exactly the files of expired shards and their sidecars are gone, but for those that cannot be removed; the handles of expired shards are closed, and the other shard dates returned |
| Store.Store.CleanupOldDBs | internal/storage/sqlite.go:674-738 | the same for the whole cleanup; afterwards a handle is open exactly on shards that had one and are kept and on kept shards that can be opened; every open handle's file exists |
| Store.Store.CloseShard | internal/storage/sqlite.go:722-729 | closes that date's handle and no other |
| Store.Store.Close | internal/storage/sqlite.go:765-773 | afterwards nothing is open |
| QueueSteps.RunKeepsInv | internal/storage/queue.go:94-209 | in every run: accepted lines are, in order, the batches, the batch being inserted, the buffer, the line in hand and the channel; offered lines are those accepted and those dropped; buffer, channel and batches keep their bounds |
| QueueSteps.StoppedMeansFlushed | internal/storage/queue.go:211-219 | when Close returns all accepted lines are in batches exactly if none was accepted after the last poll |
| QueueSteps.CloseFlushesAll | internal/storage/queue.go:152-188 | after the last producer has gone a close flushes every accepted line, the last batch holding at most 5 * size - 1 |
| QueueSteps.LateLineIsLost | internal/storage/queue.go:167-178 | a run in which an accepted line is never flushed |
| BatchQueue.BatchQueue.Enqueue | internal/storage/queue.go:103-134 | never blocks; drops the line exactly if the channel is full, and then counts it and warns as the protocol says |
| BatchQueue.BatchQueue.ReceiveLine | internal/storage/queue.go:142-149 | the loop moves one line to the buffer, and at the size threshold hands the buffer with this line to the store as one batch; below it the store is untouched |
| BatchQueue.BatchQueue.TickerFires | internal/storage/queue.go:150-151 | a tick hands the buffer to the store as one batch, if it is not empty |
| BatchQueue.BatchQueue.DrainChannel | internal/storage/queue.go:161-178 | moves the whole channel to the buffer, in order, and ends |
| BatchQueue.BatchQueue.FlushBuffer | internal/storage/queue.go:180-209 | the buffer goes to the store as one batch and is empty; the outcome says whether all of its shards were written |
| BatchQueue.BatchQueue.HandleDone | internal/storage/queue.go:152-156 | drain, flush, stop: afterwards every accepted line has been in a batch |
| BatchQueue.BatchQueue.SignalDone | internal/storage/queue.go:216-217 | closes the done channel, the loop being wherever it is |
| BatchQueue.BatchQueue.RecordDrop | internal/storage/queue.go:114-134 | without interference a call reports all pending drops and its own, or leaves them pending, as the steps of the protocol do |
| DropWarning.DropsConserved | internal/storage/queue.go:118-134 | in every run pending drops and reported ones are together all drops |
| DropWarning.OneWarningPerStamp | internal/storage/queue.go:129-133 | each stamp stored stands for one warning, given or about to be |
| DropWarning.WarningsInTurn | internal/storage/queue.go:129-133 | at most one warning is outstanding at any time, exactly if no producer stores a stamp while another has still to warn |
| DropWarning.WarningsInOrder | internal/storage/queue.go:129-133 | then the i-th warning in the log is that of the i-th stamp |
| DropWarning.NextStampIsLater | internal/storage/queue.go:124-131 | a stamp other than 0 is followed by one at least an interval later, exactly unless their difference overflows backwards |
| DropWarning.OverflowStoresEarlier | internal/storage/queue.go:126 | a clock jump by which a much earlier stamp follows a later one |
| DropWarning.RateLimited | internal/storage/queue.go:13-20 | with clocks after 1970, jumping as they may, at most length / interval + 1 stamps fall into any range of that length |
| DropWarning.WarningsSpaced | internal/storage/queue.go:114-117 | a warning in turn is logged at least an interval after the one before, less that one's delay after its stamp |
| DropWarning.LimitNeedsPromptness | internal/storage/queue.go:114-117 | with a bound on the delay, warnings in turn are an interval apart in the log of every run exactly if the bound is zero |
| DropWarning.StalledWinnerWarnsTwice | internal/storage/queue.go:129-133 | a run with two warnings logged at once, the second of no drop |
| DropWarning.CallAlone | internal/storage/queue.go:118-134 | what one call does when no other interferes |
| FanOut.RunKeepsInv | internal/storage/broadcast.go:27-80 | in every run of publishes, readers and unsubscribes: no send on a closed channel, and the invariant of every subscriber |
| FanOut.Delivery | internal/storage/broadcast.go:55-80 | in every state and for every subscriber, also one that has left: received and buffered lines are an ordered subsequence of those sent, which are the first of those published since subscribing, and with the evicted ones exactly as many; between publishes a current subscriber has been sent all of them |
| FanOut.OneEvictionPerPublish | internal/storage/broadcast.go:66-79 | in every run, a subscriber that is there when a publish begins has lost at most one line by eviction until the next one begins, and none while its turn has not come or only its first send has failed |
| FanOut.PublishNeverWaits | internal/storage/broadcast.go:53-80 | whatever readers do, a publish to n subscribers has ended after at most 3n + 1 steps of its own, and until then its next step is possible |
| FanOut.LinesCanBeReceived | internal/storage/broadcast.go:27-80 | for any lines there is a run in which a reader that keeps up receives exactly these, none evicted |
| FanOut.NeverPanics | internal/storage/broadcast.go:34-42 | no run sends on a closed channel |
| FanOut.SubsequenceOfTaken | internal/storage/broadcast.go:55-80 | leaving out evicted lines keeps the others' order and repeats none |
| FanOut.NewestIsSent | internal/storage/broadcast.go:70-77 | after an eviction the last select always finds room, so the newest line is never the one lost |
| FanOut.IdleReaderHasLatest | internal/storage/broadcast.go:59-62 | a subscriber that has read nothing holds exactly the last min(n, 256) lines sent to it, one less between an eviction and the send that follows |
| Broadcaster.UninterruptedPublish | internal/storage/broadcast.go:66-79 | without a reader in between the three selects leave the latest 256 lines and touch no other subscriber |
| Broadcaster.Broadcaster.Subscribe | internal/storage/broadcast.go:27-32 | a new, empty, open channel joins the map |
| Broadcaster.Broadcaster.Unsubscribe | internal/storage/broadcast.go:34-42 | takes the channel out of the map and closes it; repeating it changes nothing |
| Broadcaster.Broadcaster.Publish | internal/storage/broadcast.go:63-80 | for every order of the map each subscriber ends with the latest 256 lines, the new one last |
| FanoutSink.FanoutSink.Enqueue | cmd/server/main.go:186-189 | the line is offered to the queue once and reaches every subscriber, whether or not the queue has room |
| Reconciler.RunKeepsInv | internal/tailer/manager.go:185-261 | after every sequence of events the map of cancel functions holds exactly the uncancelled tailers, one per container, with the restart count each was started for; the own pod is never tailed |
| Reconciler.SkipsOnlySelf | internal/tailer/manager.go:185-216 | an event is skipped exactly if the own pod's name is known and is the event's; after any other each of its containers, and init containers if asked for, is tailed at its restart count, and no other container's tailers have changed |
| Reconciler.HandleAllEffect | internal/tailer/manager.go:198-215 | after a reconcile every container with a status is tailed at its current restart count and every other one is as before |
| Reconciler.ReplayChangesNothing | internal/tailer/manager.go:206-208 | replaying an event changes nothing, exactly if no name occurs in it with two restart counts |
| Reconciler.TwoCountsRestart | internal/tailer/manager.go:206-214 | an event with one name at two counts that restarts tailers when replayed |
| Reconciler.UnchangedIsLeftAlone | internal/tailer/manager.go:206-208 | containers at their recorded counts keep their tailers |
| Reconciler.ReAddedIsTailedAgain | internal/tailer/manager.go:201-214 | a pod deleted and added again is tailed by new goroutines, at whatever restart counts |
| Reconciler.DifferenceRestarts | internal/tailer/manager.go:210-214 | a status that differs from what is recorded starts a tailer |
| Manager.Manager.ReconcilePod | internal/tailer/manager.go:185-216 | the loop does what Reconcile says and changes no marker: nothing for the own pod, and for any other it leaves exactly the pod's containers tailed at their restart counts, the others being as before |
| Manager.Manager.StartContainer | internal/tailer/manager.go:218-229 | starts a tailer and records it and its restart count |
| Manager.Manager.StopContainer | internal/tailer/manager.go:231-241 | cancels the recorded tailer, if there is one, and forgets it |
| Manager.Manager.StopPod | internal/tailer/manager.go:243-261 | in any order exactly the pod's tailers are cancelled, and the markers of those that were being tailed are deleted |
| Manager.Manager.ResolveMarker | internal/tailer/manager.go:271-295 | afterwards there is an entry; one that was there, or that live ingestion set during the lookup, is not overwritten |
| Manager.Manager.SetMarker | internal/tailer/manager.go:311-320 | the marker becomes the later of itself and the time, and no other changes |
| Manager.Manager.StreamLogs | internal/tailer/manager.go:347-428 | a live stream is opened at the container's marker, its lines go to the sink in order, and the marker then is the later of itself and their times |
| Manager.Manager.Ingest | internal/tailer/manager.go:438-457 | every line goes to the sink once, in order, with its container, namespace, time, level and text; only a live stream's lines advance the marker, to the latest of their times |
| Markers.MarkerCoversLiveLines | internal/tailer/manager.go:306-320 | with goroutines overlapping: the marker is at least every live line's time that was set since the last deletion, and otherwise what a lookup recorded |
| Markers.StreamResumes | internal/tailer/manager.go:347-418 | a stream opened in any run starts no earlier than every live line recorded since the last deletion, and no later than the latest of those and the recorded lookup |
| Markers.MarkerNeverDecreases | internal/tailer/manager.go:253-260 | between deletions the marker never decreases or disappears, restarts included |
| Markers.LookupNeverOverwrites | internal/tailer/manager.go:266-294 | when live ingestion has set a time between a lookup and its recording, and nothing was deleted since, recording changes nothing and the marker is no earlier than that time |
| Markers.RecordKeepsEntry | internal/tailer/manager.go:290-294 | a lookup changes nothing if there was an entry when it asked and nothing was deleted before it recorded, whatever happened in between, or if there is one when it records |
| Markers.PreviousLinesOnlyThroughStore | internal/tailer/manager.go:393-457 | the previous instance's stream is not tracked: leaving out its lines, in the queue and in the store too, leads a run throughout to the same marker and, but for a line in hand, the same goroutines, exactly if the store answers every lookup of the run the same without them |
| Markers.SameAnswerIffOvertaken | internal/tailer/manager.go:281-288 | it answers a lookup the same exactly if none of those inserted is reported ahead of all the container's other rows |
| Markers.PreviousLinesHarmlessIff | internal/tailer/manager.go:271-295 | so over a whole run, from any rows in the store, they have no influence exactly if that holds at every lookup |
| Markers.NoneStoredSameAnswer | internal/tailer/manager.go:281-288 | none inserted by then, no influence |
| Markers.PreviousLineSeedsMarker | internal/tailer/manager.go:336-456 | a run of a fresh process, for every zone and time in the window, in which a previous instance's line seeds the marker and the live stream starts at its time |
| Markers.WithoutItNoMarker | internal/tailer/manager.go:336-418 | the same run without that line: the live stream starts at its beginning |
| Markers.LostLineSeedsNothing | internal/storage/queue.go:198-208 | the same run with that line lost in a failing batch: no row, and the live stream starts at its beginning |
| Markers.AskedAtMostOnce | internal/tailer/manager.go:263-266 | at most one store query exactly if no goroutine finds the marker absent while another is asking, or after a deletion that followed an earlier miss |
| Markers.OverlapAsksTwice | internal/tailer/manager.go:271-288 | two goroutines that overlap query twice |
| Markers.DeletionAsksAgain | internal/tailer/manager.go:253-260 | so does a container deleted and added again |
| Shutdown.NothingIsLate | cmd/server/main.go:70-79 | in every run nobody enqueues after queue.Close has begun, no batch is inserted after store.Close, and no tailer has a stream while the queue closes |
| Shutdown.AcceptedMeansStored | cmd/server/main.go:159-175 | at exit every accepted line has been handed to the store, and every day's table has gained exactly the accepted lines of that day in order, if and only if every insert succeeded |
| Shutdown.NeverStuck | cmd/server/main.go:148-175 | after the signal, in every run and up to the exit, some step of the shutdown is possible without any new line, stream or tailer |
| Shutdown.WindingNears | cmd/server/main.go:148-175 | every such step brings the exit nearer, by a measure over main, the manager, the tailers and the queue |
| Shutdown.ExitIsReached | cmd/server/main.go:148-175 | so from every state after the signal the exit is reached, in at most as many steps as the measure says; if no insert has failed and row ids suffice for what is left, without an insert failing |
| Shutdown.RunControl | internal/tailer/manager.go:112-166 | cancellation, wg.Wait, the awaited channel and the order of deferred calls follow each other in every run, late informer callbacks included |
| Shutdown.StoreMore | internal/storage/queue.go:197-208 | a failed insert leaves some day short of its lines for good; a successful one adds all of the batch |
| Shutdown.InsertIsPossible | internal/storage/queue.go:197-208 | while a batch is being inserted everything that InsertBatch can do with it is possible, success included, and nothing else |
| Delivery.LinesCanBeStored | cmd/server/main.go:159-175 | for every batch size, every store with row ids left and any lines there is a run to the exit that accepts exactly these lines and stores all of them |
| EndToEnd.BrowseShowsHeld | internal/storage/sqlite.go:480-533 | a whole browse run over a store at rest shows exactly the rows of the attached days that pass the filters, the newest shard and row first, each once |
| EndToEnd.AcceptedLinesAreShown | cmd/server/main.go:159-175 | after an exit with all inserts successful such a run shows, of the attached days, what they held before and every accepted line that passes the filters, each once, newest first, with its own pod, namespace, container, level, time and text |

## Left out

- SQLite: FTS5's index and tokenizer, the numbers of bm25, the windows of snippet, WAL, vacuum. Why a query fails is left open; an error while its rows are read is a failing query.
- The SQL text: queries are syntax trees with positional placeholders; printing and parsing them is left out, and so is the literal shard name in each SELECT, which is modelled as a constant column.
- Row ids at the end of the int64 range: SQLite goes on with random ids, the model's transaction fails.
- Files that SQLite creates beside a shard, and directories in the data directory: sidecar files are only removed; directories are skipped by the program and not in the model's disk.
- Legacy schemas: migrateLegacySchema drops rows of shards older than the level column.
- Markers.PreviousLinesOnlyThroughStore: the store in the marker protocol holds one container's times; its lines are inserted one at a time and in order, whole batches being such steps in a row. Which lines the queue accepts is given, and cleanup does not run.
- Retention running at the same time as a flush or a search, and the cron goroutine that is not awaited at shutdown: cleanup is one step, and no cleanup happens in the shutdown system.
- Real time zones: one fixed offset, no daylight saving, years 0 to 9999; AddDate by one day is 24 hours. Days before the year 0 are skipped by the model's last-seen loop.
- Store.Store.InsertBatch: a context that ends half way appears as a statement that fails; timeouts as such are left out.
- Cursor.RankRoundTrip: parsing accepts what the program prints; the other spellings strconv.ParseFloat accepts, infinities and NaN are left out.
- Strings are sequences of characters: bytes that are not valid UTF-8 are left out, except in cursors, which are encoded as bytes.
- BatchQueue.BatchQueue.Enqueue: the select and the counting are shown without interference; what concurrent callers do is the subject of QueueSteps and DropWarning.
- Broadcaster.Broadcaster.Publish: the method is the case without readers in between; FanOut has the interleavings.
- The clock's readings in the drop-warning protocol are those of the stamp and of the log record; other producers' clocks are unrelated. The number of dropped lines is unbounded; the program's int64 counter could wrap around after 2^63 drops.
- A second call of BatchQueue.Close, which would panic, and the exits through os.Exit, which skip the deferred calls.
- KnownPods: the same attach loop as Search with a simpler result.
- HTTP handlers, SSE, metrics, logging, environment parsing, templates, detectLevel, nextBackoff, nextThreeAM, health endpoints, the informer and its cache, and bufio.Scanner's line limit: they would add only easy members or need client-go.
