# Network Log Server: a verified model

The Network Log Server collects the connection logs of MikroTik routers. A receiver takes syslog
lines, parses them and pushes records to a Redis list; workers claim batches of that list and insert
them into ClickHouse; a timer recovers the claims of dead workers and exports old months to files; a
small web application searches the table. Losing a record silently is what the design rules out.

This project states in Dafny what those programs do and proves what they promise. Programs that work
step by step are classes and methods with loops, proved against functions on values; what the source
promises is then proved about those functions, over all inputs or over all runs.

| file | what it covers |
|---|---|
| `Wire.dfy`, `RedisQueue.dfy` | records as they travel; the two Lua scripts and the queue around them |
| `Delivery.dfy` | queue, workers, maintenance and ClickHouse as one state machine, over all runs |
| `BatchWorker.dfy` | the worker program itself, taking steps of that machine on real lists |
| `Ingest.dfy`, `EndToEnd.dfy` | the receiver's accounting under interleaving; receiver and pipeline together |
| `SyslogFraming.dfy`, `SyslogOverflow.dfy` | the TCP line splitter, the framings of RFC 6587, and what the 64 KiB limit costs |
| `Regex.dfy`, `Patterns.dfy`, `Segments.dfy`, `MikroTikParser.dfy`, `Addresses.dfy` | a backtracking matcher, the source's patterns as its constants, and the parser |
| `Months.dfy`, `ArchiveFiles.dfy`, `Archive.dfy`, `Retention.dfy` | monthly archiving, dropping and pruning |
| `Search.dfy`, `Pager.dfy`, `CsvExport.dfy` | search, paging and the CSV export |
| `LoginThrottle.dfy`, `Routers.dfy`, `AllowList.dfy`, `Metrics.dfy` | login throttling, the routers table and its copies, the counters |

## What the proofs show about the code

The guarantees that hold, with the exact conditions, are in the table below. These are the places where
the code does less, or something else, than its documentation says; each is a lemma.

- A claim whose script ran while its reply was lost is claimed over, and the next acknowledgement
  deletes the first batch unseen (`Delivery.LostReplyLosesARecord`). At-least-once holds for all runs in
  which a claim that raises has moved nothing; otherwise `Delivery.LossIsBlind` says exactly when it does.
- The documentation knows one window for duplicates. Recovery of a list whose worker is alive, but named
  through `NLS_WORKER_ID` or running on another host, is a second one: no step fails and a record is
  stored twice (`Delivery.LiveRecoveryStoresTwice`, `RedisQueue.OnlyLocalPidsAreLive`).
- A payload of eleven fields whose first is no timestamp is not skipped like other bad payloads: it ends
  the worker each time it is claimed, and nothing behind it is ever acknowledged
  (`Delivery.PoisonStaysInRedis`, `Delivery.PoisonStopsTheLine`). The receiver never makes one
  (`Ingestion.RowRoundTrip`). The same holds for any record of which ClickHouse never confirms a row, because
  a batch is inserted as a whole and retried as it is (`Delivery.UnconfirmedStopsTheLine`).
- Octet-counted framing as RFC 6587 section 3.4.1 defines it is never delivered, because only a newline
  ends a message (`SyslogFraming.PureOctetCountingDeliversNothing`). The 64 KiB cut comes before the
  split, so a large chunk of short lines loses lines too (`SyslogFraming.LargeChunkLosesLines`), and
  `SyslogOverflow.ConnectionIsExactIff` says exactly which connections lose or change anything.
- With `require_nat` off, a plain line is lost when the letters NAT occur anywhere in it
  (`MikroTikParser.MentionOfNatHidesPlainLine`). A PPPoE user whose name begins with `in-` or `out-` is
  cut short (`MikroTikParser.SubscriberIsReadIff`).
- The push that drains the buffer at shutdown can overtake one that is still on its way, unless pushes are
  paused then, so that it sheds its batch instead (`Ingestion.DrainKeepsOrderIff`). Nor is that one waited
  for: leaving the event loop cuts it off. What Redis had not carried out by then, and lines that arrive after
  the drain, are lost without being counted; nothing is lost whatever becomes of the pushes under way only if
  there are none and the buffer is empty (`Ingestion.ExitLosesNothingIff`, `Ingestion.ExitNeverLosesIff`).
- A publish of the allow-list that fails, or two that overtake each other, leave the old list in Redis;
  receivers prefer it to the table for as long as Redis answers, so a disabled router stays accepted
  (`AllowList.WrongCacheStays`). An answer from Redis that is overtaken by a change does the same until the
  next refresh (`AllowList.OldAnswerComesLate`). Refreshes are right from some moment on exactly if nothing
  wrong is in the cache or on its way then (`AllowList.SettledRefreshes`).
- `prune_archives` follows the configuration and the table's TTL the setting that the web application changes.
  Files go while the table still keeps some of their rows unless the configuration keeps more months, and stay
  after their rows have left the table unless it keeps no more (`ArchiveFiles.NothingGoesEarlyIff`,
  `ArchiveFiles.NothingStaysLateIff`). It also deletes files of other tables that match its glob
  (`ArchiveFiles.PrunesForeignTables`).
- Closed months are assumed to receive no more rows, yet a backlog in Redis can bring some. Those that come
  between the export and the drop are lost (`Retention.RowsBehindTheSnapshotAreLost`); those that come after
  a drop replace the file of a month that is not on record as a success (`Retention.LateRowsOverwriteIff`),
  for instance because the drop was reported as an error (`Retention.MisreportedDrop`).
  `Retention.ArchiveSafetyIff` says of each row exactly which histories lose copies of it.
- A page size above the server's limit ends paging early (`Pager.CompleteIff`), and Prev does not undo
  Next when the page size was changed in between (`Pager.PrevUndoesNextIff`). Sorting by one column leaves ties
  open, so rows can be shown twice or not at all as soon as a page begins between two different rows that tie
  (`Pager.EveryOrderOnceIff`).

## Model

| member | source | states |
|---|---|---|
| `Wire.CountRows` | backend/app/services/worker.py:127-137 | decoding a batch keeps every decodable payload as often as it occurs and nothing else |
| `Wire.CountIsMultiplicity` | docs/architecture.md:76-79 | the occurrence counts that the delivery theorems compare are multiset multiplicities |
| `RedisQueue.Redis.ClaimScript` | backend/app/queue/redis_queue.py:39-52 | the claim script, loop and pieces of 1000 included, returns a prefix of the queue, leaves the rest there and appends the prefix to the in-flight list; no other list changes |
| `RedisQueue.Redis.PushInPieces` | backend/app/queue/redis_queue.py:45-50 | the chunked copying loop terminates and appends exactly the claimed items, in order, whatever their number |
| `RedisQueue.Redis.RequeueScript` | backend/app/queue/redis_queue.py:61-82 | the release script, feeding reversed chunks from the end, puts the whole in-flight list in order in front of the queue, deletes it and returns its length |
| `RedisQueue.ReversedChunk` | backend/app/queue/redis_queue.py:56-60 | a piece fed to LPUSH in reverse reappears in its original order in front of what was pushed before |
| `RedisQueue.Unpack` | backend/app/queue/redis_queue.py:38 | no call to unpack passes more than 1000 arguments |
| `RedisQueue.ClaimTakesPrefix` | backend/app/queue/redis_queue.py:40-44 | a claim of n >= 1 takes the first min(n, length) records and the rest completes the queue; a claim of 0 would take everything |
| `RedisQueue.StepsKeepOrder` | backend/app/queue/redis_queue.py:121-139 | over any number of claims and pushes, in-flight list followed by queue is what it was plus what was pushed, in order |
| `RedisQueue.ReleaseUndoesClaims` | backend/app/queue/redis_queue.py:144-146 | claims and pushes in any number and order, followed by a release, leave the queue as if nothing had been claimed |
| `RedisQueue.RecoveryMovesEverything` | backend/app/services/maintenance.py:131-146 | recovery of any distinct lists empties exactly those, puts all of their records in front of the queue and touches nothing else |
| `RedisQueue.OnlyLocalPidsAreLive` | backend/app/services/maintenance.py:153-162 | an id counts as live if and only if it is this host's name, a dash and the number of a present process |
| `RedisQueue.LogQueue.PushMany` | backend/app/queue/redis_queue.py:121-126 | appends the payloads in order and reports their number; nothing happens for an empty batch |
| `RedisQueue.LogQueue.Length` | backend/app/queue/redis_queue.py:128-132 | the length of the queue, or -1 when Redis does not answer |
| `RedisQueue.LogQueue.OverLimit` | backend/app/queue/redis_queue.py:134-135 | yes if and only if Redis answers and the queue is longer than the limit |
| `RedisQueue.LogQueue.Claim` | backend/app/queue/redis_queue.py:138-139 | the wrapper has the effect of the claim script on its own queue |
| `RedisQueue.LogQueue.Ack` | backend/app/queue/redis_queue.py:141-142 | deletes the in-flight list and nothing else |
| `RedisQueue.LogQueue.Release` | backend/app/queue/redis_queue.py:144-146 | the wrapper has the effect of the release script on its own queue |
| `RedisQueue.LogQueue.RecoverOrphans` | backend/app/services/maintenance.py:131-150 | the recovery loop releases every scanned list whose worker is not live, in scan order, and reports how many records moved |
| `RedisQueue.OrphansAre` | backend/app/services/maintenance.py:139-147 | the lists released are exactly the scanned ones whose worker id is not among the live ids |
| `Delivery.ReachableInv` | backend/app/services/worker.py:54-124 | in every reachable state a worker that may claim has nothing unconfirmed of its own in its list, a worker that holds a batch has that batch or nothing there, and all accounts balance |
| `Delivery.Conservation` | backend/app/queue/redis_queue.py:137-157 | in every run, pushed records are, as a multiset, the queue, all in-flight lists and the acknowledged records |
| `Delivery.AtLeastOnce` | backend/app/services/worker.py:71-124 | at-least-once over every interleaving of pushes, crashes, restarts, inserts that land or not, failed acks, stops and recovery of any list: each decodable pushed record is queued, in flight or stored, as often as it was pushed |
| `Delivery.ExactBalance` | backend/app/services/worker.py:71-124 | where every decodable record is in every run, exactly: pushed copies plus rows inserted in vain are in the queue, in flight, stored or deleted unseen |
| `Delivery.LossIsBlind` | backend/app/services/worker.py:72-77 | without any assumption on claims, a record is kept as often as it was pushed if and only if its copies deleted unseen are no more than its rows that were confirmed in vain, landed after a failure, or wait for their acknowledgement |
| `Delivery.BlindGrowsIff` | backend/app/services/worker.py:114 | records are deleted unseen exactly when an acknowledgement takes effect on a list into which a claim had moved records without its reply arriving |
| `Delivery.LostReplyLosesARecord` | backend/app/services/worker.py:72-77 | a concrete run: a lost claim reply, then a normal round, and a pushed record is in no list and not stored |
| `Delivery.ClaimIsNeverDiscarded` | backend/app/services/worker.py:3-9 | whenever a process that held a batch is ready to claim again without having been restarted, a step in between is the confirmation, by ClickHouse, of its own insert of that batch |
| `Delivery.DuplicatesAreAccounted` | docs/architecture.md:76-79 | a record is stored more often than pushed at most by the rows that landed although their insert failed and the confirmed rows whose records went back |
| `Delivery.StoredOnceIff` | backend/app/services/worker.py:95-120 | with every claim answered, a record is stored as often as it was acknowledged or waits to be if and only if none of its rows was confirmed in vain and none landed after a failure |
| `Delivery.RedoneAndStraysGrowIff` | backend/app/services/worker.py:101-124 | the steps that confirm rows in vain, and those by which failed rows land, are exactly the listed ones |
| `Delivery.ExactlyOnce` | backend/app/services/worker.py:95-120 | runs without such events store each decodable record exactly as often as it was acknowledged or waits to be, and once Redis is empty exactly as often as it was pushed |
| `Delivery.LiveRecoveryStoresTwice` | backend/app/services/maintenance.py:153-162 | a concrete run in which every operation succeeds and a recovery of a live worker's list stores a record twice |
| `Delivery.SingleWorkerIsFifo` | backend/app/services/worker.py:54-57 | with one worker id, acknowledged, in-flight and queued records are the pushed ones in order, through crashes, releases, restarts and recoveries |
| `Delivery.UnconfirmedStaysInRedis` | backend/app/services/worker.py:97-111 | a decodable record of which no row is ever confirmed, for whatever reason, is never acknowledged; all its copies stay in Redis |
| `Delivery.UnconfirmedStopsTheLine` | backend/app/services/worker.py:97-111 | with one worker, what is acknowledged is a prefix of the pushed records that ends before the first such record |
| `Delivery.PoisonStaysInRedis` | backend/app/services/worker.py:134-135 | a record that decodes but has no usable timestamp is never confirmed or acknowledged; all its copies stay in Redis |
| `Delivery.PoisonStopsTheLine` | backend/app/services/worker.py:134-135 | with one worker, what is acknowledged is a prefix of the pushed records that ends before the first such record |
| `Delivery.CanAlwaysDrain` | docs/architecture.md:90-97 | from every reachable state without a record that stops a worker some further run, claiming the configured number of records at a time, empties Redis with every decodable record stored at least as often as pushed |
| `BatchWorkers.BackoffGrows` | backend/app/services/worker.py:95-110 | the pauses start at 1 second, double, never shrink and stay at 30 from the sixth on |
| `BatchWorkers.DecodeBatch` | backend/app/services/worker.py:127-137 | the loop yields the decodable payloads as rows in order, their timestamps converted, and the number skipped, and raises exactly when the first field of a decodable payload cannot be converted: integers, booleans and real floats of the years 1 to 9999 can |
| `BatchWorkers.CouplesNext` | backend/app/services/worker.py:40-47 | a step of the pipeline changes the queue and the in-flight key of its own worker and no other key |
| `BatchWorkers.BatchWorker.Try` | backend/app/services/worker.py:100-120 | a confirmed attempt: the rows stand in the table in one piece among those of others, the steps are the insert and its acknowledgement, and if that answers the in-flight list is empty |
| `BatchWorkers.BatchWorker.RetryFailing` | backend/app/services/worker.py:95-111 | the failing passes: as many as attempts fail before a confirmation or a stop signal, each with its pause from the backoff sequence; the claim stays in the list unless a recovery takes it |
| `BatchWorkers.BatchWorker.Retry` | backend/app/services/worker.py:95-124 | survives if and only if an attempt is confirmed before any stop signal and the acknowledgement answers; confirmed rows are in the table and the list is empty, a stopped claim is back at the head of the queue, a killed one in the list, unless recovered before; the own steps are exactly those |
| `BatchWorkers.FailuresAre` | backend/app/services/worker.py:95-111 | the attempts before the end failed, no stop signal came between them, and the one after them, if the loop gets to it, is confirmed |
| `BatchWorkers.BatchWorker.WriteWithRetry` | backend/app/services/worker.py:87-124 | counts undecodable payloads, acknowledges a batch without rows, otherwise retries with the effects above; a record without a timestamp ends the process with the claim in its list |
| `BatchWorkers.BatchWorker.TakeTurn` | backend/app/services/worker.py:71-83 | one claim, unless it raises, and then exactly the steps of its batch, which is what that claim took from the queue; after a turn that it survives with a batch, the rows are in the table and the list is empty |
| `BatchWorkers.BatchWorker.Loop` | backend/app/services/worker.py:71-83 | the turns until a stop signal, the end of the process or of the rounds: their steps and what their claims took, in order |
| `BatchWorkers.BatchWorker.Run` | backend/app/services/worker.py:49-85 | the own steps of the whole program are exactly: recover the list, the turns until a stop signal or the end, and the release; all of them are steps of the delivery machine on the real lists and table, and the batches are what its claims took from the queue |
| `BatchWorkers.OneClaimARound` | backend/app/services/worker.py:71-83 | the program claims once in each round that it begins and whose claim answers, and goes on until it is told to stop or ends |
| `BatchWorkers.RunEndsOneWay` | backend/app/services/worker.py:49-85 | it begins with the recovery of its list, does nothing of the kind again, and its last step is to give the list back exactly if it was not killed, no acknowledgement raised, and no record without a timestamp was claimed |
| `BatchWorkers.WorkerLosesNothing` | backend/app/services/worker.py:87-124 | at every point of the program each decodable record that was pushed is, as often as it was pushed, in the queue or an in-flight list of the real Redis or stored, and the real table has the rows of the stored records one for one |
| `BatchWorkers.RowsTellRecordsApart` | backend/app/services/worker.py:134-136 | two records become the same row if and only if they agree but for the way in which the same moment is written; records with integer timestamps become different rows |
| `Ingestion.RowRoundTrip` | backend/app/parser/base.py:44-58 | what as_row encodes decodes to the same row, has a usable timestamp, and determines the record, the time and the router |
| `Ingestion.Ingest.Handle` | backend/app/services/receiver.py:136-156 | a line and its bytes are counted received and then under exactly one of unknown router, parser error or parsed; a parsed record is appended to the buffer, and a full buffer schedules a push |
| `Ingestion.Ingest.ScheduleFlush` | backend/app/services/receiver.py:158-161 | schedules one push if none is under way and the buffer is not empty |
| `Ingestion.Ingest.PushBegins` | backend/app/services/receiver.py:163-172 | takes the whole buffer, sheds and counts it during a pause, otherwise sends it |
| `Ingestion.Ingest.PushEnds` | backend/app/services/receiver.py:173-180 | a failed push is counted with all its records, and pushing is allowed again either way |
| `Ingestion.Ingest.CheckBackpressure` | backend/app/services/receiver.py:195-202 | a queue over the limit pauses pushes for five seconds; an unknown depth changes nothing |
| `Ingestion.Ingest.Leave` | backend/app/services/receiver.py:334-338 | leaving the event loop abandons what is buffered |
| `Ingestion.AccountsBalance` | backend/app/services/receiver.py:136-180 | at every await of every interleaving, drain and exit included: received is unknown plus errors plus parsed, and each parsed record is in the buffer, in a push, delivered, in one of the two drop counters, in Redis by a push that was cut off, or lost by the exit |
| `Ingestion.ArrivalOrderIsKept` | backend/app/services/receiver.py:158-180 | before draining, finished pushes, the push on its way and the buffer are the parsed records in arrival order |
| `Ingestion.DrainKeepsOrderIff` | backend/app/services/receiver.py:327-334 | what Redis carries out of the drain and of a push under way reaches the queue in the order in which it left the buffer, whatever is answered and in which order, if and only if no push is under way, or the buffer is empty, or pushes are paused, or the two batches cannot be told apart when swapped |
| `Ingestion.DrainOvertakes` | backend/app/services/receiver.py:327-334 | from the start of the process, with any two different records, a run comes to a state in which the drain can overtake, at any time from zero on |
| `Ingestion.ExitLosesNothingIff` | backend/app/services/receiver.py:334-338 | in any run and for a given outcome of the pushes that the exit cuts off, no parsed record is lost uncounted if and only if the buffer is empty when the loop is left and Redis has carried all of them out |
| `Ingestion.ExitNeverLosesIff` | backend/app/services/receiver.py:334-338 | none is lost under every such outcome if and only if the buffer is empty and no push is under way |
| `Ingestion.ExitLosesExactly` | backend/app/services/receiver.py:173-180 | what it loses is exactly what was buffered and the batches whose push Redis had not carried out, and the rest of what was being pushed is in Redis: a cancelled push is no Exception and counts nothing |
| `EndToEnd.NothingVanishes` | backend/app/services/receiver.py:136-180 | in every state of receiver and pipeline together each parsed record is buffered, being pushed, queued, in flight, stored, counted as dropped, or lost by an exit that is past, and what other receivers pushed is accounted for besides |
| `EndToEnd.CanAlwaysFinish` | docs/architecture.md:88-102 | from every such state there is a way on, without an exit, after which each parsed record, and each that others pushed, is stored or counted as dropped, or was lost by an earlier exit |
| `SyslogFraming.SyslogTCP.DataReceived` | backend/app/services/receiver.py:241-253 | one call keeps the last 64 KiB of buffer and chunk, hands over the messages of the complete lines and keeps the rest |
| `SyslogFraming.SyslogTCP.SplitBuffer` | backend/app/services/receiver.py:246-253 | the loop over the buffer hands over the messages of all its lines, in order, and leaves what follows the last newline |
| `SyslogFraming.SyslogTCP.HandleLine` | backend/app/services/receiver.py:250-253 | strips trailing carriage returns, drops a line that is then empty, and hands on any other without its octet count, even if nothing is left |
| `SyslogFraming.Feed` | backend/app/services/receiver.py:229-253 | a connection fed chunk by chunk ends with the handled messages and the buffer that the functions on streams give |
| `SyslogFraming.CuttingDoesNotMatter` | backend/app/services/receiver.py:241-253 | for every division into chunks that never exceeds the buffer, the messages are those of the whole stream and the buffer is its residue |
| `SyslogFraming.ResidueFollowsLastNewline` | backend/app/services/receiver.py:246-251 | the residue is newline-free and the stream is some text ending in a newline followed by it |
| `SyslogFraming.SplitUndoesJoin` | backend/app/services/receiver.py:246-253 | splitting undoes joining lines with newlines, and gives the rest back as the residue |
| `SyslogFraming.SplitConcat` | backend/app/services/receiver.py:246-253 | splitting a stream in two parts with the residue carried over splits the whole |
| `SyslogFraming.BufferIsBoundedSuffix` | backend/app/services/receiver.py:242-245 | whatever arrives, the buffer is a newline-free suffix of the stream of at most 64 KiB |
| `SyslogFraming.OverflowLoses` | backend/app/services/receiver.py:243-245 | a cut loses exactly the messages that end in the dropped part, and one more if only blanks of the cut line remain, whatever follows |
| `SyslogOverflow.DeliverSameIff` | backend/app/services/receiver.py:250-261 | a line and the line with a text in front hand on the same if and only if the text is empty, both are blank, it is an octet count and the line has none, or it begins the count that the line goes on with |
| `SyslogOverflow.OverflowIsHarmlessIff` | backend/app/services/receiver.py:243-245 | a cut changes nothing, whatever follows it, if and only if no message ends in the dropped part and the cut line, complete or still open, hands on the same without its beginning however it goes on |
| `SyslogOverflow.FeedIsExactIff` | backend/app/services/receiver.py:241-253 | a connection in any state hands on exactly what was meant, for any chunks, if and only if each of its calls is harmless to what follows |
| `SyslogOverflow.ConnectionIsExactIff` | backend/app/services/receiver.py:241-253 | the same for a whole connection from its start, with the exact number of messages lost |
| `SyslogFraming.LargeChunkLosesLines` | backend/app/services/receiver.py:241-245 | a chunk of whole short lines above 64 KiB loses its first line |
| `SyslogFraming.StripsOnlyPrefixes` | backend/app/services/receiver.py:256-261 | a line is shortened if and only if it begins with one to six digits and a space |
| `SyslogFraming.FramingRoundTrip` | backend/app/services/receiver.py:241-261 | messages sent with LF, CRLF or a count and LF, in any mixture and cut anywhere within the bound, come back exactly and in order (sections 3.4.1 and 3.4.2 of RFC 6587) |
| `SyslogFraming.FrameComesBackIff` | backend/app/services/receiver.py:250-261 | a message comes back if and only if it ends in no carriage return and, sent with LF or CRLF, does not begin like an octet count, or, sent with a count, the count has at most six digits |
| `SyslogFraming.PureOctetCountingDeliversNothing` | backend/app/services/receiver.py:220-225 | a stream of octet-counted messages without newlines yields no message at all |
| `Regex.MatchIffFits` | backend/app/parser/patterns.py:40-69 | the backtracking matcher answers at a position if and only if the pattern matches there, with cuts that fit |
| `Regex.MatchIsPreferred` | backend/app/parser/patterns.py:40-69 | among all ways to match, its answer is the one backtracking reaches first: where another departs from it, its own choice is preferred |
| `Regex.SearchIsLeftmost` | backend/app/parser/mikrotik.py:64-87 | search finds the leftmost position where the pattern matches and fails only if there is none |
| `Regex.EndsRead` | backend/app/parser/patterns.py:32-34 | the ends the matcher tries for an element are exactly those of the texts in the element's language |
| `Patterns.OctetReads` | backend/app/parser/patterns.py:32 | the five alternatives spell exactly the numbers 0 to 255 without leading zeros |
| `Patterns.IPv4Reads` | backend/app/parser/patterns.py:33 | the address pattern spells exactly the canonical dotted quads |
| `Patterns.PortReads` | backend/app/parser/patterns.py:34 | the port pattern spells exactly one to five digits |
| `Patterns.MatchedPortIsComplete` | backend/app/parser/patterns.py:40-57 | a match with ports reads its last port greedily: five digits or up to the first other character |
| `Segments.MatchIffSegment` | backend/app/parser/patterns.py:40-62 | each of the four patterns matches at a position if and only if a segment of its shape, look-arounds included, is spelled there |
| `Segments.SegmentMatches` | backend/app/parser/patterns.py:40-62 | a complete segment is matched exactly as it is spelled |
| `Segments.MatchReadsSegment` | backend/app/parser/patterns.py:40-62 | the groups of a match are the endpoints of a complete segment at that position |
| `Addresses.ValidIPv4` | backend/app/parser/base.py:65-81 | the scanner's loop accepts exactly four numbers from 0 to 255 with dots between them, leading zeros allowed |
| `Addresses.CanonicalIffNoLeadingZero` | backend/app/parser/base.py:65-81 | what the patterns accept is what the scanner accepts, minus leading zeros |
| `MikroTikParser.LocateIsLeftmost` | backend/app/parser/mikrotik.py:64-92 | a pattern search returns the endpoints of the leftmost complete segment, and nothing only if no segment stands anywhere |
| `MikroTikParser.LeftmostIsLocated` | backend/app/parser/mikrotik.py:64-92 | conversely the leftmost complete segment is what the search returns |
| `MikroTikParser.Protocol` | backend/app/parser/mikrotik.py:129-147 | the loop over the token computes the protocol function |
| `MikroTikParser.DecidedOutcome` | backend/app/parser/mikrotik.py:62-109 | the first shape, in the parser's order, that has a segment settles the outcome: its leftmost endpoints, or no_match when a port exceeds 65535 |
| `MikroTikParser.AcceptedMeans` | backend/app/parser/mikrotik.py:62-109 | every accepted line contains a deciding segment that spells the returned endpoints; ports are at most 65535, addresses pass the scanner, and without translation public equals private |
| `MikroTikParser.RejectedIff` | backend/app/parser/mikrotik.py:62-98 | a line is rejected as no_nat, or as no_match, under exactly the stated conditions, and always with one of these reasons |
| `MikroTikParser.MentionOfNatHidesPlainLine` | backend/app/parser/mikrotik.py:63-92 | a plain line in lenient mode, with or without ports, is kept if and only if the letters NAT occur nowhere in it |
| `MikroTikParser.PrintedSegmentIsFound` | backend/app/parser/patterns.py:40-62 | a segment of any shape printed into any line is found as printed unless one of its shape comes first, under the stated conditions on its neighbours |
| `MikroTikParser.TokenIsRead` | backend/app/parser/mikrotik.py:129-147 | the first token after "proto " is the protocol, by name |
| `MikroTikParser.ProtocolNames` | backend/app/parser/patterns.py:75-81 | numbers with a name get it, other tokens in capitals are kept |
| `MikroTikParser.SubscriberIsReadIff` | backend/app/parser/mikrotik.py:111-126 | the user of a bracketed PPPoE interface comes back if and only if the name does not begin with in- or out- |
| `MikroTikParser.PrintParse` | backend/app/parser/mikrotik.py:62-147 | parsing a printed RouterOS line of any of the four shapes returns the record, whatever surrounds the three parts, if nothing earlier reads like them |
| `Months.NamesAreOrdered` | backend/app/services/maintenance.py:40-42 | six-digit month names compare as strings exactly as the months do |
| `ArchiveFiles.StemOfTarget` | backend/app/services/maintenance.py:110-111 | the month is read back from an archive's name, whatever dashes or dots the table's name has |
| `ArchiveFiles.PruneDeletesExactly` | backend/app/services/maintenance.py:101-116 | a month's file is deleted if and only if its index is at most now minus the retention |
| `ArchiveFiles.PruneVersusExpiry` | backend/app/services/maintenance.py:101-107 | for the configured retention and the TTL of the stored setting: exactly which files go while a row is still in the table, and which stay after one has left it |
| `ArchiveFiles.NothingGoesEarlyIff` | backend/app/services/maintenance.py:101-107 | no file goes before all its rows have left the table if and only if the configuration keeps more months, or as many and the days of the month in question have all passed |
| `ArchiveFiles.NothingStaysLateIff` | backend/app/api/settings_api.py:150-165 | no file stays after a row has left the table if and only if the configuration keeps no more months than the setting |
| `ArchiveFiles.PrunesForeignTables` | backend/app/services/maintenance.py:110 | files of a table whose name extends this one's with a dash are deleted by the same rule |
| `Archive.Maintenance.ClosedPartitions` | backend/app/services/maintenance.py:35-43 | the loop yields the listed months before the current one that have no success on record, in order |
| `Archive.Maintenance.Stream` | backend/app/services/maintenance.py:65-74 | after any number of chunks the temporary file holds exactly those chunks in order |
| `Archive.Maintenance.ArchivePartition` | backend/app/services/maintenance.py:46-98 | table, files and archive_runs after an attempt stopped at any point, by an exception or by a kill |
| `Archive.Maintenance.ArchiveAll` | backend/app/services/maintenance.py:180-184 | the loop attempts the closed months in order, counts the failures and stops only when killed |
| `Archive.Maintenance.PruneArchives` | backend/app/services/maintenance.py:101-116 | the loop deletes the doomed files among those listed and no others |
| `Archive.FileIsOldOrComplete` | backend/app/services/maintenance.py:62-75 | wherever an attempt stops, the month's file is what it was or complete |
| `Archive.DropComesLast` | backend/app/services/maintenance.py:75-88 | wherever an attempt stops, a month's rows are gone from ClickHouse only if its file holds them all, and a kill then leaves the success on record |
| `Archive.OthersUntouched` | backend/app/services/maintenance.py:46-98 | an attempt changes neither rows nor file of another month |
| `Retention.AttemptAppends` | backend/app/database/meta.py:224-241 | an attempt adds one row to archive_runs and leaves the earlier ones alone |
| `Retention.ArchiveSafetyIff` | backend/app/services/maintenance.py:46-116 | in any history of inserts at any time, steps of attempts stopped anywhere and prunings, a row is at all times in ClickHouse or in its month's file as often as it was ever written, until that is pruned, if and only if no step publishes a snapshot that leaves too few copies of it and no drop takes copies that the file does not cover |
| `Retention.KeptIff` | backend/app/services/maintenance.py:62-88 | the file is at all times, as a sequence, what was dropped of the month, if and only if no step replaces it by something else after a drop and no drop takes more than the snapshot |
| `Retention.ArchiveSafety` | backend/app/services/maintenance.py:46-116 | that holds whenever no insert comes into a month whose partition was dropped or of which an attempt has its snapshot; late rows before an export or after a failed attempt are safe |
| `Retention.AttemptIsSteps` | backend/app/services/maintenance.py:46-98 | every attempt of the program, however it is stopped, is a sequence of such steps |
| `Retention.RunIsHistory` | backend/app/services/maintenance.py:180-184 | a maintenance run over the closed months, killed or not, is such a history, so the theorems on histories speak about the program |
| `Retention.RecordedMonthsAreSafe` | backend/app/database/meta.py:250-255 | in a history in which the file never parts from what was dropped, a month on record as a success has a file, until it is pruned, and what the file does not have came later and is still in ClickHouse |
| `Retention.ErredIsRetriedIff` | backend/app/services/maintenance.py:90-98 | a month whose attempt raised is on the list of the next run if and only if ClickHouse still has its partition, which fails only for a drop that took effect |
| `Retention.RepeatRunFindsNothing` | backend/app/services/maintenance.py:35-43 | after a run without trouble another one in the same month finds only partitions without rows |
| `Retention.LateRowsOverwriteIff` | backend/app/services/maintenance.py:35-43 | rows that come into a month after its partition was dropped make the next run overwrite the file, the only copy of the earlier rows, if and only if the month is not on record as a success |
| `Retention.MisreportedDrop` | backend/app/services/maintenance.py:84-92 | a way into that: a drop that took effect and was reported as an error takes the success off the record |
| `Retention.RowsBehindTheSnapshotAreLost` | backend/app/services/maintenance.py:65-88 | nothing fails and rows are lost: those that come into a closed month between its export and its drop |
| `Search.Where` | backend/app/database/clickhouse.py:123-143 | every clause has its parameter bound, and the conjunction selects exactly the rows the request asks for |
| `Search.PositionMeansContains` | backend/app/database/clickhouse.py:134-138 | positionCaseInsensitive is positive if and only if the needle occurs somewhere, letter case aside |
| `Search.FindPage` | backend/app/database/clickhouse.py:145-180 | the limit-plus-one query returns the requested slice of the matching rows and says correctly whether more follow, for page sizes up to the server's limit |
| `Search.CountRows` | backend/app/database/clickhouse.py:182-191 | count is the number of matching rows |
| `Search.MatchingAre` | backend/app/database/clickhouse.py:145-191 | the matching rows are the wanted ones, each as often as in the table |
| `Search.OrderIsIrrelevant` | backend/app/database/clickhouse.py:160-165 | sorting the table in any way changes neither the matching rows as a multiset nor the count |
| `Pager.SearchPage.RunSearch` | frontend/assets/app.js:246-269 | a search sets offset, page size, rows and buttons; a refused request leaves rows and buttons alone |
| `Pager.SearchPage.ClickNext` | frontend/assets/app.js:507 | moves by the page size on screen and then reads the box |
| `Pager.SearchPage.ClickPrev` | frontend/assets/app.js:503-506 | moves back by the page size on screen, not below zero |
| `Pager.EveryRowOnce` | frontend/assets/app.js:246-262 | if all queries see one order, paging with changing page sizes within the server's limit that runs out of Next has shown all matching rows once and in order, and up to 1,000,001 rows it gets there |
| `Pager.EveryOrderOnceIff` | backend/app/database/clickhouse.py:145-160 | if each query may see another order of the rows that tie in the sort column, paging through at most 1,000,001 rows, with page sizes within the server's limit, shows every matching row as often as it matches, whatever the orders, if and only if no page begins between two different rows that tie |
| `Pager.CompleteIff` | frontend/assets/app.js:503-507 | with one page size, paging shows everything if and only if the last page starts within the offset limit, or, above the server's limit, everything fits into one answer |
| `Pager.PrevUndoesNextIff` | frontend/assets/app.js:503-507 | Prev restores the page before Next if and only if the page size was not changed in between, or both are the first page |
| `CsvExport.ExportReadsBack` | frontend/assets/app.js:287-300 | a reader for section 2 of RFC 4180 recovers exactly the header and the neutralised cells, for all strings |
| `CsvExport.NoCellIsAFormula` | frontend/assets/app.js:294-296 | no cell read back starts a formula, and a cell differs from the original text only if that did |
| `CsvExport.RestoresIff` | frontend/assets/app.js:294-297 | the text can be restored from the cell if and only if it was not itself an apostrophe before a formula |
| `LoginThrottling.LoginThrottle.Check` | backend/app/auth/ratelimit.py:26-40 | refuses exactly when Redis answers with a live counter at the limit, and then reports the time to its expiry |
| `LoginThrottling.LoginThrottle.RecordFailure` | backend/app/auth/ratelimit.py:42-50 | increments the counter, from zero if it expired, and starts its lifetime again; nothing without Redis |
| `LoginThrottling.LoginThrottle.Clear` | backend/app/auth/ratelimit.py:52-56 | removes the counter of that user and address only |
| `LoginThrottling.FailuresInAnyWindow` | backend/app/api/auth_api.py:37-56 | in any window of lockout_seconds without a success, at most max_failures + c - 1 failures are recorded when at most c logins overlap |
| `LoginThrottling.BoundIsMet` | backend/app/api/auth_api.py:37-56 | that bound is reached, for every limit and every overlap |
| `LoginThrottling.RefusedIff` | backend/app/auth/ratelimit.py:26-50 | a login is refused if and only if the failures since the last success, counted back without a gap of a lockout, reach the limit |
| `Routers.RouterTable.Add` | backend/app/database/meta.py:157-168 | stores a router, its texts stripped, under a fresh id, or answers with a bad address or a conflict and changes nothing |
| `Routers.RouterTable.Update` | backend/app/database/meta.py:170-191 | changes exactly the given fields, texts stripped, or answers not found, bad address or conflict and changes nothing |
| `Routers.RouterTable.Delete` | backend/app/database/meta.py:198-202 | removes the router with that id and reports whether there was one |
| `Routers.StripTakesPadding` | backend/app/database/meta.py:140-165 | the white space taken off names, addresses and descriptions is the padding on either side and nothing else |
| `Routers.DisablingRemovesOne` | backend/app/database/meta.py:152-155 | disabling or deleting a router takes exactly its address off the enabled list |
| `Routers.MovingSwapsOne` | backend/app/database/meta.py:152-155 | giving an enabled router another address swaps the two addresses and nothing else |
| `AllowList.Shared.Rewrite` | backend/app/api/routers_api.py:42-47 | the transaction replaces the Redis set as a whole, or does nothing |
| `AllowList.RouterRegistry.Refresh` | backend/app/services/receiver.py:65-94 | a refresh takes a non-empty cache over, otherwise the table, which it then publishes; without either it changes nothing; this is what the machine does when nothing comes between |
| `AllowList.HeldSetsAreHistorical` | backend/app/services/receiver.py:65-94 | under every interleaving of changes, racing or failed publishes and refreshes, a receiver holds nothing or a set that was enabled at some moment |
| `AllowList.SettledRefreshes` | backend/app/services/receiver.py:65-84 | every refresh completed before the next change, in every run, yields the present list if and only if the cache is empty or present, every publish under way carries the present list or is an API process emptying the cache, and every answer under way is an error, empty or present |
| `AllowList.OldAnswerComesLate` | backend/app/services/receiver.py:68-84 | the answers matter: one taken before the last change and heard after its publish brings the old list back |
| `AllowList.OldAnswerIsOnItsWay` | backend/app/services/receiver.py:68-84 | a run from boot that comes to that state |
| `AllowList.RefreshYieldsPresentIff` | backend/app/services/receiver.py:65-84 | with nothing under way a refresh yields the present list if and only if Redis answers with it, or Redis is down or has no set and the table can be read or the receiver had the present list |
| `AllowList.WrongCacheStays` | backend/app/services/receiver.py:73-80 | otherwise no number of refreshes by any receivers repairs it while Redis answers |
| `AllowList.FailedPublishKeepsOldList` | backend/app/api/routers_api.py:38-50 | a concrete run: one publish fails and receivers keep the old list |
| `AllowList.RacingPublishesKeepOldList` | backend/app/api/routers_api.py:38-50 | a concrete run: two publishes overtake each other and receivers keep the old list |
| `MetricsBuffer.Metrics.Incr` | backend/app/metrics.py:55-56 | adds to one local counter |
| `MetricsBuffer.Metrics.FlushBegin` | backend/app/metrics.py:73-76 | swaps the counters for an empty dict, unless there are none |
| `MetricsBuffer.Metrics.FlushEnd` | backend/app/metrics.py:77-86 | success moves the deltas to Redis; failure, after any number of increments sent, folds all of them back into what was counted meanwhile |
| `MetricsBuffer.NeverUndercounts` | backend/app/metrics.py:73-86 | over every run, Redis plus waiting plus local is the sum of all increments plus exactly what failed flushes had already sent |
| `MetricsBuffer.ExactWhenFailuresAreClean` | backend/app/metrics.py:73-86 | it is exactly the sum of the increments when failed flushes sent nothing |

## Left out

- Delivery.AtLeastOnce: assumes that a claim that raises has moved nothing; `Delivery.LossIsBlind` is the exact statement without that assumption.
- Delivery.CanAlwaysDrain: says that a completing run exists, not that a scheduler takes it; it excludes records without a timestamp, which stop a worker for good, and takes ClickHouse to accept every other row in the end; what becomes of one that it never accepts is `Delivery.UnconfirmedStaysInRedis`.
- Delivery.ReachableInv: worker ids are distinct and a killed Redis is not modelled; the persistence of Redis itself is taken as given.
- BatchWorkers.DecodeBatch: moments are in UTC and floats are real numbers, so the time zone of the host and binary rounding are not modelled.
- BatchWorkers.BatchWorker.Retry: the attempts, and the rounds of the main loop, that the environment grants are a finite list; when it runs out without a stop signal the process is taken as killed.
- BatchWorkers.BatchWorker.WriteWithRetry: the gauges set after an insert are not modelled, so an exception from them is not either.
- Ingestion.AccountsBalance: a killed receiver loses its buffer, as documented; an orderly exit is in the model; a push that fails after `metrics.stop()` (backend/app/services/receiver.py:336) is counted here, but in a dict that nothing flushes any more, so the counters in Redis never show it; kernel drops of UDP packets and rate-limited warnings are outside the model.
- MikroTikParser.PrintParse: the line names the interface in angle brackets and the protocol after "proto "; the two fallback patterns run through the same matcher but no printed form of theirs is proved to come back.
- MikroTikParser.Protocol: text is ASCII, so Python's wider notions of digit, space, word character and upper case are not modelled.
- Retention.ArchiveSafetyIff: the table's own TTL is not a step of the history, and ClickHouse's stream is taken to be a snapshot of the partition at its start.
- Retention.RepeatRunFindsNothing: partitions without rows are counted again by every run, because a skipped attempt is not a success.
- Archive.Maintenance.ArchivePartition: an archive file is the rows it decodes to, so gzip and the Native format are not modelled; the check for files under 64 bytes is one of the failures at the point of inspection.
- ArchiveFiles.PruneDeletesExactly: years from 1010 to 9999 and the configured retention of 1 to 120 months.
- Pager.EveryRowOnce: the matching rows are the same for all pages; rows that arrive between two of them shift the pages.
- Search.Where: subscriber matching folds ASCII letters only, and values are compared as they are bound, without ClickHouse's conversions.
- LoginThrottling.FailuresInAnyWindow: Redis is available and time does not run backwards; users beyond 64 characters share a counter, which is covered because a window is one of the counter.
- Routers.RouterTable.Add: the length limits that the API puts on the fields are not modelled, and timestamps are not stored.
- AllowList.HeldSetsAreHistorical: changes of the enabled set are steps of their own, whichever endpoint makes them.
- MetricsBuffer.NeverUndercounts: cancellation in the middle of a flush, which skips the fold-back, and resetting counters by hand are excluded; gauges and the rate display are not modelled.
- RedisQueue.Redis.ClaimScript: the queue's key differs from the in-flight key.
- msgpack, redis-py, the ClickHouse driver, TLS, gzip, Argon2 and JWT: a payload is described by what unpacking it yields, and calls either take effect or do not.
- Sockets, forks, signals, service units, the installer, configuration loading, logging, status and branding pages, HTML and CSS: no state that the properties depend on.
- Unauthorised TCP senders are refused at connect time; the model starts with an accepted connection.
