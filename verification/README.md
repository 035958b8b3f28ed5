# Open SMS Gateway: verification model

A Dafny 4.11 model of the gateway: a crash-prone store-and-forward system for SMS, and the
self-contained algorithms around it. `dafny verify dfyconfig.toml` checks all of it.

## How it is laid out

The system is modelled twice, and the two are tied together.

* **State machines.** `Pipeline.dfy` has the committed messages table, the worker's place in its
  program, its token bucket and its modem link as one state, and one event per committed step of the
  API process and the worker, plus crashes and faults. `Webhooks.dfy` does the same for the delivery
  table and the dispatcher. A run is any sequence of enabled events. `PipelineInvariant.dfy`,
  `PipelineTheorems.dfy`, `PipelineOutcomes.dfy`, `PipelineOrder.dfy`, `PipelineThrottle.dfy`, `PipelineWait.dfy`
  and `InboundRuns.dfy` prove the properties of all runs, `PipelineWitness.dfy` that a bound is reached.
* **The code as it runs.** `Worker.dfy` (`run`, `process_outbox`, `process_inbound`, recovery),
  `Modem.dfy` (the gammu driver), `TokenBucket.dfy`, `Dispatcher.dfy`, `RateLimiter.dfy`, `Composer.dfy`,
  `Inline.dfy` and `Renderer.dfy` hold classes and loops in the source's own shape. Each method of the
  worker and the dispatcher can only change committed state by emitting an event of its machine, so
  what is proved of all runs holds of them. The others are proved against specification functions
  (`Sending.dfy`, `Inbox.dfy`, `Messages.dfy`, `Blocks.dfy`), and the properties are proved of those.
  `Api.dfy` has what the API process commits while the worker is busy, as a list of steps, `Ordering.dfy` the
  (column, id) order that the queries share.
* **Markdown.** `Html.dfy` has a small HTML reader that knows the elements and attributes the renderer may
  emit; well-formed means that this reader accepts the page. `Text.dfy` and `Patterns.dfy` spell out the
  string operations and line patterns as scanners, `Blocks.dfy` what the parser makes of the lines.
  `InlinePattern.dfy` and `LinePatterns.dfy` state the same patterns as properties of the text and prove that the
  scanners find exactly what they describe; `InlineMarkup.dfy` and `BlockForms.dfy` give the HTML of every construct
  in terms of the text. Then `Document.dfy` the
  properties of every page, `Reading.dfy`, `ReadingBlocks.dfy` and `PageReading.dfy` what a reader sees,
  `PageSource.dfy` that nothing is added, `PageLosses.dfy` that nothing is lost, `Slugs.dfy` the heading ids,
  `PageIds.dfy` those of a whole page with its quotes.

## What the environment is assumed to do

* `SendSMS` raises ValueError or TypeError only while the report field is set. `send_sms` catches only
  `ModemError` (`gateway/worker/modem.py:312`), and `Sending.DuplicateWithoutCourtesy` shows the duplicate
  that would follow otherwise.
* A send that reports an error has not been accepted by the modem.
* `LinkSMS` partitions its input. Used only where a statement needs it.
* Inside one session a query sees the session's earlier writes. Commits are atomic.
* Clock readings of the worker and the dispatcher never go backwards. The rate limiter takes any reading.
* One worker and one dispatcher run at a time. The API process commits at any point in between.
* Callbacks deliver notifications during any modem command.
* Digits and word characters of the patterns are parameters; digits are neither white space nor `.` or `)`.

Storage, the serial port, HTTP, time and randomness are nondeterministic choices, scripts or parameters.

## What the proofs brought to light

Where a promise fails there is an input and the exact condition for it to hold.

* The product requirements (section on sending, item 6) call the requeue after a crash at-least-once and say a
  multipart send that partly succeeded is never retried, because that would duplicate the delivered parts. A
  crash partway through a send is not covered by that: recovery sends the parts that went out again. A part goes
  out at most once more than the message was recovered (`PipelineTheorems.BoundedDuplication`), and for every
  accepted body and every number of crashes that often (`PipelineWitness.CrashResendsParts`);
  `PipelineWitness.DuplicationExactly` puts the two together.
* The product requirements (section on receiving, item 3) say messages are deleted from the modem once stored.
  `process_inbound` deletes first and commits second: texts are stored iff their transaction commits
  (`WorkerLoop.ProcessInbound`), and `WorkerLoop.LoseOneText` is a call that loses one. Over whole lives of the worker,
  whose polls are all on record (`WorkerLoop.Run`), that and the next item are the only two ways to lose a part
  (`InboundRuns.PartsEndUp`).
* A `DeleteSMS` that raises something else than a gammu error loses the parts deleted before it:
  `Inbox.LostExactlyWhen` has the condition for each part, `Inbox.PartIsLost` such a call.
* The stored segment count can be smaller than the number of parts the modem needs, because an escape pair
  cannot straddle two parts (`Segments.CountCanFallShort`); the throttle then undercharges. The count is right
  iff the text fits one part or what is lost at part ends fits the parts counted
  (`Segments.StoredCountIsRightIff`).
* The rate limiter reads its clock before it takes the lock. A reading that reaches the lock late can be refused
  without need (`RateLimit.RefuseLate`) and can be accepted beyond the limit (`RateLimit.AdmitLate`). The window
  rule is met iff readings come in order (`RateLimit.OrderIsExactlyNeeded`); with any order no window overflows
  iff the limit is one (`RateLimit.OverAdmission`).
* The manual (page on messages, section on statuses) says `failed` means rejected by the modem. A row that cannot
  be reloaded after `sending` was committed is marked failed without a driver call (`PipelineWitness.FailsUnsent` for
  every accepted body); that is the only way (`PipelineOutcomes.FailedUnsentIff`).
* Heading ids are not always unique (`PageIds.CollidingTitles`), and quoted blocks count their headings on their
  own, so that a quoted title repeats the id of the title above it (`Document.QuotedTitlesRepeatIds`). When two
  headings of a page share an id is `PageIds.SharedIds`; within one renderer it is `Document.SharedAnchors`.

## Model

| member | source | states |
|---|---|---|
| `PipelineTheorems.OneInFlight` | gateway/worker/main.py:95-133 | In every reachable committed state at most one outbound row is `sending`, and none is when a pass starts, stands between two messages or has ended, whatever crashed or failed before. |
| `PipelineInvariant.StepKeepsInv` | gateway/worker/main.py:95-133 | Every event of the machine, API step, worker step, fault or crash, keeps the invariant that ties the table to the worker's place in the program. |
| `PipelineInvariant.RunsKeepInv` | gateway/worker/main.py:280-325 | The invariant holds after every run of the system, of any length and interleaving. |
| `Pipeline.ThreeAttempts` | gateway/worker/main.py:79-92 | A flight is one, two or three driver calls, each from the link the one before it left; all but the last ended in a modem error or an unclassified exception, and it stops short of three only at a normal return, a connection error or a partial send. |
| `PipelineInvariant.FlightLog` | gateway/worker/main.py:79-92 | Whatever the modem does during one retried send, it accepts parts 0, 1, 2, … of the message in order and each once, the outcome tells how many, and a connection error means none and a dropped link. |
| `PipelineInvariant.DeliverRow` | gateway/worker/main.py:136-163 | A batch of delivery reports leaves a row exactly as it was or turns it from `sent` to `delivered` with a delivery time. |
| `PipelineTheorems.NothingIsLost` | gateway/worker/main.py:240-257 | After any run the table holds exactly the messages that were enqueued or received and not purged, with the recipient, text and creation time they came with: nothing is lost and nothing is invented. |
| `PipelineTheorems.RowStep` | gateway/worker/main.py:115-132 | Each step leaves a row unchanged or moves it along one edge of its life: queued, sending, then sent, failed or queued again, then delivered. |
| `PipelineTheorems.NoRebirth` | gateway/api/routes_api.py:47-55 | An id that was ever given out never names a new message. |
| `PipelineTheorems.TerminalStays` | gateway/worker/main.py:115-132 | From any point of a run on, a row that is `failed` or `delivered` stays exactly as it is until it is purged. |
| `PipelineTheorems.BoundedDuplication` | gateway/worker/main.py:240-257 | Over any run the modem accepts each part of a message at most 1 + (recoveries of that message) times, so at most once when it was never recovered. |
| `PipelineTheorems.PartsWithinAllowance` | gateway/worker/main.py:79-133 | The inductive form: acceptances of a part never exceed the recoveries so far plus what the row's present state still accounts for. |
| `PipelineWitness.CrashResendsParts` | gateway/worker/main.py:240-257 | The bound is exact: for every accepted body, of one segment or more, and every number of crashes there is a run with that many recoveries in which the first part goes out once more often. |
| `PipelineWitness.DuplicationExactly` | gateway/worker/main.py:240-257 | The two as one: b copies of a part are enough for all runs with at most k recoveries of its message iff b > k. |
| `PipelineTheorems.SentMeansAccepted` | gateway/worker/main.py:128-132 | A row that is `sent` or `delivered` has had every one of its segments accepted by the modem. |
| `PipelineOutcomes.QueuedMeansNotAccepted` | gateway/worker/main.py:121-126 | A message that waits in the queue has had no part accepted more often than it was recovered; so none at all if it never was, however often a lost connection sent it back. |
| `PipelineOutcomes.FailedMeansIncomplete` | gateway/worker/main.py:128-132 | A `failed` message is incomplete at the recipient: without a recovery its last part was never accepted. |
| `PipelineOutcomes.FailedMeansLastSegmentMissing` | gateway/worker/main.py:128-132 | The same in terms of the stored count, while part counts agree with it: without a recovery segment number `segments` of a `failed` row never went out. |
| `PipelineOutcomes.FailedUnsentIff` | gateway/worker/main.py:117-127 | The outcome of a send that was never handed to the driver is `failed` iff reloading its row failed; every other failure comes from a driver call. |
| `PipelineOutcomes.SettledAsAnswered` | gateway/worker/main.py:117-132 | In every run the outcome commit records what the modem took in that flight: `sent` iff it took all parts, then with the time, the number of parts and the last reference it gave; `queued` only when it took none; and no other column of the row changes. |
| `PipelineOutcomes.LastReferenceIs` | gateway/worker/modem.py:321-327 | The reference stored is that of the last part for which the modem gave one, and none only when it gave none. |
| `PipelineWitness.FailsUnsent` | gateway/worker/main.py:117-127 | For every accepted body there is a run in which the message ends `failed` and the driver was never called. |
| `PipelineOrder.PartsWithinGrants` | gateway/worker/main.py:110-118 | As long as part counts agree with the stored segment counts, the parts accepted, retries included, plus what the current message still holds in reserve never exceed the segments granted. |
| `PipelineOrder.GrantsWithinInflow` | gateway/worker/main.py:59-69 | In one worker lifetime the segments granted plus the balance left never exceed the initial fill plus the inflow. |
| `PipelineOrder.ThrottleHolds` | gateway/worker/main.py:110-118 | The throttle at the modem: parts accepted ≤ segments granted ≤ perMinute + perMinute·seconds/60 + 9, over every run. |
| `PipelineThrottle.ThrottleWindow` | gateway/worker/main.py:110-118 | In any interval of one worker lifetime, in every run, the segments granted are at most perMinute + perMinute·seconds/60 + 9. |
| `PipelineOrder.NoOvertaking` | gateway/worker/main.py:103-133 | When a message is about to become `sending`, every message that was queued when the pass loaded its queue and has an earlier created_at, or the same and a smaller id, has been sent, has failed or was purged; passes end at throttle breaks, lost connections and crashes, so the property spans them. |
| `PipelineOrder.PassProgress` | gateway/worker/main.py:103-133 | A pass over a non-empty queue that starts with a token and meets no crash and no failure of the connection or the database ends with strictly fewer of its messages queued; the first one is `sent`, `failed`, by now `delivered`, or was purged. |
| `PipelineWait.BoundedWait` | gateway/worker/main.py:95-133 | In every run, crashes, exceptions and lost connections included: the k-th message of the outbox has been sent, has failed or was purged by the end of the pass in which the bucket has granted more than k messages, plus one for each message accepted meanwhile with an earlier created_at, or the same and a smaller id, and one for each reconnect. |
| `PipelineWait.BoundedPasses` | gateway/worker/main.py:95-133 | The same in passes: k + 1 of them, with one more for each message that sorts before it meanwhile, each reconnect, and each pass that is refused its first message. |
| `PipelineWait.RefusedSoonAfterGrant` | gateway/worker/main.py:59-69 | In every run a refusal comes less than 60·c/perMinute seconds after the latest grant, c its cost: a pass that begins 600/perMinute seconds later is never refused its first message. |
| `PipelineOrder.RowsStayConsistent` | gateway/worker/main.py:115-132 | In every committed row of every run: sent_at is set iff `sent` or `delivered`, delivered_at iff `delivered`, error iff `failed`, and only received rows are inbound. |
| `PipelineOrder.SplitRun` | gateway/worker/main.py:296-325 | A run is a prefix followed by steps from the state the prefix reaches; what the properties about "later" rest on. |
| `WorkerLoop.RecoverInterruptedSends` | gateway/worker/main.py:240-257 | If the transaction commits every outbound `sending` row is `queued` and no other row changed, at most one row was concerned and it is counted; otherwise nothing changed. The step is one of the machine's events. |
| `WorkerLoop.ProcessOutbox` | gateway/worker/main.py:95-133 | The pass emits only events of the machine, so every property of runs holds of it. Every message of the queue it loaded before the position reached has been sent or has failed unless purged; it ends because there are no more, because the bucket refuses and the rest still wait, or because at that very message the database or the connection failed or the row was purged, and it goes past no message at which a statement fails. With a token it gets past the first message. |
| `WorkerLoop.SendQueued` | gateway/worker/main.py:115-132 | From the commit of `sending` to the commit of the outcome; an exception leaves the row where the machine leaves it, the earlier ones settled, and comes only from a failing statement, a purged row or a lost connection. |
| `WorkerLoop.SendOne` | gateway/worker/main.py:117-127 | The retried driver call is exactly the machine's flight, the parts it adds to the modem's log explain its outcome, and a connection error leaves the link down. |
| `WorkerLoop.SendMarked` | gateway/worker/main.py:117-127 | The row is read once more: if the database refuses or the row is gone the send fails with nothing sent, otherwise the message goes to the driver and the outcome tells exactly which parts went out. |
| `WorkerLoop.TakeTokens` | gateway/worker/main.py:110-114 | Each message is charged its stored segments, or one when that is zero; a refusal means less than one token, and ends the pass with the rest waiting. |
| `WorkerLoop.BuildRows` | gateway/worker/main.py:185-208 | The session gains one `received` row per text and, with a configured webhook, one pending delivery per row that is due at once. |
| `WorkerLoop.StoreTexts` | gateway/worker/main.py:181-209 | If the database takes the transaction, one `received` row per text with its number, body, segments and time under a new id, and one delivery each, pending, never attempted and due now, iff URL and secret are set, all together and as one event of the run; otherwise nothing changes. |
| `WorkerLoop.ApplyDeliveryReports` | gateway/worker/main.py:211-220 | If the transaction commits the reports are applied in order to what it found: a row changes only from `sent` to `delivered` at the time of a positive report that names it by number and, if it has one, by reference. Otherwise the table stays as it was, and the call raises iff the batch was not skipped as stale. |
| `WorkerLoop.ReportsSpareTexts` | gateway/worker/main.py:211-220 | Applying reports, or skipping them, removes no row and changes no `received` row. |
| `WorkerLoop.ProcessInbound` | gateway/worker/main.py:166-220 | For every poll that succeeds the driver has let go of what it read and has issued its deletes. Given what the API commits before and after, the final tables are determined: the texts are in the table iff their transaction commits, and from then on exactly unless purged; each has exactly one delivery iff URL and secret were set at that commit, exactly unless purged. If it does not commit, the worker has changed nothing. |
| `WorkerLoop.LoseOneText` | gateway/worker/main.py:166-209 | A call that loses a text: with the database refusing one transaction the text is deleted from the modem, no longer pending in the driver, and the table is empty. |
| `WorkerLoop.BackoffSequence` | gateway/worker/main.py:72-76 | After consecutive failures the delays are 5, 10, 20, 40 and then always 60 seconds. |
| `WorkerLoop.Reconnect` | gateway/worker/main.py:301-309 | The call raises iff the port does not open or the recovery does not commit; else the worker is idle with nothing `sending`. An exception leaves a state the next turn can start from. |
| `WorkerLoop.Turn` | gateway/worker/main.py:297-313 | One body of the loop, from reconnect to inbound, keeps engine, driver, bucket and machine in step. It polls unless its first statement, the port or the recovery fails, the pass breaks at a message, or the link is lost; a turn that raises nothing has polled, and what any turn deleted, handed over and committed is that one poll's. |
| `WorkerLoop.TryTurn` | gateway/worker/main.py:296-325 | The turn with its handler: any exception sends the worker back to connecting after the next delay in the sequence, which starts over exactly when the port was opened in this turn. |
| `WorkerLoop.WriteStatus` | gateway/worker/main.py:312-313 | The heartbeat raises iff the link is down, the modem does not answer, or the row cannot be written. |
| `WorkerLoop.Loop` | gateway/worker/main.py:295-325 | The same for the endless loop, cut off after any number of turns; the delay before reconnecting stays between 5 and 60 seconds. |
| `WorkerLoop.Run` | gateway/worker/main.py:280-325 | One life of the worker over any number of turns, each with the modem's and the database's answers given, emits a run of the machine and ends with the process down, whatever failed on the way. Its polls are all on the record: they account for every delete issued, every captured event handed over and every text transaction of the life. Each committed exactly its texts iff it returned something and the database took it, under a commit of its own. |
| `WorkerLoop.Engine.Interfere` | gateway/api/routes_admin.py:521-536 | Whatever the API process commits meanwhile, in order: messages accepted, purges with their deliveries, settings and deliveries rewritten; all of it events of the machine, none of it touching the worker's own state. |
| `Api.RowsStay` | gateway/api/routes_admin.py:521-536 | Over any steps of the API a row stays exactly as it was, exactly unless a purge covers it, and one that is gone stays gone. |
| `Api.NewRowsAreQueued` | gateway/api/routes_api.py:42-58 | Every row the API adds waits in the queue. |
| `Api.DeliveriesStay` | gateway/api/routes_admin.py:521-536 | A delivery goes exactly when its message goes, none appears, and none moves to another message. |
| `WorkerLoop.Engine.Purge` | gateway/api/routes_admin.py:521-536 | Exactly the messages created before the cutoff go, and exactly the deliveries of those messages with them; everything else stays as it was. |
| `WorkerLoop.Engine.Enqueue` | gateway/api/routes_api.py:42-58 | An empty or too long body is refused and changes nothing; any other becomes a queued outbound row with its number, segment count and time, every other column empty, under a new id. |
| `WorkerLoop.Engine.CommitOutcome` | gateway/worker/main.py:119-132 | The outcome is written to the row that is in flight and to no other. |
| `Ordering.Sort` | gateway/worker/main.py:107 | The chosen ids, each once: of two the one with the smaller value comes first, and of equal values the smaller id. |
| `Messages.QueryOutbox` | gateway/worker/main.py:104-109 | Returns exactly the queued outbound rows; of two the one with the earlier created_at comes first, and of equal times the smaller id. |
| `Messages.ReportsFlipOnce` | gateway/worker/main.py:136-163 | Over any sequence of reports: no row flips twice; a positive report flips at most one row, which is outbound, `sent`, to the number of the report and, if the report has a reference, with that reference; negative reports flip nothing; every other row is untouched. |
| `Messages.ReportsPassNoneOver` | gateway/worker/main.py:145-163 | The converse: a row that a positive report of the batch names has been flipped by an earlier report of it, or this report flips one that was sent no earlier. |
| `Messages.ReportsKeepConsistency` | gateway/worker/main.py:162-163 | Reports keep the time and error columns in agreement with the status. |
| `Messages.QueryReport` | gateway/worker/main.py:145-154 | The pick is outbound, `sent`, to the number of the report and, if it has one, with its reference; if there is such a row one is picked, and none was sent later, a row without sent_at counting as earliest. |
| `Messages.LatestExists` | gateway/worker/main.py:151-154 | Whenever some row matches there is a latest one to pick. |
| `Throttle.TokenBucket.TryTake` | gateway/worker/main.py:59-69 | The call leaves the bucket as the specification of one take says and answers accordingly. |
| `Throttle.TryTakeKeepsValid` | gateway/worker/main.py:59-69 | The balance stays between 1 - (largest cost) and the capacity, and grows by no more than the inflow. |
| `Throttle.RefillIsPollIndependent` | gateway/worker/main.py:63-65 | Refilling at any time in between changes nothing: the balance does not depend on how often the queue is polled. |
| `Throttle.WindowBound` | gateway/worker/main.py:59-69 | In any interval the costs granted are at most capacity + inflow + (largest cost - 1), for any sequence of calls. |
| `Throttle.SegmentsPerInterval` | gateway/worker/main.py:49-69 | With costs up to ten, from a full bucket: at most perMinute + perMinute·d/60 + 9 segments in any interval of d seconds. |
| `Throttle.BoundIsReached` | gateway/worker/main.py:66-68 | A full bucket polled at one instant grants perMinute + 9 segments, so the constant is exact. |
| `Throttle.GrantWithin` | gateway/worker/main.py:59-69 | After a grant of cost c, whatever refused polls come in between, a call at least 60·c/perMinute seconds later is granted. |
| `Sending.SendPartsExplained` | gateway/worker/modem.py:307-324 | At every point of the loop over the parts the accepted ones are a prefix of the message, in order, each once. |
| `Sending.SendSmsExplained` | gateway/worker/modem.py:294-327 | A normal return means all parts went out, PartialSendError a non-empty proper prefix, any other modem error none. |
| `Sending.SendExplained` | gateway/worker/main.py:79-92 | A whole `_send_with_retries` call never gets a part accepted twice, and the outcome tells whether all parts, some or none went out. |
| `Sending.RetriesExplained` | gateway/worker/main.py:79-92 | Call by call: each driver call goes on from the link the one before it left; every call but the last ended in a modem error or an unclassified exception; if the last ended so too, all attempts were used; fewer than all only when it returned, lost the connection or went out in part. |
| `Sending.OutcomeFromParts` | gateway/worker/modem.py:307-327 | The converse: the number of accepted parts determines which of the outcomes it was. |
| `Sending.ConnectionErrorDropsLink` | gateway/worker/modem.py:260-267 | After a connection error the driver has dropped its StateMachine. |
| `Sending.DuplicateWithoutCourtesy` | gateway/worker/modem.py:285-292 | Without the assumption on ValueError/TypeError a retried message would send its first part twice. |
| `Modem.GammuDriver.SendPart` | gateway/worker/modem.py:269-273 | One submit, with gammu errors told apart into connection errors, which drop the link, and others; whatever callbacks capture meanwhile is kept. |
| `Modem.GammuDriver.SendOne` | gateway/worker/modem.py:275-292 | One part, resent without the report request when the field is rejected, through the same error classification. |
| `Modem.GammuDriver.SendSms` | gateway/worker/modem.py:294-327 | Whether EncodeSMS raises anything or a part is refused, the call ends in the outcome, link state and log that the specification gives, and loses no captured event. |
| `Modem.GammuDriver.Command` | gateway/worker/modem.py:208-241 | Callbacks may run during any command: they only add to what is pending. |
| `Modem.GammuDriver.Connect` | gateway/worker/modem.py:173-206 | The link is up iff the port opens; what notifications captured while it did is pending behind what was there. |
| `Modem.GammuDriver.Status` | gateway/worker/modem.py:419-438 | The call succeeds iff the link is up and the modem answers; only an unanswered query can drop the link, and no captured event is lost. |
| `Modem.SendWithRetries` | gateway/worker/main.py:79-92 | The retry loop over the driver ends in the outcome, link state and log that the specification gives; Sending.RetriesExplained says which. |
| `Inbox.FetchReturnsAll` | gateway/worker/modem.py:345-417 | A successful call returns, in order, every pending event as it was, for each stored report its number, reference and time, delivered iff it has a status below 32, and for each linked text its sender, text, time and number of parts, and asks for the deletion of every stored part exactly once. |
| `Inbox.SucceedsIff` | gateway/worker/modem.py:345-417 | A call succeeds iff the store was read to its end, every report has a number, the texts could be linked and decoded and have a number, and no delete raised anything but a gammu error. |
| `Inbox.ReadsUpTo` | gateway/worker/modem.py:346-358 | The read loop stops at the first answer that is not an entry: the end of the store, a connection error, another gammu error, or another exception, each told apart. |
| `Inbox.JoinTextsFirst` | gateway/worker/modem.py:397-400 | A text that cannot be decoded is its parts joined in their order. |
| `Inbox.CapturedEventsSurvive` | gateway/worker/modem.py:208-241 | Over any series of turns, every event a callback ever captured, during a poll or any other command, is handed over or still pending, in order, once. |
| `Inbox.FailureAfterDelete` | gateway/worker/modem.py:410-417 | A failed call has deleted something iff everything could be read and decoded and some DeleteSMS it reached raised something else than a gammu error. |
| `Inbox.LostExactlyWhen` | gateway/worker/modem.py:410-417 | For each stored part: a poll loses it, freeing its location without returning it, iff its delete went through and a later one of the same poll raised something else than a gammu error. |
| `Inbox.PartIsLost` | gateway/worker/modem.py:410-417 | Such a call: a text of two parts whose second delete raises; the first part is gone and nothing was returned. |
| `Inbox.StoredPartsSurvive` | gateway/worker/modem.py:345-417 | Over any series of polls, with new parts arriving in between, a part once stored is still in the store as it was, or a poll that succeeded has returned it, or one has lost it in that way. |
| `Inbox.DeletesAreIssuedInOrder` | gateway/worker/modem.py:410-416 | Deletes are issued in order, all of them unless one raises something else than a gammu error. |
| `Modem.GammuDriver.OnIncoming` | gateway/worker/modem.py:208-241 | A status report adds an event that is positive iff it has a status below 32, a full text one event of one segment unless number or text is empty, at the end of the pending list; anything else adds none. |
| `Modem.GammuDriver.FetchInbound` | gateway/worker/modem.py:334-343 | Result, pending list, issued deletes and link state are those of the specification for every interleaving of callbacks; what was captured is at any time what was handed over and what is pending. |
| `Modem.GammuDriver.ReadStore` | gateway/worker/modem.py:346-358 | The read loop collects every entry up to the end of the store, or stops with the classified error. |
| `Modem.GammuDriver.ClassifyEntries` | gateway/worker/modem.py:377-392 | Reports become events with their locations, everything else is kept for linking, in order. |
| `Modem.GammuDriver.DecodeGroups` | gateway/worker/modem.py:394-409 | Each linked group becomes one text event and contributes its locations. |
| `Modem.GammuDriver.DrainStorage` | gateway/worker/modem.py:345-417 | The whole drain returns the captured events followed by those read, or the classified failure. |
| `InboundRuns.ReceivedStays` | gateway/worker/main.py:181-209 | A text whose transaction commits is in the table from then on as it came, in every run, exactly unless it is purged. |
| `InboundRuns.PartsEndUp` | gateway/worker/main.py:166-220 | End to end, over any life of the worker and whatever it meets: a part that is ever in the store of the modem is still there as it was, or a poll returned it and its text is in the table exactly unless purged since or the database refused that poll's transaction, or a poll freed it in vain. |
| `InboundRuns.CapturedTextsEndUp` | gateway/worker/main.py:166-220 | A text a callback captured is still pending, or a poll handed it over and it is in the table exactly unless purged since or the database refused that poll's transaction. |
| `Webhooks.AttemptsAreCounted` | gateway/api/webhooks.py:89-127 | Over any interleaving of rounds, manual retries, purges and failures, `attempt` is the number of POSTs less the outcomes that were lost, and is at most 6 + manual retries. |
| `Webhooks.RunsKeepInv` | gateway/api/webhooks.py:54-128 | In every reachable state delivered_at is set iff the delivery is `delivered`, and what a round still has ahead of it is pending and was due when the round began, whatever was retried, purged or created meanwhile. |
| `Webhooks.DelaysFollowTheChain` | gateway/api/webhooks.py:119-125 | In every reachable state a failed attempt number k ≤ 5 is followed by the k-th of the five delays, and the sixth is the last: the index into the chain is never out of range. |
| `Webhooks.RoundWorksThroughItsList` | gateway/api/webhooks.py:82-127 | A round works through the deliveries it loaded in order, each once: at every point what it has attempted or failed as an orphan is its list up to its position. |
| `Webhooks.DeliveredIsFinal` | gateway/api/webhooks.py:115-117 | A delivered row stays as it is until purged and is never POSTed again. |
| `Webhooks.AnswerDecides` | gateway/api/webhooks.py:104-125 | In every run, the commit after a POST answered with a status from 200 to 299 leaves the delivery `delivered` at that time, the commit after any other answer does not; the status stored is the one answered. |
| `Webhooks.TimesNeverDecrease` | gateway/api/webhooks.py:54-128 | In every run the times of rounds, POSTs, answers and commits never decrease, so a POST comes after the start of its round and before its answer. |
| `Webhooks.DueTimeStays` | gateway/api/webhooks.py:75-80 | Without a POST or a manual retry nothing moves a pending delivery's due time. |
| `Webhooks.AttemptsAreSpaced` | gateway/api/webhooks.py:121-125 | The next automatic attempt starts more than delay_k - 1 seconds after attempt k failed. |
| `Webhooks.IsoLosesLessThanASecond` | gateway/api/webhooks.py:50-51 | Where the second goes: storing whole seconds loses less than one. |
| `Webhooks.PostIsDue` | gateway/api/webhooks.py:75-80 | No POST starts before the stored due time. |
| `Dispatcher.Store.RetryDelivery` | gateway/api/routes_admin.py:721-732 | 404 iff the delivery is unknown, 409 iff it is there and not failed, neither changing anything; 303 iff it is failed, and then that row alone is pending and due now. |
| `Dispatcher.QueryDue` | gateway/api/webhooks.py:75-80 | Exactly the pending deliveries whose time has come; of two the one due earlier comes first, and of equal times the smaller id. |
| `Dispatcher.RecordAttempt` | gateway/api/webhooks.py:113-125 | The row after an attempt: delivered, failed for good, or due again after its delay. |
| `Dispatcher.Attempt` | gateway/api/webhooks.py:89-127 | One delivery of a round is attempted, with success iff the answer is a status from 200 to 299, or, when its message is gone, failed; it emits only events of the machine, whatever commits while the POST is awaited, and escapes with an exception iff something failed or the delivery was purged. |
| `Dispatcher.Store.SendRequest` | gateway/api/webhooks.py:95-110 | The POST goes out and is answered, after whatever else commits meanwhile; it counts as a success iff the answer is a status from 200 to 299. |
| `Dispatcher.Store.Interfere` | gateway/api/webhooks.py:89-127 | Whatever the rest of the gateway commits meanwhile, in order: new texts with their deliveries, purges, manual retries, settings; all of it events of the machine, none of it touching the round. |
| `Dispatcher.ProcessDueDeliveries` | gateway/api/webhooks.py:54-128 | A round is a run of the machine over exactly the deliveries due when it began. One that finishes has attempted or failed every one of them, in order; one that is cut short has done so up to a delivery at which something failed or which was purged, and goes past none at which something fails; the count returned is that of the attempts. |
| `Dispatcher.DispatcherLoop` | gateway/api/webhooks.py:131-143 | Any number of rounds, whatever fails in each: a broken one does not end the loop. |
| `Pagination.CursorRoundTrip` | gateway/api/routes_api.py:85-96 | Decoding gives back what was encoded iff the time is non-empty and has no bar and the id is non-empty. |
| `Pagination.DecodeIff` | gateway/api/routes_api.py:89-96 | A cursor is read exactly as the two texts around its first bar, neither of them empty; any other is refused. |
| `Pagination.ListMessages` | gateway/api/routes_api.py:99-136 | The page is the first `limit` of the eligible rows in order, with a cursor to the last one iff the page is full; no cursor and an empty one mean the first page; 422 for a bad cursor. |
| `Pagination.AnswerIs` | gateway/api/routes_api.py:99-136 | The same in terms of the texts: every row shown passes each filter given and lies past the cursor, in order of time and id, text order being that of the first difference; every row of the table that does is shown unless a full page ends before it; 422 iff the cursor does not split. |
| `Pagination.TextLessIs` | gateway/api/routes_api.py:128-134 | The comparison of texts is the usual one: at the first difference one ends or has the lower character. |
| `Pagination.SortRows` | gateway/api/routes_api.py:134 | The rows of a table, each once, in (created_at, id) order. |
| `Pagination.NextCursor` | gateway/api/routes_api.py:134-136 | The rows beyond the cursor of a full page are those after its last row; every eligible row not beyond it is on the page. |
| `Pagination.ListingIsUnique` | gateway/api/routes_api.py:134 | There is only one sorted list of a table. |
| `Pagination.WalkIncreases` | gateway/api/routes_api.py:126-136 | While rows come and go between requests, the walk is strictly increasing and never repeats a row. |
| `Pagination.WalkMissesNothing` | gateway/api/routes_api.py:126-136 | A finished walk has listed every message that was present and matched throughout. |
| `Pagination.WalkOnFixedTable` | gateway/api/routes_api.py:112-136 | On a fixed table the finished walk is exactly the sorted filtered list. |
| `Pagination.WalkTerminates` | gateway/api/routes_api.py:134-136 | On a fixed table of m rows a walk has at most m/limit pages before its last. |
| `Segments.CountIsMonotone` | gateway/shared/sms.py:19-25 | Typing on never lowers the count, also across the switch from GSM-7 to UCS-2. |
| `Segments.CapIsSegmentCap` | gateway/shared/sms.py:28-30 | The 1600-character cap never decides: a body is too long iff it counts more than ten segments. |
| `Segments.AcceptedCost` | gateway/shared/sms.py:19-30 | An accepted body costs between 1 and 10. |
| `Segments.CountAgainstPacking` | gateway/shared/sms.py:19-25 | The count never exceeds a packing that splits no escape or surrogate pair, equals it when there are none, and the packing needs at most ceil(total/(cap-1)) parts (152 for GSM-7). |
| `Segments.CountIsExactIff` | gateway/shared/sms.py:19-25 | Exactly when the count is what a packing needs: the text fits one part, or what is wasted at part ends fits into the rest of the last part counted. |
| `Segments.StoredCountIsRightIff` | gateway/shared/sms.py:19-25 | The same for every body: its stored count is the number of parts it needs iff its septets are at most 160, or with the septets lost at part ends still fit the counted parts of 153; 70 and 67 in UCS-2. |
| `Segments.GreedyIsOptimal` | gateway/shared/sms.py:19-25 | No way to cut the body into parts uses fewer parts than greedy packing. |
| `Segments.CountCanFallShort` | gateway/shared/sms.py:19-25 | A body the gateway accepts and counts as 2 that needs 3 parts: 152 letters, an escape pair, 152 letters. |
| `Composer.Analyse` | gateway/api/static/composer.js:38-69 | For every string of Unicode scalar values, the one-pass loop reports the server's alphabet decision, segment count and verdict, with the capacity of a part that belongs to them; the offenders are the unknown characters at their first occurrence. |
| `Composer.ArrayFromInverts` | gateway/api/static/composer.js:39 | Splitting UTF-16 text into code points undoes the encoding, and the JavaScript length is the number of code units the server counts. |
| `Composer.SeptetsAgree` | gateway/api/static/composer.js:43-53 | The single accumulator is the server's septet sum. |
| `Composer.AlphabetAgrees` | gateway/api/static/composer.js:45-52 | All characters are known to the tables iff the server takes the body for GSM-7. |
| `Composer.ServerAgrees` | gateway/api/static/composer.js:54-68 | The verdict computed from the pass is the server's. |
| `Composer.TablesAreDisjoint` | gateway/shared/sms.py:7-11 | No character is in both tables. |
| `Composer.AsciiAlphabet` | gateway/shared/sms.py:7-11 | Of the printable ASCII characters all are basic but nine, and eight of these take two septets; the backtick is in neither table. |
| `Segments.TableSizes` | gateway/shared/sms.py:7-11 | 127 characters in the basic table and ten in the extension table. |
| `RateLimit.RateLimiter.Allow` | gateway/api/ratelimit.py:22-33 | For any reading in any order the deque decides as the specification of the history says; while a key's readings come in order a call is accepted iff fewer than per_minute earlier accepts lie in (now-60, now]. With the limit off everything is accepted. |
| `RateLimit.TrimDeque` | gateway/api/ratelimit.py:28-29 | Pops from the left while the hit is 60 seconds old or older: what goes is outdated, what is left starts with one that is not. |
| `RateLimit.WindowIsDeque` | gateway/api/ratelimit.py:27-32 | What is left in the deque is what the window holds. |
| `RateLimit.DequeDecides` | gateway/api/ratelimit.py:22-33 | For readings in order the deque, which forgets, answers as the window rule on the full history does. |
| `RateLimit.NoWindowOverflows` | gateway/api/ratelimit.py:22-33 | For readings in order no 60-second window, wherever it lies, holds more than per_minute accepts of one key. |
| `RateLimit.OrderIsExactlyNeeded` | gateway/api/ratelimit.py:25-26 | The clock is read before the lock, so an older reading can come later. After histories in order with latest reading `last`, every call at `now` is answered by the window rule iff last ≤ now. |
| `RateLimit.LateReadingIsRefused` | gateway/api/ratelimit.py:25-26 | For every limit, every time and every earlier reading: after a burst the late reading is refused although its own window is empty. |
| `RateLimit.RefuseLate` | gateway/api/ratelimit.py:22-33 | The refusal as calls of the limiter: its last answer is no, with an empty window. |
| `RateLimit.LateReadingIsAdmitted` | gateway/api/ratelimit.py:25-29 | A burst, a reading that empties the deque, and a late one: it is accepted, and its window holds one accept more than the limit. |
| `RateLimit.AdmitLate` | gateway/api/ratelimit.py:22-33 | The surplus accept as calls of the limiter: its last answer is yes, with per_minute + 1 accepts in the window. |
| `RateLimit.OverAdmission` | gateway/api/ratelimit.py:22-33 | With readings in any order no window overflows iff the limit is one per minute. |
| `Html.EscapeIsSafe` | gateway/shared/markdown.py:68-73 | Escaped text has no `<` or `>`, and no `"` when escaped for an attribute. |
| `Html.EscapeRoundTrip` | gateway/shared/markdown.py:68-73 | A reader that decodes the references gets the text back. |
| `Html.EscapedTargetIsSafe` | gateway/shared/markdown.py:76-80 | A safe target is still safe once it is escaped for an attribute. |
| `Inline.MatchSpans` | gateway/shared/markdown.py:35-43 | Every match of the alternation is the exact source of the text it covers, and is not empty. |
| `InlinePattern.MatchIff` | gateway/shared/markdown.py:35-43 | The scanners find a match at a position iff the pattern has one there, and exactly the one it prefers: the alternatives in their order, the longest run of backticks that is closed, the nearest closing mark with at least two characters before it, the guards around single marks. |
| `InlinePattern.CodeIff` | gateway/shared/markdown.py:36 | A code span: the longest opening run that is closed, at the first place it is, with at least one character between. |
| `InlinePattern.LinkIff` | gateway/shared/markdown.py:37 | A link: any text without `]` in brackets, directly followed by a target without `)` or white space in parentheses. |
| `InlinePattern.AutolinkIff` | gateway/shared/markdown.py:38 | An autolink: one of the schemes http, https and mailto in angle brackets, and at least one character without `>` or white space. |
| `InlinePattern.StrongIff` | gateway/shared/markdown.py:39 | A strong span: two asterisks on both sides of a body that begins and ends with no white space, the shortest of at least two characters, else one. |
| `InlinePattern.EmphasisIff` | gateway/shared/markdown.py:40-41 | An emphasised span: the same with a single mark that no word character and no such mark touches from outside. |
| `Inline.CodeSpans` | gateway/shared/markdown.py:36 | A code span is closed by the first run of as many backticks as opened it. |
| `Inline.LinkSpans` | gateway/shared/markdown.py:37 | The label ends at the first `]` and the target at the first `)`. |
| `Inline.RenderInline` | gateway/shared/markdown.py:83-106 | The loop over the matches computes the character-by-character reading of the text, whose matches InlinePattern.MatchIff characterises. |
| `InlineMarkup.LinkRendered` | gateway/shared/markdown.py:83-97 | `[text](href)` between two stretches without marks becomes an `a` element whose href is the filtered and escaped target and whose content is the text, rendered in turn. |
| `InlineMarkup.AutolinkRendered` | gateway/shared/markdown.py:98-100 | `<scheme…>` becomes an `a` element that shows its target. |
| `InlineMarkup.CodeRendered` | gateway/shared/markdown.py:91-93 | Text in any number of backticks becomes a `code` element with the text stripped and escaped. |
| `InlineMarkup.StrongRendered` | gateway/shared/markdown.py:101-102 | `**body**` becomes a `strong` element around the rendered body. |
| `InlineMarkup.EmphasisRendered` | gateway/shared/markdown.py:103-105 | `*body*` and `_body_` become an `em` element around the rendered body when neither side touches a word. |
| `InlineMarkup.UnmarkedRendered` | gateway/shared/markdown.py:88 | Text without any character that markup starts with comes out escaped. |
| `Html.SafeHrefIs` | gateway/shared/markdown.py:76-80 | A target is kept iff it begins with `#`, `/`, `http://`, `https://` or `mailto:`; any other becomes `#`. |
| `Html.CrossingIsRefused` | gateway/shared/markdown.py:170-310 | The reader that defines well-formed refuses elements that cross each other, wherever they stand. |
| `Html.StrayIsRefused` | gateway/shared/markdown.py:170-310 | It refuses a stray angle bracket and an element left open. |
| `Html.AttributeReadsIff` | gateway/shared/markdown.py:76-80 | It reads an attribute iff its name is one of five and, if it is a link, its target is safe. |
| `Inline.RunIsEscaped` | gateway/shared/markdown.py:88 | A stretch in which nothing matches comes out escaped and otherwise as it was. |
| `Inline.PlainText` | gateway/shared/markdown.py:105 | Text without markup is only escaped, and unescaping it gives it back. |
| `Inline.InlineIsBalanced` | gateway/shared/markdown.py:83-106 | For every text and every resolver the output opens and closes its elements like brackets, has no `<` or `>` of the text in it, and links only to safe targets. |
| `Reading.ReaderSeesTheText` | gateway/shared/markdown.py:83-106 | Tags dropped and references decoded, the output is the source without its marks, in order, and nothing else. |
| `Reading.InlineShows` | gateway/shared/markdown.py:83-106 | Each fragment reads as its text wherever it stands. |
| `Reading.TextIsWithin` | gateway/shared/markdown.py:83-106 | The text a reader sees is a subsequence of the source. |
| `ReadingBlocks.CodeIsVerbatim` | gateway/shared/markdown.py:196-204 | The lines between two fences read back exactly as they were written. |
| `ReadingBlocks.ParagraphShowsItsLines` | gateway/shared/markdown.py:302-310 | A paragraph reads as its stripped lines without the marks, and nothing is added. |
| `ReadingBlocks.HeadingShowsItsTitle` | gateway/shared/markdown.py:206-214 | A heading reads as its title followed by the `#` of the link to it. |
| `ReadingBlocks.RowShowsItsCells` | gateway/shared/markdown.py:237-251 | A table row shows every cell once, in order, however many alignments the divider gave. |
| `PageReading.ListShows` | gateway/shared/markdown.py:260-300 | Across nested lists, continuations and blank lines a list shows its items in order, each as its text. |
| `PageReading.PageShowsItsText` | gateway/shared/markdown.py:170-310 | A reader of the whole page, quotes in quotes included, sees the texts of its blocks in order and nothing else. |
| `PageSource.PageAddsNothing` | gateway/shared/markdown.py:170-310 | Nothing is added: white space aside, the page as a reader sees it is the document with characters left out, in order, and at most one `#` put in for each heading, those of nested quotes included. |
| `PageLosses.PageLosesNothing` | gateway/shared/markdown.py:170-310 | Nothing is lost: a character that is neither white space nor a mark is seen on the page exactly as often as it stands in the document, but for link targets, fence languages, what follows a closing fence, and list numbers. |
| `Patterns.TitleReadsBack` | gateway/shared/markdown.py:25 | A title written with one to six `#` and a space is read back as that level and text. |
| `LinePatterns.TitleIff` | gateway/shared/markdown.py:25 | A line is a heading iff the pattern fits it: one to six `#` that no other follows, all the white space that leaves a character, and the shortest text after which only white space, `#` and white space remain. |
| `LinePatterns.FenceIff` | gateway/shared/markdown.py:26 | A line is a fence iff it is three backticks, white space, letters, digits and `_+.-`, and white space; the language is what stands between. |
| `LinePatterns.RuleIff` | gateway/shared/markdown.py:27 | A rule is three or more of one of the three signs. |
| `LinePatterns.QuoteIs` | gateway/shared/markdown.py:30 | What is quoted is what follows the sign and at most one white space. |
| `LinePatterns.BulletIff` | gateway/shared/markdown.py:28 | A line is a bullet item iff it is white space, one of `-*+`, white space and the rest, which takes none of it. |
| `LinePatterns.NumberedIff` | gateway/shared/markdown.py:29 | A line is a numbered item iff it is white space, digits, `.` or `)`, white space and the rest. |
| `LinePatterns.DividerCellIff` | gateway/shared/markdown.py:109-111 | A divider cell is two or more dashes with at most one colon on each side. |
| `LinePatterns.StyleIs` | gateway/shared/markdown.py:118-127 | Colons on both sides center the column, one on the right aligns it right, none and one on the left leave it. |
| `LinePatterns.RowIs` | gateway/shared/markdown.py:114-115 | The cells of a row are what stands between its bars, stripped; bars at its ends count for nothing. |
| `LinePatterns.StripIs` | gateway/shared/markdown.py:302-310 | Stripping takes the white space around a text and nothing else. |
| `LinePatterns.LinesAre` | gateway/shared/markdown.py:315 | The lines of a document are what stands between its line feeds, returns, or both together, each with its tabs expanded from its own first column. |
| `LinePatterns.TabStop` | gateway/shared/markdown.py:315 | A tab becomes one to four spaces, up to the next multiple of four. |
| `Text.LinesAreClean` | gateway/shared/markdown.py:315 | No line holds a line break, a carriage return or a tab. |
| `Text.SplitThenJoin` | gateway/shared/markdown.py:315 | Splitting into lines and joining them loses nothing. |
| `Renderer.Renderer.Render` | gateway/shared/markdown.py:170-194 | The block loop produces the blocks, slug counts, table of contents and final index of the specification. |
| `Renderer.Renderer.Fence` | gateway/shared/markdown.py:196-204 | The body is every line up to the closing fence, escaped; the index ends one further. |
| `Renderer.Renderer.Title` | gateway/shared/markdown.py:206-214 | One heading with its anchor; a table-of-contents entry iff its level is 2 or 3; its base counted once more. |
| `Renderer.Renderer.UniqueSlug` | gateway/shared/markdown.py:158-162 | The slug is the base, numbered by how often the base came before, and the count goes up by one. |
| `Renderer.Renderer.Blockquote` | gateway/shared/markdown.py:216-226 | The quoted lines are rendered by a renderer of their own, on strictly lighter input. |
| `Renderer.Renderer.Table` | gateway/shared/markdown.py:233-258 | Head and rows with the alignments of the divider, up to the first line that is blank or has no bar. |
| `Renderer.Renderer.List` | gateway/shared/markdown.py:260-300 | Items, lazy continuations and nested lists; the branch for an over-indented first item is never reached. |
| `Renderer.Renderer.Paragraph` | gateway/shared/markdown.py:302-310 | The lines up to the first that interrupts a paragraph. |
| `BlockForms.FenceForm` | gateway/shared/markdown.py:196-204 | A fence becomes `pre` and `code` around the escaped lines up to the next line that begins with three backticks, with the language as its class. |
| `BlockForms.HeadingForm` | gateway/shared/markdown.py:206-214 | A heading becomes an element of its level whose id is its slug, numbered when seen before, with its rendered text and the link to itself. |
| `BlockForms.RuleForm` | gateway/shared/markdown.py:183-185 | A rule becomes `hr`. |
| `BlockForms.QuoteForm` | gateway/shared/markdown.py:216-226 | All the lines from here on that begin with `>`, without the sign and one white space, parsed as a document of their own, become one `blockquote`. |
| `BlockForms.TableForm` | gateway/shared/markdown.py:228-258 | A line with a bar over a divider begins a table: head, rows up to the first blank line or line without a bar, each cell rendered, each column aligned by its divider. |
| `BlockForms.ListForm` | gateway/shared/markdown.py:260-300 | A list is numbered iff its first item is, and each of its items is one `li`. |
| `BlockForms.ListRules` | gateway/shared/markdown.py:260-300 | How it goes on: an item of the same indent is the next one, a deeper one begins a list inside the last, a shallower one ends it, a line indented further continues the last item, a blank line is passed over iff an item not less indented follows. |
| `BlockForms.ParagraphForm` | gateway/shared/markdown.py:302-310 | Everything else is a paragraph: the lines up to the first that begins any other construct, stripped and joined. |
| `BlockForms.StopsIs` | gateway/shared/markdown.py:130-143 | A paragraph is interrupted exactly by a blank line, a fence, a heading, a rule, a quote, an item or a table. |
| `BlockForms.MarksStripped` | gateway/shared/markdown.py:210 | The anchor of a heading is made from its text with every backtick, asterisk and underscore taken out. |
| `Renderer.Render` | gateway/shared/markdown.py:313-318 | For every document and resolver the page is well-formed HTML and reads as the texts of its blocks, and its contents list the headings in order. |
| `Document.LinesArePartitioned` | gateway/shared/markdown.py:170-194 | Every line belongs to exactly one block or is a blank separator, and reading ends at the number of lines, or one further exactly when the last block is an unclosed fence. |
| `Document.TilesCover` | gateway/shared/markdown.py:170-194 | The same line by line: no line is in two blocks, and a line in none is blank. |
| `Document.DocumentIsWellFormed` | gateway/shared/markdown.py:170-310 | Across nested lists, quotes, tables, links and emphasis: tags known, attributes known, elements nested, links safe. |
| `Document.ListIsBalanced` | gateway/shared/markdown.py:260-300 | A list with its nested lists and continuations is balanced. |
| `Document.HeadingsAreNumbered` | gateway/shared/markdown.py:158-162 | The ids of one renderer's headings are numbered by the earlier headings with the same base. |
| `Document.SharedAnchors` | gateway/shared/markdown.py:158-162 | Two headings of one renderer share an id iff their bases differ and one of them, seen for the first time, spells out the number the other was given. |
| `Document.QuotedTitlesRepeatIds` | gateway/shared/markdown.py:216-226 | Only one renderer keeps ids apart: a title and the same title quoted below it carry the same id. |
| `PageIds.SharedIds` | gateway/shared/markdown.py:158-226 | For any two headings of a page, in whatever quotes they stand: they share an id iff base and number of predecessors in their renderers are equal, or one, the first of its base in its renderer, spells out the number the other was given. |
| `PageIds.HeadingsAreCounted` | gateway/shared/markdown.py:158-226 | Every heading of a page, in or out of quotes, is numbered by the earlier headings with its base in its own renderer and by no others. |
| `PageIds.OwnAreEmitted` | gateway/shared/markdown.py:170-226 | The headings collected for a renderer are those of the blocks it emits, in order. |
| `PageIds.CollidingTitles` | gateway/shared/markdown.py:158-162 | The document lines "# A", "# A", "# A 2" end up with the ids `a`, `a-2` and `a-2`. |
| `Document.TocNamesHeadings` | gateway/shared/markdown.py:206-214 | Entry k of the table of contents is a heading of level 2 or 3 and names the id that heading carries in the page, in the order of the headings. |
| `Document.TocIsComplete` | gateway/shared/markdown.py:211-212 | No heading of level 2 or 3 is left out of the table of contents. |
| `Slugs.SlugifyFitsPattern` | gateway/shared/markdown.py:63-65 | Whatever the heading, its slug fits the pattern [a-z0-9]+(-[a-z0-9]+)*. |
| `Slugs.SlugOfWords` | gateway/shared/markdown.py:63-65 | What a slug is, for every heading: its words of letters a to z and digits, in order, with one hyphen for whatever stood between two of them and nothing for what stood around them. |
| `Slugs.SlugOfNoWords` | gateway/shared/markdown.py:63-65 | A heading without such words gets `section`. |
| `Slugs.DecimalReads` | gateway/shared/markdown.py:158-162 | The number of a repeated heading is written in decimal digits without a leading zero. |
| `Slugs.SlugifyIsIdempotent` | gateway/shared/markdown.py:63-65 | Slugifying a slug that lowering leaves alone gives the slug. |
| `Slugs.RepeatedHeadingsDiffer` | gateway/shared/markdown.py:158-162 | Headings with the same base never share an id. |
| `Slugs.CollisionsAreImitations` | gateway/shared/markdown.py:158-162 | Headings with different bases share an id iff one is the other followed by `-n` with n the number given to the other. |
| `Slugs.AnchorsAgreeIff` | gateway/shared/markdown.py:158-162 | When the ids of two bases with any two counts are equal, whichever renderers gave them. |

## Left out

- HTTP, routing, templates, authentication, HMAC, sessions, configuration and logging: no core of their own; ids and signatures are opaque.
- Base64 of the pagination cursor: taken for the bijection it is, so a cursor is the text it encodes.
- FakeDriver, modem status, own-number lookup, `write_status`, event records: no effect on messages.
- Calendar and time zones: times are numbers; only the truncation to whole seconds is kept, where it matters.
- Floating point in the token bucket and the rate limiter: real arithmetic.
- `WorkerLoop.ApplyDeliveryReports`: the API commits before the report session, not between its queries and its commit, where it could only make the batch be skipped as stale.
- `WorkerLoop.BuildRows`: one reading of the clock stamps a batch of texts.
- `PipelineOrder.ThrottleHolds`: premises that part counts equal stored counts, because `Segments.CountCanFallShort` shows they can differ.
- `Pagination.WalkMissesNothing`: for walks that reach their last page; with inserts going on forever a walk need not end.
- `Webhooks.AttemptsAreCounted`: counts a lost outcome (a crash or failed commit after the POST) separately, since nothing records it.
- `Slugs.SlugifyIsIdempotent`: premises that lowering leaves the slug alone, because `str.lower` is a parameter.
- The `stop_indent` argument of `blocks`: always 0 in the source.
- Form validation of the admin and API routes, apart from the length of a body.
- `Modem.GammuDriver.Status`: what signal and network it reports.
- The browser's NAMES table and rendering of the counter: display only.
