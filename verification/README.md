# Dafny model of the stock-analysis reliability core

This project models the parts of the stock-analysis repository whose job is to stay right when a
process dies at the wrong moment or an input is not what it seems, and proves what those parts promise:

* **Watchdog** (`Watchdog*.dfy`): one poll classifies the health report, compares the incidents with the
  durable active map, writes event files, commits `state.json` and then dispatches alerts through
  durable receipts and subject pointers. `Play` is one poll; a trace is any sequence of polls.
* **Log rotation** (`Rotation*.dfy`, `JsonText.dfy`): archive, verify, prune and resume, with the sizes of the
  tar and of the manifest that the limits are about.
* **Rust lexer** (`Rust*.dfy`): the byte mask that blanks comments and literals, and the search
  for an item's body on it.
* **Trading calendar** (`GregorianDates.dfy`, `TradingCalendar.dfy`): the verified calendar beside the
  mutable runtime one.
* **Smaller cores**: the pinned audit chain (`AuditChain.dfy`), the archive screen
  (`ArchiveScreening.dfy`), the `git cat-file --batch` parser (`GitBatch.dfy`), the catalog validator
  (`CatalogValidator.dfy`) and the current-source audit over it (`EvidenceClosure.dfy`, `CurrentAudit.dfy`).

Code that updates things step by step is a class or a method with loops (`Watchdog`, `Directories`,
`HolidaySet`, `MaskInto`, `ParseBatch`, `Screen`, …), proved equal to a function on values; the laws are
lemmas about those functions.

How the world is modelled:

* A crash is a budget of durable actions (`fuel`): each file write, unlink or sender call uses one, and
  nothing happens once it is used up. Statements quantify over the budget, so they hold for a crash after
  any action. Overlapping processes are excluded, as the lock excludes them.
* The sender, the probe report, the clock, the holiday feed and directory orders are parameters. The
  sender is any function from the number of calls so far to a reply, including a reply that never comes. A
  message is in doubt when the sender was called for the attempt its receipt records and the receipt does not
  say how that went: no reply came, the reply was lost before it was written, or it was `Unknown`.
* A SHA-256 digest in the watchdog, rotation and screen is the content itself, which makes it free of
  collisions. In the audit chain the hash is an arbitrary function, and the theorem names the rows at
  which the two tables would have to collide.
* Dates are day numbers, instants are numbers of microseconds.

Four places where the code does not keep what it is for, each with its exact boundary:

* `validate_outcome` admits an `Accepted` outcome without HTTP 200, but the receipt it becomes is refused
  by `read_receipt`, and a later dispatch that meets it aborts (`SettledReceiptIsReadable`,
  `UnevidencedAcceptanceStopsDispatch`). The repository's own sender always supplies the status code
  (`scripts/watchdog_mobile.py:167-172`), so only another sender passed to `dispatch_mobile` gets there; with
  senders that supply it every receipt of every trace is readable (`TraceReceiptsAreReadable`).
* Rotation checks the size of the files of a day but not the sizes of the tar and the manifest it makes of them,
  and the reserve it keeps for tar overhead is too small. A fresh day is archived exactly when both files are also
  within the limits they are read back with (`FreshDayIsArchivedIff`). Otherwise they are published all the same
  and the day is stuck for good (`OversizedArchiveBlocksTheDay`): two thousand files of 32769 bytes make too large
  a tar (`CrowdedDayGetsStuck`), and ten thousand small files whose names JSON escapes make too large a manifest
  beside a tar that fits (`LongNamesGetStuck`). A crash between tar and manifest also leaves a day that no later
  run completes; every other crash is made good (`CrashedDayResumes`, `CrashedRunIsQuiescent`,
  `CrashedRunResumes`).
* A generation is named by its key and its first instant. Three polls at one instant, probe down, all healthy,
  probe down again, send an alert of an outage whose recovery is committed (`SameInstantSendsAStaleAlert`). An
  outage that is over is current again exactly when a later poll raises its inactive key at that first instant
  (`ReturnsIffOpened`, `StaleAlertIffReopened`); with fresh instants none does (`GenerationsNeverReturn`,
  `NoAlertAfterItsRecovery`).
* The outbox keeps the events of a day, and a dispatch refuses an outbox of more than 4096 events as a whole. A
  poll that commits dispatches nothing exactly then or without a configuration (`PollPlansNothingIff`). Five
  capabilities that come and go at every minute poll get there in less than fourteen hours; a P0 alert that is
  committed afterwards is never sent (`CrowdedOutAlertIsNeverSent`, `FlappingLosesAlerts`).

## Model

| member | source | states |
|---|---|---|
| WatchdogClassify.Classify | scripts/monitor_watchdog.py:126-196 | The loop form yields exactly the raised incidents, resolved rules and poll record of the specification |
| WatchdogClassify.IncidentsWellRaised | scripts/monitor_watchdog.py:131-193 | Outside `capability` a poll raises a rule at most once, and every raised incident is one its own rule calls for |
| WatchdogClassify.ResolvedRulesMembers | scripts/monitor_watchdog.py:131-193 | A rule is listed as resolved if and only if its own condition for recovery holds |
| WatchdogClassify.NeverRaisedAndResolved | scripts/monitor_watchdog.py:131-193 | Outside `capability` no poll both raises and resolves a rule |
| WatchdogClassify.DataEscalatesOnSecondPoll | scripts/monitor_watchdog.py:158-171 | A data incident is P0 if and only if trading is on and the previous poll saw the same failure |
| WatchdogIncidents.SweepAllIs | scripts/monitor_watchdog.py:232-243 | The sweep over previously active keys comes to the same closed form in every listing order |
| WatchdogIncidents.CloseAll | scripts/monitor_watchdog.py:232-243 | The loop closes, keeps or drops each previously active key as the specification says |
| WatchdogIncidents.Diff | scripts/monitor_watchdog.py:212-261 | The incident loops compute the next state and the new events of the specification |
| WatchdogAccounting.OneEntryPerRuleKept | scripts/monitor_watchdog.py:219-243 | Every poll keeps at most one active entry per rule other than `capability` |
| WatchdogAccounting.EveryActiveKeyIsAccountedFor | scripts/monitor_watchdog.py:219-243 | An active key stays active, or its rule has exactly one event, a `changed`, or exactly one event names it, a `recovery` of its own generation with its rule resolved |
| WatchdogAccounting.AlertMeaning | scripts/monitor_watchdog.py:219-231 | Every alert event names an entry that is active afterwards with the same generation and severity |
| WatchdogAccounting.RecoveryMeaning | scripts/monitor_watchdog.py:232-243 | Every recovery event names a key that was active, is no longer, and is recorded as resolved with that generation |
| WatchdogAccounting.NextGenerations | scripts/monitor_watchdog.py:212-243 | A key that stays active keeps its generation, and a new key gets one of this instant |
| WatchdogSafety.CarryAllIsSound | scripts/watchdog_mobile.py:343-390 | Receipts, pointers and the log of calls stay consistent over a whole candidate loop cut off anywhere, whatever the sender answers |
| WatchdogSafety.CarryAllCalls | scripts/watchdog_mobile.py:343-390 | A run makes at most three calls, each for a candidate that was current and permitted |
| WatchdogTheorems.FinalReceiptsAreForever | scripts/watchdog_mobile.py:345-390 | A final receipt is never rewritten, over all later runs and crashes of a trace |
| WatchdogSafety.RetryLimitBranchIsDead | scripts/watchdog_mobile.py:366-367 | In a consistent state the retry-limit branch before a send is never taken |
| WatchdogSafety.SettledReceiptIsReadable | scripts/watchdog_mobile.py:116-133 | The receipt of a validated outcome can be read back if and only if an acceptance comes with HTTP 200 and a rejected request with HTTP 400 |
| WatchdogSafety.UnevidencedAcceptanceStopsDispatch | scripts/watchdog_mobile.py:221-253 | The outcome that breaks this: it is validated, and the next dispatch that meets its receipt aborts |
| WatchdogTheorems.TraceReceiptsAreReadable | scripts/watchdog_mobile.py:221-253 | If every sender of a trace gives evidence for its outcomes, every receipt stays readable throughout |
| WatchdogSafety.LostAnswerIsInDoubt | scripts/watchdog_mobile.py:371-390 | A run that dies between the sender's answer and the receipt leaves the message in doubt, whatever the answer was |
| WatchdogProtocol.Watchdog.constructor | scripts/monitor_watchdog.py:304-309 | A watchdog starts with an empty output directory |
| WatchdogProtocol.Watchdog.CarryOne | scripts/watchdog_mobile.py:343-390 | One candidate: receipt, pointer, call and receipt again change the files as specified, up to the crash |
| WatchdogProtocol.Watchdog.Dispatch | scripts/watchdog_mobile.py:270-398 | The whole dispatch changes the files and the call log as specified |
| WatchdogProtocol.Watchdog.PublishAll | scripts/monitor_watchdog.py:244-275 | Events first, then the state: the order in which a poll becomes durable |
| WatchdogProtocol.Watchdog.Poll | scripts/monitor_watchdog.py:294-328 | One poll of the object is one step of the protocol the theorems are about |
| WatchdogTheorems.PlayIsSafe | scripts/monitor_watchdog.py:299-328 | Every poll, cut off anywhere, keeps the invariant, adds at most three calls and either commits the specified next state or leaves the state as it was |
| WatchdogTheorems.TraceIsSafe | scripts/monitor_watchdog.py:299-328 | The invariant holds after every poll of every trace |
| WatchdogTheorems.DoubtIsForever | scripts/watchdog_mobile.py:256-267 | Quarantine: a message once in doubt stays in doubt and holds its subject's pointer, and no later run or crash of the trace calls the sender for that subject |
| WatchdogTheorems.UncertainCallIsLastOfItsSubject | scripts/watchdog_mobile.py:378-390 | In particular a call that raised, was cut short or returned `Unknown` is the last call of its subject |
| WatchdogTheorems.MessageIsTriedAtMostThrice | scripts/watchdog_mobile.py:349-390 | In every trace a message is tried at most three times, each within 900 seconds of its observation and each retry 60·4^(k-1) seconds or more after attempt k |
| WatchdogTheorems.EarlierCallProvablySentNothing | scripts/watchdog_mobile.py:345-390 | Every call for a message except its last returned `FailedRetryable`, so at most one can have transmitted |
| WatchdogTheorems.RecoveryIsSentOnlyWhileInactive | scripts/watchdog_mobile.py:320-324 | A recovery is sent only while its key, and outside `capability` its whole rule, is inactive |
| WatchdogTheorems.CommittedEventsAreOnDisk | scripts/monitor_watchdog.py:244-263 | Every event a committed outbox refers to is on disk, however early later polls die |
| WatchdogTheorems.CommitsAccountForEveryKey | scripts/monitor_watchdog.py:219-243 | Incident accounting for every committing poll of every trace |
| WatchdogGenerations.ActivatedByOpening | scripts/monitor_watchdog.py:219-243 | A commit makes an inactive generation active iff it raises the generation's inactive key at the generation's own instant |
| WatchdogGenerations.ReturnsIffOpened | scripts/monitor_watchdog.py:212-263 | In every trace an inactive generation is active again later iff a committing poll in between raises its inactive key at its own instant |
| WatchdogGenerations.StaleAlertIffReopened | scripts/watchdog_mobile.py:325-331 | After an outage has ended, a committed state stands behind an alert of it again iff a poll has opened its generation again |
| WatchdogGenerations.StaleCallNeedsReopening | scripts/watchdog_mobile.py:319-331 | An alert of a generation whose recovery is committed is only ever sent after such a reopening |
| WatchdogInstants.GenerationsNeverReturn | scripts/monitor_watchdog.py:212-243 | With fresh instants the commits that have a generation active are consecutive |
| WatchdogInstants.NoAlertAfterItsRecovery | scripts/watchdog_mobile.py:319-331 | With fresh instants no alert of a generation is sent once its recovery has been committed |
| WatchdogInstants.SameInstantSendsAStaleAlert | scripts/monitor_watchdog.py:212-263 | A trace of three polls at any one instant that sends an alert of a generation whose recovery is committed |
| WatchdogCrowding.PollPlansNothingIff | scripts/watchdog_mobile.py:291-338 | In a safe world, when a poll has committed and its self-check is there, no candidate list comes about iff there is no configuration or the committed outbox has more than 4096 events |
| WatchdogCrowding.CrowdStays | scripts/monitor_watchdog.py:215-218 | Over every trace whose clock does not go back, more than 4096 events of a period stay in the outbox until the period is a day old |
| WatchdogCrowding.CrowdedOutAlertIsNeverSent | scripts/watchdog_mobile.py:301-303 | In such a trace an alert observed after that, but fifteen minutes or more before the period is a day old, is never handed to the sender, by whatever run |
| WatchdogCrowding.FlappingLosesAlerts | scripts/monitor_watchdog.py:178-183 | A trace, one poll a minute, in which five capabilities come and go 820 times and then the probe fails: the P0 alert is committed and current, and no continuation of the trace ever sends it |
| RustMask.MaskKeepsLayout | scripts/architecture-docs/rust_evidence.rb:30-81 | A mask has the length of the source, keeps every CR and LF in place, and changes other bytes only to spaces |
| RustMaskLaws.MaskShowsSource | scripts/architecture-docs/rust_evidence.rb:30-81 | A byte of the mask that is no blank, or a blank with none beside it, is the source's own |
| RustMaskLaws.MaskMakesNoCharacter | scripts/architecture-docs/rust_evidence.rb:67-75 | Blanking never creates a character literal |
| RustMaskLaws.MaskHasNoQuote | scripts/architecture-docs/rust_evidence.rb:60-75 | No quotation mark survives the mask |
| RustMaskLaws.MaskIsIdempotent | scripts/architecture-docs/rust_evidence.rb:30-81 | Masking a mask succeeds and changes nothing |
| RustMaskLaws.MaskGoesLineByLine | scripts/architecture-docs/rust_evidence.rb:30-81 | If the first part masks, masking two parts joined by a newline is masking each, failure of the second included |
| RustLiterals.LiteralIsRegion | scripts/architecture-docs/rust_evidence.rb:36-72 | Every comment, string, raw string or character literal of the grammar is blanked as one region, whatever follows it |
| RustLiterals.RegionsAreExactlyLiterals | scripts/architecture-docs/rust_evidence.rb:36-72 | A prefix is blanked as one region if and only if it is such a literal, nested comments included |
| RustMaskBuffer.ScanComment | scripts/architecture-docs/rust_evidence.rb:38-54 | The depth-counting loop finds the end of a nested comment |
| RustMaskBuffer.ScanRaw | scripts/architecture-docs/rust_evidence.rb:55-59 | The search for the closing mark finds the end of a raw string |
| RustMaskBuffer.ScanString | scripts/architecture-docs/rust_evidence.rb:60-66 | The escape-skipping loop finds the end of a string |
| RustMaskBuffer.BlankRange | scripts/architecture-docs/rust_evidence.rb:73-75 | The `setbyte` loop blanks one region and leaves the rest of the buffer alone |
| RustMaskBuffer.MaskInto | scripts/architecture-docs/rust_evidence.rb:30-81 | The in-place loop over the buffer ends with the mask, or fails exactly when masking fails |
| RustBodies.BodyOpening | scripts/architecture-docs/rust_evidence.rb:179-210 | The opening is the first brace or semicolon outside all nesting, if that is a brace |
| RustBodies.SignatureIsClosed | scripts/architecture-docs/rust_evidence.rb:179-210 | Before the opening as many parentheses and brackets close as open |
| RustBodies.MatchBody | scripts/architecture-docs/rust_evidence.rb:125-132 | The counter loop stops where the specification of the matcher does |
| RustBodies.MatcherFindsTheBody | scripts/architecture-docs/rust_evidence.rb:125-132 | It stops at n iff a closing brace is there and the text before it is brace-balanced by the grammar, so there is only one such n |
| RustBodies.LinesAreTheSources | scripts/architecture-docs/rust_evidence.rb:133-143 | The line extent and line numbers found on the mask are those of the source |
| RotationLossless.VerifiedEntryIsHeld | scripts/rotate_push_log.py:45-78 | A verified archive holds, for each entry of its manifest, the bytes the entry names |
| RotationLossless.RotateDaysIsLossless | scripts/rotate_push_log.py:120-241 | Whenever a run dies, all it unlinked is held by a verified archive, existing archives are unchanged, and every other live file is untouched |
| RotationLossless.EveryHistoryIsLossless | scripts/rotate_push_log.py:81-241 | The same over every sequence of crashing runs with outside changes of live files in between |
| RotationLossless.UnlistedDayIsUntouched | scripts/rotate_push_log.py:141-148 | In every history, as long as a day has no manifest nothing of it is unlinked and its tar stays as it is |
| RotationDrain.ReadBackSucceedsIffReadable | scripts/rotate_push_log.py:45-78 | A freshly published day verifies if and only if its tar and its manifest are within their read limits |
| RotationLimits.FreshDayIsArchivedIff | scripts/rotate_push_log.py:137-203 | A day without archive files is archived by a run that lives long enough iff its files fit, its names fit the tar header as encoded bytes, and tar and manifest are within their read limits |
| RotationLimits.ReserveCanBeExceeded | scripts/rotate_push_log.py:173-175 | Two thousand files of 32769 bytes pass the checks although their tar exceeds the read limit |
| RotationLimits.CrowdedDayGetsStuck | scripts/rotate_push_log.py:167-203 | A live directory of such files: the run publishes and stops, all files stay, and every later archiving run stops at the day |
| RotationLimits.ManifestCanExceedLimit | scripts/rotate_push_log.py:167-200 | Ten thousand small files with names of control characters pass the checks and have a tar within its limit, but a manifest above the limit it is read with |
| RotationLimits.LongNamesGetStuck | scripts/rotate_push_log.py:167-203 | The same for a live directory of such files: published, refused, and refused by every later archiving run |
| RotationResume.OversizedArchiveBlocksTheDay | scripts/rotate_push_log.py:167-203 | A day that passes every check and whose tar or manifest is above its read limit is published and refused, and every later archiving run refuses it, whatever its options and the live files |
| RotationDrain.PruneIs | scripts/rotate_push_log.py:204-227 | Pruning unlinks exactly the first k listed files, all of them unless the run dies |
| RotationResume.ReadyDayFinishes | scripts/rotate_push_log.py:167-227 | A day within the limits reaches its final state in one run that lives long enough |
| RotationResume.CrashedDayResumes | scripts/rotate_push_log.py:141-227 | After a crash anywhere the day is still ready for the same final state, except exactly after a crash between tar and manifest, which blocks it |
| RotationRuns.ReportSplitsTheDays | scripts/rotate_push_log.py:120-166 | On return the eligible days split exactly into results, skipped and a final stretch of unexamined ones, the last only if the budget is spent |
| RotationRuns.FinishedDayIsSkipped | scripts/rotate_push_log.py:137-166 | A finished day is skipped and uses no budget |
| RotationRuns.RunDrainsPendingDays | scripts/rotate_push_log.py:120-241 | On a quiescent tree a run finishes the first pending days, as many as the budget allows, and reports exactly those |
| RotationRuns.DrainedDaysAreDone | scripts/rotate_push_log.py:120-241 | What a run drained the next run skips |
| RotationCrash.CrashedRunIsQuiescent | scripts/rotate_push_log.py:120-241 | The tree that a run leaves, wherever it dies, is ready for the next run iff no day has a tar without manifest |
| RotationCrash.CrashedRunResumes | scripts/rotate_push_log.py:120-241 | Then a run that is given its time ends with the same tree as one undisturbed run |
| RotationFiles.CollectBodies | scripts/rotate_push_log.py:63-75 | The member loop accepts exactly the archives the specification accepts, with the same bodies |
| RotationFiles.Directories.ValidateArchive | scripts/rotate_push_log.py:35-78 | Verification of one day's two files ends as specified |
| RotationFiles.Directories.ReadDay | scripts/rotate_push_log.py:167-180 | Reading a day lists its Markdown files with size, content and identity, within the limits |
| RotationFiles.Directories.PruneFiles | scripts/rotate_push_log.py:204-227 | The unlink loop removes what the specification removes, up to the crash |
| RotationFiles.Directories.PublishDay | scripts/rotate_push_log.py:181-200 | Tar, then manifest, both exclusively |
| RotationFiles.Directories.RotateOne | scripts/rotate_push_log.py:137-227 | One day goes through choice, archiving, verification and pruning as specified |
| RotationFiles.Directories.RotateAll | scripts/rotate_push_log.py:120-241 | The loop over days changes the directories and reports as the specification of the theorems does |
| GregorianDates.YearLength | src/calendar.rs:578-592 | A year has 366 days if and only if it is a leap year, and 365 otherwise |
| GregorianDates.YearOfIs | src/calendar.rs:578-592 | A date lies in exactly one year, the one the coverage check looks up |
| TradingCalendar.VerifiedNext | src/calendar.rs:626-638 | The forward loop is the specified walk |
| TradingCalendar.VerifiedPrev | src/calendar.rs:610-622 | The backward loop is the specified walk |
| TradingCalendar.WalkUpIsNearest | src/calendar.rs:626-638 | The walk finds a date iff it is the nearest open one, fails for coverage iff an uncovered year comes first, and for range iff the calendar ends first |
| TradingCalendar.WalkDownIsNearest | src/calendar.rs:610-622 | The same backward |
| TradingCalendar.NextAndPreviousAreInverse | src/calendar.rs:610-638 | On trading days, one is the next of the other iff the other is the previous of the one |
| TradingCalendar.ResolveRange | src/calendar.rs:479-518 | The loop answers a replay range as specified, with every error case |
| TradingCalendar.OpenDaysAreExact | src/calendar.rs:479-518 | A range is the strictly increasing list of exactly the trading days between its ends |
| TradingCalendar.RangesConcatenate | src/calendar.rs:479-518 | The answers of two adjacent ranges give that of the joint range: answered iff neither part is uncovered and not both are empty, with the dates one after the other |
| TradingCalendar.OpenDaysConcatenate | src/calendar.rs:486-505 | The trading days of adjacent spans concatenate to those of the joint span |
| TradingCalendar.QuartersTileTheYear | src/calendar.rs:530-548 | The four quarters tile every representable year, leap years included |
| TradingCalendar.QuartersReplayTheYear | src/calendar.rs:521-548 | The trading days of the four quarters together are those of the year |
| TradingCalendar.ResolveScheduled | src/calendar.rs:551-572 | A scheduled replay is the one day the specification resolves, or its error |
| TradingCalendar.ScheduledIsLatestCompleted | src/calendar.rs:551-572 | The resolved day is the greatest trading day whose 15:00 close is not after the invocation |
| TradingCalendar.ScheduledIsMonotone | src/calendar.rs:551-572 | A later invocation never resolves to an earlier day |
| TradingCalendar.RuntimeAgreesWithVerified | src/calendar.rs:821-828 | With the checked-in closures as holidays the runtime calendar gives the same completed day |
| TradingCalendar.MoreHolidaysPushOutward | src/calendar.rs:798-813 | More holidays can only move the next trading day later and the previous one earlier |
| TradingCalendar.RuntimeNextIsNear | src/calendar.rs:798-804 | For every finite holiday set the next trading day is found within a week per holiday |
| TradingCalendar.HolidaySet.AddHolidays | src/calendar.rs:642-651 | Adding dates is union with the set of holidays |
| TradingCalendar.HolidaySet.NextTradingDay | src/calendar.rs:798-804 | The runtime loop is the walk over the current holidays |
| TradingCalendar.HolidaySet.RecentTradingDays | src/calendar.rs:831-841 | The result is the last n trading days up to the date, newest first, and is missing iff there are fewer |
| AuditChain.FeedFields | scripts/paper_source_recovery.py:97-103 | The hasher is fed the domain and the length-prefixed fields |
| AuditChain.EncodeRoundTrip | scripts/paper_source_recovery.py:97-103 | Length-prefixed fields can be decoded again |
| AuditChain.EncodeIsInjective | scripts/paper_source_recovery.py:97-103 | Different field lists have different encodings |
| AuditChain.ValidateAudit | scripts/paper_source_recovery.py:135-160 | The loop accepts exactly the tables of the pinned count whose links chain from genesis to the pinned tip and whose selected row has the pinned snapshot, and returns that row |
| AuditChain.TipAuthenticatesRows | scripts/paper_source_recovery.py:135-160 | Equal tips mean equal rows, unless the two tables collide at a row |
| AuditChain.AcceptedTablesAreEqual | scripts/paper_source_recovery.py:135-160 | Two tables accepted under the same pins are the same table, unless they collide at a row |
| ArchiveScreening.AttemptsAreBounded | scripts/rotate_push_log.py:63-75 | The reads of one archive, a failing one included, are for distinct expected members; counting changes nothing else |
| ArchiveScreening.WithinBudgetNothingIsLost | scripts/rotate_push_log.py:49-52 | A member budget that is not exceeded changes no verification |
| ArchiveScreening.LoadArchives | scripts/reliability_quality_screen.py:318-349 | Leaf and member reads stay within the limit; only verified archives of the source are loaded, and all of them whole unless the screen is truncated |
| ArchiveScreening.OfferedIsHeld | scripts/reliability_quality_screen.py:333-341 | Whatever an archive contributes is held by it in the sense of the rotation theorems |
| ArchiveScreening.Group | scripts/reliability_quality_screen.py:350-356 | A path is in the group of a content iff that is the only content it was loaded with; conflicts are the paths with two |
| ArchiveScreening.JoinCommits | scripts/reliability_quality_screen.py:357-362 | A commit is joined iff a pending artifact of its attempt has the hash it names, and otherwise reported unavailable |
| ArchiveScreening.Screen | scripts/reliability_quality_screen.py:254-381 | Budget, grouping, conflicts and join of the whole screen; an untruncated screen has loaded exactly what there is; and it calls itself partial iff it was truncated or a leaf is unusable, an archive is not a verified one of the source, a path has two contents or a commit has no pending artifact |
| GitBatch.CanonicalIsDecimal | scripts/architecture-docs/catalog.rb:355-357 | A size text is accepted only if it is the canonical decimal of its value |
| GitBatch.ParseBatch | scripts/architecture-docs/catalog.rb:340-369 | The offset loop yields the dictionary of the parsed blobs, or fails when parsing fails |
| GitBatch.ParsesExactlyTiledOutputs | scripts/architecture-docs/catalog.rb:340-369 | An output is accepted with these blobs iff it is records end to end: no gap, overlap or rest, whatever the blobs contain |
| GitBatch.PrintRoundTrip | scripts/architecture-docs/catalog.rb:340-369 | Parsing a printed batch returns exactly the printed blobs |
| GitBatch.DictionaryOfDistinct | scripts/architecture-docs/catalog.rb:340-369 | With distinct object ids each id is mapped to its own blob |
| CatalogValidator.ReferenceErrors | scripts/architecture-docs/catalog.rb:213-271 | The error loops report nothing iff all relational checks hold, and, on catalogs of the right shape, iff the catalog is consistent; they report evidence as unreferenced iff nothing refers to it, and nothing else iff the other checks hold |
| CatalogValidator.SilenceMeansConsistency | scripts/architecture-docs/catalog.rb:213-271 | The checks hold iff ids and locators are distinct, kinds and producers relate symmetrically, units partition the producers, owners match units one to one, families and phases are covered, the evidence is exactly what is referred to, and the exclusions are the two fixed ones |
| CatalogValidator.ReverseComparison | scripts/architecture-docs/catalog.rb:240-242 | The sorted comparison with the reverse lookup is the symmetry of the kind relation |
| CatalogValidator.MemberComparison | scripts/architecture-docs/catalog.rb:255-257 | The sorted comparison of members says that a unit lists exactly the producers that name it |
| EvidenceClosure.StepsSuffice | scripts/architecture-docs/current_audit.rb:126-138 | Checking single dependencies is checking everything reachable |
| EvidenceClosure.ClosureErrors | scripts/architecture-docs/current_audit.rb:126-138 | The loops report nothing iff all evidence reachable from the list is on it and in the domain |
| CurrentAudit.OwnershipComparison | scripts/architecture-docs/current_audit.rb:87-90 | The sorted comparison of owners says that files and architecture groups name each other symmetrically |
| CurrentAudit.SilenceMeansAudited | scripts/architecture-docs/current_audit.rb:59-95 | The checks hold iff the catalog is consistent, every list of a kind, a producer, a relation or a group is closed within its domain, evidence is listed iff the business side or a group uses it, the domains of an entry are its uses, and files and groups agree |
| CurrentAudit.ReferenceErrors | scripts/architecture-docs/current_audit.rb:59-95 | The loops of the pass, with catalog errors about unused architecture evidence dropped, report nothing iff those checks hold, and, on documents of the right shape, iff they are audited in that sense |

## Left out

- The probe, the Bark request, the transport worker and the mobile configuration file: process and network input and output, here a report and a sender given from outside.
- File descriptors, symbolic links, owners, modes, `fsync` and directory bindings: each `write_at` is one atomic exclusive or replacing step.
- JSON texts, tar byte layout and SHA-256: values with the exact sizes of their texts where a limit is about them, sequences of members with their tar size, and collision-free contents. File names are Unicode texts, so names that are no valid UTF-8 are not modelled.
- `validate_report`, `validate_event`, `parse_config`, and the summary counters and `latest` files of the watchdog: field checks and reporting that nothing later reads.
- The order of candidates within a dispatch and of keys within a listing is a parameter, so the theorems hold for every order but say nothing about the one the code picks.
- WatchdogGenerations.StaleCallNeedsReopening: one direction only, since whether a reopened outage is actually sent also depends on the configuration, earlier receipts and the sender; that its alert is current again is exact in `StaleAlertIffReopened`.
- Database access of the paper recovery, including `recover` as a transaction and the epoch checks: an external engine.
- The declaration search of `locate_masked`, `impl_item_boundary?` and `enum_variants`: regular expressions and attribute scans over the masked bytes.
- ArchiveScreening.Screen: takes live files after their own schema and hash checks, which are field comparisons, and leaves out the order of revisions, source labels and byte counters, which nothing later reads.
- The bindings and the historical identity of the current-source audit, and its schema pass: one-step comparisons with files outside the documents.
- Calendar parsing, its authority hash, market sessions and after-hours phases: tables of constants and case splits.
- TradingCalendar.HolidaySet.NextTradingDay: the value where the calendar itself ends stands for the panic of the date library.
- `reliability_common.Calendar` and the delivery-receipt screen: the same day sets again, and SQL rows.
- Rendering, charts, scoring, brokers and everything else in the repository.
