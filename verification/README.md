# A verified model of clawhip's dispatcher, scheduler, config editor and watcher

clawhip turns events into Discord and Slack messages. This project models its five stateful mechanisms in Dafny and
proves what each of them keeps over every run:

- **Batching and delivery** (`TimerWheel`, `RoutineBatching`, `RoutineRuns`, `CiBatching`, `CiTimers`,
  `DiscordChunks`, `RoutineSend`, `DiscordSend`, `AlertDelivery`). Two batchers keep pending batches beside a timer
  wheel whose stale entries are ignored by version. The routine batcher is proved to be a plain window queue; the CI
  batcher is proved never late, and early in exactly one way, which is also shown to happen. The chunker is proved
  optimal, the retry loop and the batch sender account for every item, and the alert journal is proved at most once
  over every run with crashes.
- **Cron** (`CronSchedules`, `CronScheduling`, `CronRuns`, `CronLeases`, `CronHistories`). The schedule grammar, the
  minute cursor with catch-up and restart, the suppression lease, and whole histories with refused emissions, failed
  writes and restarts.
- **Config save and retention** (`BackupRetention`, `ConfigFiles`, `ConfigCleanups`, `ConfigSave`, `ConfigSafety`,
  `ConfigOutcomes`). The save protocol with an arbitrary environment at each hook and any system call failing: every
  change of the file system is logged, and the theorems are about the file system that the log leads to. The retention
  rule, and what cleanups leave on disk.
- **Repo binding** (`RepoBinding`, `BindingAudit`, `AfterBinding`). The editor, the drift auditor, and when the one
  satisfies the other.
- **Discord watch** (`DiscordWatch`, `WatchRuns`, `IntentLog`, `IntentRuns`). Backlog counters, cooldowns, and the
  log-before-state persistence, with failed writes and crashes.

Where the source changes state, a class has its fields and a method follows its steps; the method's contract ties the
new state to a specification function of the old one, and the lemmas are about that function over whole runs.
`Text` and `Sorting` hold what is used of the standard library.

Check everything with `dafny verify dfyconfig.toml`.

## What was found

Each of these is a member of the project that exhibits the case, beside the exact condition under which the intended
property holds.

- The timer wheel does not return an entry that was scheduled behind its clock, although it is due
  (`TimerWheel.PastEntryIsLate`; it leaves exactly when `TimerWheel.PastEntryLeavesIff` says). The batchers never
  schedule such entries, whatever the clock does.
- After a completion flush a new CI batch of the same key can be flushed before its own time
  (`CiTimers.CompletionFlushesNextBatchEarly`). The taint is not limited to the next batch: it lasts until the
  wheel is without any entry of the key.
- An interrupted alert attempt can settle a destination that was never reached
  (`AlertDelivery.SettledWithoutDelivery`), some for good (`AlertDelivery.LostForGoodIff`), and a dispatch whose journal was cleared by the acceptance timeout can
  deliver a second time (`AlertDelivery.AtMostOnceIffJournaled`), even where the ledger let it pass because the journal
  was still there (`AlertDelivery.ClearedBetweenLookups`).
- A clock that steps back and then moves on makes the cron scheduler handle minutes again
  (`CronHistories.InOrderIffClockDoesNotTurn`). Under a steady clock a refused emission makes the next call handle
  pairs again, and a restart after a lost or garbled state write makes it repeat or skip some; nothing else does
  (`CronHistories.HandledOnceInOrderIff`).
- A cron field that lists every value is not the same as `*` (`CronSchedules.FullListIsNotStar`).
- The save compares the active file by identity only, so an edit in place between read and rename is overwritten
  without a backup (`ConfigOutcomes.EditInPlaceIsLost`). A parent directory that is moved meanwhile is not noticed by
  the commit: the config is reported as saved, with an incomplete cleanup, while its path shows the old bytes
  (`ConfigOutcomes.MovedParentIsReportedSaved`).
- A file beside the config whose name looks like a root backup with an accented label makes every save panic, after its
  rename, because the name is cut by bytes (`BackupRetention.AccentedLabelPanics`, `BackupRetention.PanicsIff`).
- A repo binding without a channel name never passes the drift audit (`AfterBinding.NamelessIsNeverInStep`), and an
  accepted one can still be reported as a conflict with a manual monitor (`AfterBinding.AcceptedWithManualConflict`).
- An append to the intent log that stops before its newline makes the next append merge two lines, and both nudges
  are lost from the log while the saved state records them (`IntentLog.BothNudgesLost`). A nudge whose line was written
  but not synced is recorded by a replay, and a crash can still take it from the log (`IntentRuns.SafeAfterIff`); so can
  a nudge in a log whose directory could not be synced when it was made (`IntentRuns.LaterAppendDoesNotEnter`).

## Model

| member | source | states |
|---|---|---|
| TimerWheel.Wheel.constructor | src/core/timer_wheel.rs:18-26 | A new wheel is empty, its rows have 60, 60, 24 and 365 slots, and its clock is at the given time. |
| TimerWheel.Wheel.Schedule | src/core/timer_wheel.rs:28-43 | The wheel then holds exactly one entry more, filed in the slot its own time selects; nothing else moves, the clock included. |
| TimerWheel.SweepReaches | src/core/timer_wheel.rs:55-117 | Every slot of a row whose unit lies between the old clock and the new time is visited by that row's sweep, however many times the row wraps around. |
| TimerWheel.Wheel.DrainSlot | src/core/timer_wheel.rs:57-69 | Taking one slot returns exactly its due entries; the others go back, possibly to a finer row, and no entry is lost or doubled. |
| TimerWheel.Wheel.DrainRow | src/core/timer_wheel.rs:55-117 | After one of the four drains nothing due is left in the swept slots, only due entries have left, and what left plus what stays is what there was. |
| TimerWheel.Wheel.Tick | src/core/timer_wheel.rs:45-53 | What a tick returns plus what the wheel still holds is what it held; everything returned is due; swept slots hold nothing due and other slots keep what they had, so a due entry leaves iff its slot is swept, and one that stays was behind the clock already. So if no entry is in the past the tick returns exactly the entries with `deliver_at <= now`. |
| TimerWheel.PastEntryLeavesIff | src/core/timer_wheel.rs:71-117 | An entry scheduled behind the clock is swept by a tick iff the clock advances by at least the distance to the next second that is the same modulo 60: the exact condition under which it leaves. |
| TimerWheel.PastEntryIsLate | src/core/timer_wheel.rs:28-53 | A run: an entry for time 0 is scheduled at 100 seconds and is still held, and not returned, after the tick at 101 seconds. |
| RoutineBatching.ArmedAfterObserve | src/dispatch.rs:886-906 | Queueing a delivery under a new version keeps the invariant that each batch has its latest timer in the wheel and that every timer carries its own batch's time. |
| RoutineBatching.ArmedAfterTick | src/dispatch.rs:908-925 | After a tick the invariant holds of the batches that are not due, and the timers that fired are those of due batches, the latest of each among them. |
| RoutineBatching.SplitByTime | src/dispatch.rs:908-925 | Once every fired timer was looked at, ignoring stale versions, what was flushed is exactly what was due by time, and what is left exactly what was not. |
| RoutineBatching.RoutineDeliveryBatcher.constructor | src/dispatch.rs:877-884 | A new batcher is empty and valid. |
| RoutineBatching.RoutineDeliveryBatcher.Observe | src/dispatch.rs:886-906 | The pending map changes exactly as a plain window queue: the delivery joins its key's window or opens one of the configured length. |
| RoutineBatching.RoutineDeliveryBatcher.FlushDue | src/dispatch.rs:908-931 | Versions and wheel notwithstanding, the flushed batches are exactly the windows whose time has come, each once with all its items in order, and the rest stay. |
| RoutineBatching.RoutineDeliveryBatcher.Drive | src/dispatch.rs:191-270 | Over a whole history of ticks and arrivals, under any clock, the batcher flushes turn by turn what the plain window queue flushes. |
| RoutineRuns.JoinedAllKey | src/dispatch.rs:886-906 | Arrivals are appended to their own key's window only, which keeps the time at which it opened. |
| RoutineRuns.TurnKey | src/dispatch.rs:306-316 | In one turn a window that is due leaves whole and one that is not stays whole; arrivals then join or open a window. |
| RoutineRuns.EachDeliveryFlushedOnceInOrder | src/dispatch.rs:886-931 | For every key and every run: what was flushed, followed by what still waits, is what waited at the start followed by what arrived. Nothing is lost, doubled or reordered. |
| RoutineRuns.FlushedAtFirstTurnAfterWindow | src/dispatch.rs:886-925 | Deliveries that open a window wait together with all that follow until the first turn at or after its end, and leave in that turn: never earlier, never later. |
| CiBatching.FoldSummarizesFirst | src/dispatch.rs:950-1040 | The batch opened by an event is the summary of that event alone. |
| CiBatching.FoldSummarizesNext | src/dispatch.rs:986-1040 | Folding one more event into the summary of some events gives the summary of all of them: the last write per workflow, the largest job count seen, the last present value of each other field. |
| CiBatching.OutcomesAreDisjoint | src/dispatch.rs:1089-1101 | No job is counted under two of passed, skipped, failed and cancelled, so the four counts add up to at most the number of jobs. |
| CiBatching.CountedIffPresent | src/dispatch.rs:1089-1101 | A count over the listed jobs is positive iff the batch has such a job. |
| CiBatching.ReportIsConsistent | src/dispatch.rs:1083-1149 | The event's counts, total and kind agree with the batch: the kind is the worst outcome present, the total is at least the number of jobs, and a completion flush lists all of its jobs and is never `github.ci-started`. |
| CiBatching.InsertAscending | src/dispatch.rs:1085-1086 | Inserting a job by its workflow keeps the list strictly increasing. |
| CiBatching.SortedJobs | src/dispatch.rs:1084-1086 | The listed jobs are the batch's jobs, each once, in strictly increasing order of workflow. |
| CiTimers.ArmedAfterFold | src/dispatch.rs:942-1051 | Folding an event in keeps the timer invariant: each batch has its latest timer, and any other timer is on its batch's schedule or belongs to a tainted key. |
| CiTimers.ArmedAfterCompletion | src/dispatch.rs:1053-1059 | A completion flush taints the key: its timers stay behind in the wheel. |
| CiTimers.ArmedAfterTick | src/dispatch.rs:1064-1081 | After a tick no batch is late, a batch that left before its own time has a tainted key, and a key is cleared when its last timer has left. |
| CiTimers.GitHubCiBatcher.constructor | src/dispatch.rs:933-940 | A new batcher is empty, valid and untainted. |
| CiTimers.GitHubCiBatcher.FoldIn | src/dispatch.rs:942-1051 | The event is in its key's batch, which is the summary of the events since it opened and keeps the time it opened with; other batches are untouched. |
| CiTimers.GitHubCiBatcher.Observe | src/dispatch.rs:942-1062 | A batch that the event completes leaves at once, as the report of exactly the events since it opened, and its key is tainted; otherwise nothing leaves. |
| CiTimers.GitHubCiBatcher.FlushBatch | src/dispatch.rs:1083-1149 | The batch is removed and its event reports it; other batches stay. |
| CiTimers.GitHubCiBatcher.FlushCurrent | src/dispatch.rs:1064-1081 | Exactly the batches whose current version is named by a fired entry leave, one report each; stale versions are passed over. |
| CiTimers.GitHubCiBatcher.FlushDue | src/dispatch.rs:1064-1081 | No pending batch has `deliver_at <= now` afterwards; a batch leaves before its own time only under a key whose earlier batch completed early and left entries that are not yet drained. |
| CiTimers.FirstEventHoldsSecondCompletes | src/dispatch.rs:942-1062 | The two-event run of the demonstration below: the first event leaves the batch open, the second completes it. |
| CiTimers.ReopenAfterCompletion | src/dispatch.rs:942-1059 | A run of three events on any empty batcher with a window of one second, after which a second batch of the key waits for 1500 ms beside the two entries for 1000 ms that the first one left, one of which names its version. |
| CiTimers.CompletionFlushesNextBatchEarly | src/dispatch.rs:1053-1081 | After that run the tick at 1000 ms flushes the second batch, as the report of its one event, half a second before its own time. |
| DiscordChunks.Cap | src/router.rs:731-741 | The cap of any text is at most 2000 scalars, and a text within the limit is its own cap. |
| DiscordChunks.SubrangeFits | src/dispatch.rs:1217-1309 | Any part of a range of events that fits one message fits one message. |
| DiscordChunks.GreedyStaysAhead | src/dispatch.rs:1217-1309 | Chunk by chunk the greedy split has consumed at least as many events as any acceptable split. |
| DiscordChunks.GreedyIsOptimal | src/dispatch.rs:1217-1309 | No order-preserving split into single events and fitting ranges uses fewer messages. |
| DiscordChunks.CollectGroups | src/dispatch.rs:1231-1295 | The forward pass ends with the index groups of a greedy split: consecutive, covering all events, an oversized event alone and capped. |
| DiscordChunks.SendsEveryEvent | src/dispatch.rs:1297-1308 | Over any split the event counts add up to the number of events and the kinds, put one after the other, are those of the events in order. |
| DiscordChunks.SplitIntoChunks | src/dispatch.rs:1217-1309 | The messages announce every event once and in order, each is at most 2000 scalars and is the exact newline join of its range or the cap of one oversized event, and no acceptable split has fewer. |
| AlertDelivery.CallsNeedDurableClaim | src/dispatch.rs:464-545 | A sink is called only for a destination that was absent or failed, and only once its claim is on disk. |
| AlertDelivery.SendKeepsSafe | src/dispatch.rs:464-545 | One attempt, with any fault or crash in it, keeps the invariant that a destination with an accepted call is settled in memory and on disk and gets no further call. |
| AlertDelivery.DispatchKeepsSafe | src/dispatch.rs:365-424 | So does a dispatch over any list of destinations, wherever it is cut short. |
| AlertDelivery.AtMostOnceOverEveryRun | src/dispatch.rs:365-545 | Over every run of dispatches, retries, failed saves, crashes, restarts and other saves of the lane store no destination has two accepted sink calls, and an accepted call is the last its destination gets. |
| AlertDelivery.SuccessSettlesEveryDestination | src/dispatch.rs:365-424 | A dispatch that returns true had at least one destination and has every one of them claimed or delivered. |
| AlertDelivery.SettledWithoutDelivery | src/gjc_lane.rs:2151-2213 | From any state in which a destination is open: exactly the attempts with these faults leave it settled in memory, and exactly those with these leave it settled on disk, that is after a restart, without an accepted call. |
| AlertDelivery.SettledForGood | src/dispatch.rs:464-545 | A destination settled both in memory and on disk gets no further call in any run with crashes and restarts. |
| AlertDelivery.CanBeReachedIff | src/dispatch.rs:365-545 | Some run still delivers to a destination iff it is open in memory or, after a restart, on disk. |
| AlertDelivery.LostForGoodIff | src/dispatch.rs:464-545 | An attempt at an open destination puts it out of reach of every later run, without an accepted call, iff it leaves a claim both in memory and on disk. |
| AlertDelivery.LostAfterSaveIff | src/gjc_lane.rs:2214-2230 | Once the lane store is saved for any other reason, it is out of reach iff the attempt left a claim in memory; after a restart, iff it left one on disk. |
| AlertDelivery.JournaledRunIsSafe | src/dispatch.rs:464-545 | As long as every dispatch that takes place has the journal when it sends, with restarts and other saves in between, the invariant of the journaled protocol holds. |
| AlertDelivery.LedgerGuards | src/dispatch.rs:199-214 | With a ledger that does not forget, a dispatch takes place after another only as a duplicate that has the journal at its gate. |
| AlertDelivery.TwiceAccepts | src/dispatch.rs:464-545 | Two dispatches that take place, one of them without the journal when it sends, are both accepted in some environment. |
| AlertDelivery.AtMostOnceIff | src/dispatch.rs:199-291 | Whatever the ledger has said of each event: a destination is delivered to at most once, with any faults, restarts and saves, iff of any two dispatches that take place both have the journal when they send. |
| AlertDelivery.AtMostOnceIffJournaled | src/gjc_lane.rs:3461-3480 | Whatever the environment and the ledger do, at most once iff of any two dispatches both have the journal when they send; with the ledger, of any two of which the second has it at its gate. The journal is looked up at the gate and again at the send. |
| AlertDelivery.ClearedBetweenLookups | src/dispatch.rs:199-214 | With the ledger, and the journal there at every gate, the promise is still broken if the acceptance timeout clears the journal before the second dispatch sends. |
| DiscordSend.DiscordClient.Send | src/discord.rs:207-333 | A send ends at the first reply that is not a retry, or at the third attempt; accepted without a dead letter, or failed with exactly one that carries the message and the attempt count; a refused circuit posts nothing; other targets' circuits are untouched; the statement after the loop is not reached. |
| DiscordSend.DiscordClient.RecordDlq | src/discord.rs:823-860 | One entry is appended to the dead-letter queue. |
| DiscordSend.ThreeFailuresOpen | src/core/circuit_breaker.rs:35-90 | Three failures from a fresh circuit open it, and it then refuses exactly until its cooldown is over. |
| DiscordSend.OpenStaysOpen | src/core/circuit_breaker.rs:35-90 | Without an accepted reply an open circuit stays open and one on probation does not close. |
| RoutineSend.RenderAll | src/dispatch.rs:571-597 | Every item is rendered or is a render failure, in order, and in exactly one of the two lists. |
| RoutineSend.SendChunk | src/dispatch.rs:619-644 | A chunk is accepted without a dead letter or leaves exactly one, with its text. |
| RoutineSend.LostOneMore | src/dispatch.rs:619-644 | The dead letters of a batch are the texts of its unaccepted chunks, in order. |
| RoutineSend.EventsOneMore | src/dispatch.rs:619-644 | The events of accepted and of unaccepted chunks are counted separately and without overlap. |
| RoutineSend.SendBatch | src/dispatch.rs:547-644 | With the sink present every item of a batch of two or more is in exactly one chunk or is one render failure, every chunk is sent once, sent plus lost plus failed is the number of items, and the new dead letters are exactly the unaccepted chunks. |
| CronSchedules.ParsePart | src/cron.rs:707-739 | An accepted part is a stride with a step from 1 to 255 whose bounds lie in the field's range, in order. |
| CronSchedules.VisitsNext | src/cron.rs:741-748 | The values of a stride from some point on are that point and the values from the next one on. |
| CronSchedules.Walk | src/cron.rs:741-748 | The stepping loop in `u8` arithmetic terminates for every step without overflow and adds exactly `start + k*step` up to `end`, with 7 folded to 0 for weekdays. |
| CronSchedules.ParseField | src/cron.rs:693-759 | A field is accepted iff it is `*` or each of its list parts is well-formed; an accepted list denotes exactly the union of its parts, and the check for an empty result never fires. |
| CronSchedules.FieldStaysInRange | src/cron.rs:693-764 | Every value of an accepted field is inside the field's range. |
| CronSchedules.OneReading | src/cron.rs:693-739 | A field of list parts is read in one way only: two lists of strides that its parts parse to are the same. |
| CronSchedules.ParseOne | src/cron.rs:652-661 | One of the five fields is accepted iff it is a field of its range, and then admits exactly the values that its text admits. |
| CronSchedules.ParseSchedule | src/cron.rs:648-683 | A text is accepted iff it has five white-space separated words that are fields of their ranges; the schedule then matches a moment exactly when the words say so, including the either-day rule between day and weekday. |
| CronSchedules.FullListIsNotStar | src/cron.rs:666-683 | A list of every value and `*` denote the same values and yet give different schedules beside a restricted weekday. |
| CronScheduling.ExpiryIsAtMostExact | src/cron.rs:237-238 | The wrapping expiry is never later than the exact one, and is the exact one if that fits. |
| CronScheduling.CronScheduler.constructor | src/cron.rs:145-174 | A start or restart takes cursor, fingerprints and leases from the state file. |
| CronScheduling.CronScheduler.PersistState | src/cron.rs:256-269 | The state file then gives the current state, or, if the write failed, what it gave before or nothing. |
| CronScheduling.CronScheduler.RunPair | src/cron.rs:195-248 | One job at one minute: emitted and leased, withheld, or not matching, as the specification decides; without room for its event nothing changes. |
| CronScheduling.CronScheduler.RunNext | src/cron.rs:193-249 | The account of what was processed and emitted grows by exactly this pair. |
| CronScheduling.CronScheduler.EmitDue | src/cron.rs:176-254 | A call processes every minute after the cursor up to now with every job in order and moves cursor and file; if the channel refuses an event it stops there, with cursor and file unmoved and the earlier pairs done in memory; if only the file cannot be written everything is done in memory. |
| CronScheduling.PairAddsItsDecisions | src/cron.rs:195-248 | A pair adds its own decision to those before it and depends on them only through the state. |
| CronScheduling.ProcessedKeepsCursor | src/cron.rs:251-251 | Only the end of a call moves the cursor. |
| CronRuns.CursorIsIrrelevant | src/cron.rs:195-248 | No decision, fingerprint or lease depends on the cursor. |
| CronRuns.TwoTicksAreOne | src/cron.rs:176-254 | Two calls at t1 <= t2 decide and leave exactly what one call at t2 does. |
| CronRuns.CatchUpComposes | src/cron.rs:176-254 | From any cursor and for nondecreasing times, any way of splitting a catch-up into calls gives the decisions, cursor, fingerprints and leases of one call at the last time. |
| CronRuns.HandledUpToPeak | src/cron.rs:186-193 | Unless the clock rises after having fallen, the minutes handled are each minute from the first tick to the highest, once and in order; `CronHistories.HandlesTheMinutes` ties these minutes to the scheduler. |
| CronRuns.FirstRiseRepeats | src/cron.rs:186-251 | A clock that rises after having fallen makes some minute be handled out of order or again. |
| CronRuns.InOrderIffNoStepBackThenOn | src/cron.rs:186-251 | Minutes are handled once each and in order iff the clock never moves on after stepping back, since a call moves the cursor to its own time even backwards. |
| CronHistories.CallGoesSoFar | src/cron.rs:176-254 | What one call promises fixes how far it got: as far as the channel took its events, and to the end iff it reports success. |
| CronHistories.Drive | src/cron.rs:145-269 | The scheduler over a whole history of calls, refused emissions, failed or garbled state writes and restarts from the state file is, in memory, on disk and in what it emitted, the history the specification describes. |
| CronHistories.DueIsRange | src/cron.rs:186-193 | What a call has due is a stretch of consecutive minute and job pairs, from the minute after the cursor to now. |
| CronHistories.HandledOnceInOrderIff | src/cron.rs:176-269 | Under a clock that does not step back, whatever is refused, lost or restarted: every pair of minute and job is handled once and in order, none left out from the cursor of the state file, or from the first call if it has none, iff no call that handles something follows a call that was cut short, or a restart that read back another cursor than the one in memory; except where there is no cursor and the call comes at the very minute at which the handling stopped. |
| CronHistories.ReadsBackIffWritten | src/cron.rs:251-269 | After a call that moved the cursor, a restart reads it back iff the state file was written: not if the write was lost, and not if it was garbled. |
| CronHistories.RestartsAreInvisible | src/cron.rs:145-269 | If nothing is refused or lost, restarts anywhere make no difference to memory, file and decisions. |
| CronHistories.HistoryCatchesUp | src/cron.rs:145-254 | However a catch-up is split into calls, with restarts from the state file anywhere in between, it decides and leaves what one call at the last time does. |
| CronHistories.HandlesTheMinutes | src/cron.rs:176-254 | The pairs that a history without losses handles are those of the minutes of `CronRuns.Handled`, each with every job in order, and its cursor is its last call's minute. |
| CronHistories.InOrderIffClockDoesNotTurn | src/cron.rs:176-254 | From a first start, under any clock and with restarts: the scheduler handles every pair at most once and in order iff the clock never moves on after stepping back. |
| CronHistories.LoyalHistoryIsProcessed | src/cron.rs:145-254 | A history whose restarts read back what was in memory, with refused calls in it or not, decides what processing its pairs one after the other decides. |
| CronHistories.HistorySuppressionIsSound | src/cron.rs:196-246 | Over every such history each withheld pair repeats an earlier emission of its job, with the same fingerprint and key under a validated zero backlog, less than the TTL before, and every matching pair of the job in between was withheld too. |
| CronLeases.LeasesAreGrounded | src/cron.rs:229-246 | A lease is always the one that its job's latest emission wrote, together with that emission's fingerprint. |
| CronLeases.SuppressionIsSound | src/cron.rs:196-246 | From a start without leases, every withheld minute has a latest earlier emission with the same fingerprint and key under a validated zero backlog, less than the TTL before, and every matching minute in between was withheld too. |
| CronLeases.SpacedIsGreedy | src/cron.rs:581-600 | The greedy TTL-spaced subsequence: taken minutes are a TTL apart and every other one is within the TTL of a taken one. |
| CronLeases.SteadyStep | src/cron.rs:202-247 | Under an unchanging receipt a matching minute is emitted iff the TTL has passed since the last emission, and a withheld one leaves the lease as it was. |
| CronLeases.SteadyReceiptIsSpaced | src/cron.rs:202-247 | Under one unchanging zero-backlog receipt the emitted minutes are exactly the greedy TTL-spaced subsequence of the matching minutes. |
| BackupRetention.SplitOnceAt | src/config.rs:3818-3829 | The first separator found is the one that was written after a separator-free prefix. |
| BackupRetention.SnapshotNameParses | src/config.rs:3733-3747 | The name of a snapshot is recognised as a managed backup of its file, dated to the second it was taken: naming and parsing are a round trip. |
| BackupRetention.SnapshotIsNotLegacy | src/config.rs:3859-3888 | The name of a snapshot is none of the older backup names, whatever the config is called, and does not panic. |
| BackupRetention.PanicsIff | src/config.rs:3859-3879 | Reading a name panics iff it begins as a root backup and its suffix reaches one of the three formats, none before having fitted, whose last 16, 14 or 8 bytes begin inside a character. |
| BackupRetention.CutsApartIff | src/config.rs:3873-3873 | That is the case iff the suffix has at least so many bytes and no place in it has exactly so many after it. |
| BackupRetention.AsciiDoesNotPanic | src/config.rs:3859-3888 | A name in ASCII does not panic. |
| BackupRetention.AccentedLabelPanics | src/config.rs:3873-3873 | For any config and whatever the formats accept, a root backup whose label begins with a letter outside ASCII and goes on for fifteen ASCII characters panics. |
| Text.CutBeforeIff | src/config.rs:3873-3873 | Cutting before the last n bytes of a text gives the place after which there are n bytes, if there is one. |
| BackupRetention.BackupsAreNotTheConfig | src/config.rs:3818-3888 | No name that parses as a backup, or panics, is the name of the config. |
| BackupRetention.OlderOrder | src/config.rs:4212-4223 | The order by time, origin and name is total and transitive. |
| BackupRetention.DoomedIsGuard | src/config.rs:4225-4228 | The loop's guard holds on a prefix of the sorted list and nowhere else. |
| BackupRetention.KeepsNewestAndYoung | src/config.rs:4209-4229 | A backup is left alone iff it is among the ten newest or younger than thirty days; at least min(10, n) are never attempted. |
| BackupRetention.DirectoryOrderIsIrrelevant | src/config.rs:4212-4224 | The order in which the directories list their entries changes nothing. |
| BackupRetention.DoomedOfSurvivors | src/config.rs:4227-4244 | If only doomed backups are gone, the doomed among the rest are exactly the doomed that are not gone. |
| BackupRetention.SecondRunRetriesFailures | src/config.rs:4209-4250 | A second run at the same time, over what the first has left, attempts exactly the candidates that the first failed to delete. |
| ConfigFileSystem.CommitReplays | src/config.rs:3448-3490 | Replaying the calls of a commit: its rename acts on the file system that the hook left, and leaves that one with the temporary file's entry moved over the config's. |
| ConfigFileSystem.SnapshotReplays | src/config.rs:3748-3778 | Replaying the calls of a snapshot: after the hook, one new entry that holds exactly the bytes. |
| ConfigFileSystem.StillThere | src/config.rs:3983-4149 | While only candidates before it are gone, a candidate still lies where it was listed, as the file it was classified as. |
| ConfigFileSystem.ConfigFiles.Do | src/config.rs:2977-2991 | Every call that changes the file system is performed and logged; the file system stays what the log makes of the initial one. |
| ConfigFileSystem.ConfigFiles.Hook | src/config.rs:1407-1415 | At a hook the environment changes the file system in any way, which is logged too, and may abort. |
| ConfigFileSystem.ConfigFiles.WriteNew | src/config.rs:3448-3468 | A new file is made and written; whatever fails, no entry but its own is touched, and it is removed again if that works. |
| ConfigFileSystem.ConfigFiles.RevalidateParent | src/config.rs:3587-3602 | Succeeds iff the call works and the path leads to the opened directory and is no symbolic link. |
| ConfigFileSystem.ConfigFiles.OpenParent | src/config.rs:3575-3585 | The directory the path leads to, made if it was missing, which is the only call; never through a symbolic link. |
| ConfigFileSystem.ConfigFiles.ReadActive | src/config.rs:3604-3634 | Absent, or identity and bytes of the plain file at the path; a symbolic link or directory is an error. |
| ConfigFileSystem.ConfigFiles.ManagedDir | src/config.rs:3688-3704 | The backup directory, made only on request, which is the only call; an existing one is not touched, and anything else of that name is an error. |
| ConfigFileSystem.ConfigFiles.CreateSnapshot | src/config.rs:3733-3778 | Success means that the name was free after the hook and was then created and written with exactly the bytes; failure touches nothing but that name. With no system call failing it succeeds iff the directory is in place and the name free. |
| ConfigFileSystem.ConfigFiles.RevalidateActive | src/config.rs:3636-3662 | Succeeds only if the path still shows the file that was read, by identity, or still nothing. |
| ConfigFileSystem.ConfigFiles.CheckTemp | src/config.rs:3456-3489 | With no system call failing the check passes iff, after the hook, the active file and the temporary file are still the same files; if it does not pass the temporary file is removed. |
| ConfigFileSystem.ConfigFiles.PrepareCommit | src/config.rs:3431-3489 | Success means exactly the calls before the rename, in the file system the hook left; failure touches nothing but the temporary file and, with no system call failing, leaves none. |
| ConfigFileSystem.ConfigFiles.Commit | src/config.rs:3416-3510 | Either exactly the calls of a commit, whose rename acts on the file system that the hook left while the path there shows what was read, and a report that does not deny it; or nothing but the temporary file is touched, and an early error. With no system call failing it succeeds iff the identities still agree. |
| ConfigFileSystem.ConfigFiles.Collect | src/config.rs:3916-3943 | One directory's candidates are exactly its classified entries, each once, in whatever order the listing comes; it panics iff some name does. |
| ConfigFileSystem.ConfigFiles.CollectAll | src/config.rs:3908-3980 | The candidates are exactly the plain, singly linked, unprotected entries of both directories whose names parse as backups; with no system call failing and the directories in place, the only other outcome is a panic, iff some name in the config's directory panics. |
| ConfigFileSystem.ConfigFiles.DeleteVerified | src/config.rs:3983-4149 | The only call is to unlink the candidate's entry, made while that is the very file that was classified, plain, with one link and unprotected, after each of the hooks; alone and without failures it is made whenever it can be. |
| ConfigFileSystem.ConfigFiles.PruneOne | src/config.rs:4229-4243 | The hook before a deletion and the deletion make no other call, and alone change no other entry. |
| ConfigFileSystem.ConfigFiles.Prune | src/config.rs:4224-4249 | The loop's calls are deletions of a prefix of the doomed candidates, of all of them unless a hook or a deletion fails, and the summary counts them; alone, the entries it deleted are gone and every other entry of every directory is as it was; without failures either, those are all the doomed. |
| ConfigFileSystem.ConfigFiles.Cleanup | src/config.rs:4185-4250 | Whatever the environment does the calls are deletions of doomed candidates as the files they were classified as; alone, exactly the deleted entries are gone; alone and without failures, exactly those of all the doomed, unless a name in the config's directory panics, which is iff the cleanup does, before it has done anything. |
| ConfigCleanups.LeavesNewestAndYoung | src/config.rs:4209-4250 | A complete cleanup leaves on disk, of the candidates in order of age, exactly the ten newest and those younger than thirty days, and every entry that is not a candidate's as it was. |
| ConfigCleanups.ListsTheOthers | src/config.rs:3908-3980 | What is listed after some of the candidates were deleted are exactly the others. |
| ConfigCleanups.RetriesWhatIsLeft | src/config.rs:4209-4250 | On two file systems that differ by a cleanup's deletions, the second cleanup's doomed are exactly the first's that were not deleted. |
| ConfigCleanups.CleanUpTwice | src/config.rs:4185-4250 | Two cleanups at the same time: whatever failed in the first, the second goes for exactly what it has left of the doomed; without failures that is nothing, and the second changes nothing; and if a name panics, both do and delete nothing. |
| ConfigSave.BackUp | src/config.rs:1470-1483 | Before a rename: nothing if there was no file; otherwise at most the making of the managed directory and calls on the new backup, ending, on success, in a backup with exactly the bytes that were read under a name that was free. With no system call failing it succeeds iff it can. |
| ConfigSave.CleanUp | src/config.rs:1450-1467 | A cleanup of a save: what it listed, attempted and deleted, tied to the file system before and after it. |
| ConfigSave.LeaveAsIs | src/config.rs:1438-1468 | With identical bytes only the cleanup is left, which spares the active file. |
| ConfigSave.Overwrite | src/config.rs:1485-1527 | The commit, and the cleanup after a successful one; any other ends the save. |
| ConfigSave.Replace | src/config.rs:1470-1527 | Backup, then commit, then cleanup, each only after the one before has succeeded; with no system call failing the config is replaced iff it can be, by exactly these calls. |
| ConfigSave.FinishSaved | src/config.rs:1495-1527 | The cleanup after a rename spares the file that was read and the one now in place; if the path has come to lead elsewhere, there is none, and the report says that the cleanup is incomplete. |
| ConfigSave.ReadFirst | src/config.rs:1428-1436 | The directory is opened, looked at again, and the config read in it; with no system call failing that succeeds iff it is a plain directory and the config absent or a file. |
| ConfigSave.Save | src/config.rs:1407-1527 | For every environment and failure the save follows its course: every change of the file system is an act of the environment or a logged call, the calls are those of opening, backup, commit and cleanup in this order, and the report says how far it came. With no system call failing it replaces the config iff it can. The rows below say what this means for the file system. |
| ConfigSafety.EveryCallBelongs | src/config.rs:1407-1527 | Each call of a save is of the kind that its part allows, on the entry that this part may touch. |
| ConfigSafety.OnlyTheRenameChangesConfig | src/config.rs:1407-1527 | The config is renamed over exactly once if the report says that it was, or may have been, written, and never otherwise; no other step of the save changes what the config path shows. |
| ConfigSafety.QuietUnsavedKeepsConfig | src/config.rs:1407-1527 | Alone, a save that is not reported as written leaves the config path showing what it showed. |
| ConfigSafety.RenamesOverWhatWasRead | src/config.rs:3636-3662 | The rename is made only while the path shows the file, by identity, that was there when the save began, or still nothing. |
| ConfigSafety.BackedUpBeforeRename | src/config.rs:1470-1483 | Before an existing config is renamed over, the backup's name was free, and then held exactly the bytes that the config had when the save began. |
| ConfigSafety.CallSparesBackup | src/config.rs:1485-1527 | No later step of the save, the cleanup included, touches that backup. |
| ConfigSafety.QuietKeepsBackup | src/config.rs:1485-1527 | Alone, the backup is there, unchanged, when the save ends. |
| ConfigSafety.DeletesOnlyOldBackups | src/config.rs:4209-4250 | A save deletes only what parses as a backup of this config older than thirty days and is, at that moment, the plain, singly linked file that was classified; never the file that was the config when it began; and only after the config was written or found current. |
| ConfigSafety.CurrentOnlyDeletes | src/config.rs:1438-1468 | If the config already has the bytes, deletions are the only calls of the save. |
| ConfigOutcomes.QuietBacksUp | src/config.rs:1470-1483 | Alone, a backup succeeds iff its name is free, and changes nothing else that the save looks at. |
| ConfigOutcomes.QuietCanSaveIff | src/config.rs:1407-1527 | Alone and without failures, a save replaces the config iff the directory is missing, or it is a plain directory in which the config is absent or a file with other bytes, the temporary name is free, and the backup can be made under a free name. |
| ConfigOutcomes.QuietWrittenShowsNew | src/config.rs:1407-1527 | Alone, a save that is reported as written leaves exactly the new bytes at the config path, whatever failed on the way, and the bytes it replaced in their backup. |
| ConfigOutcomes.QuietTripsIff | src/config.rs:3908-3930 | Alone, the cleanup of a written save comes upon a name that panics iff the config's directory held one when the save began. |
| ConfigOutcomes.QuietSaveSucceedsIff | src/config.rs:1407-1527 | Alone and without failures, success is reported iff the file system was usable and no name in the config's directory panics, and then every doomed backup was deleted; if one does, the save panics after its rename; a config that is already current is reported so, or panics, in the same way. |
| ConfigOutcomes.SaveReplays | src/config.rs:1407-1527 | The run of a save that replaces the config ends in its rename, which acts on the file system that the hook left. |
| ConfigOutcomes.ReplacedIsBackedUpIffUnedited | src/config.rs:3636-3662 | Over the whole run of a save, from the file system it began in: the file that the rename replaces has the bytes that were written to the backup iff the environment has left under that name the bytes that were there when the save began. |
| ConfigOutcomes.RenameReachesPathIffBound | src/config.rs:3490-3496 | Over the whole run, from the file system it began in: the config path shows the saved file iff the environment has left it leading to the directory that was opened; otherwise it goes on showing what it showed. |
| ConfigOutcomes.InterruptedSaves | src/config.rs:1407-1527 | A save goes through whatever another process does before the rename, as long as both files keep their identities there. |
| ConfigOutcomes.EditInPlaceIsLost | src/config.rs:3464-3496 | A process that rewrites the config in place at the hook: the whole save goes through, backup included, and afterwards no file anywhere has the edit. |
| ConfigOutcomes.MovedParentIsReportedSaved | src/config.rs:1485-1500 | A process that makes the parent path lead to another directory at the hook: the commit goes through and the path still shows the old bytes; the save then notices the move, and reports that the config was saved and the cleanup is incomplete. |
| RepoBinding.WhereOnly | src/config.rs:2355-2361 | Collecting matching indices gives a single index iff exactly that one matches. |
| RepoBinding.AtMostOneIff | src/config.rs:2355-2367 | At most one matching index is collected iff no two entries match. |
| RepoBinding.Request | src/config.rs:2345-2351 | A request is rejected iff its repository, channel or checkout is blank; otherwise its texts are trimmed. |
| RepoBinding.AppConfig.Apply | src/config.rs:2338-2483 | All or nothing: an error leaves routes and monitors as they were, and success makes exactly the specified edit. |
| RepoBinding.FindsItself | src/config.rs:2734-2753 | The route and the monitor that a binding writes are found again by the same binding. |
| RepoBinding.OneRoute | src/config.rs:2429-2458 | After a binding exactly one route is the repository's binding route, to the requested channel and name; every other route is as it was. |
| RepoBinding.OneMonitor | src/config.rs:2460-2480 | After a binding exactly one monitor matches it; every other monitor is as it was. |
| RepoBinding.BindingTwiceIsBindingOnce | src/config.rs:2338-2483 | A second identical binding is accepted and changes nothing. |
| BindingAudit.SetupIndicesStep | src/binding_verify.rs:493-510 | One more route adds its index to its own repository's entry and to no other. |
| BindingAudit.SetupRoutes | src/binding_verify.rs:493-510 | The map has an entry for exactly the repositories with a setup route, with all their indices and the channel of the first. |
| BindingAudit.IdentityCounts | src/binding_verify.rs:512-519 | Each repository's count is the number of monitors that claim it. |
| BindingAudit.AuditPairs | src/binding_verify.rs:295-405 | The findings about a route and the monitors are exactly those specified, and it is known whether any monitor claims the repository. |
| BindingAudit.AuditRoute | src/binding_verify.rs:281-405 | The findings about one setup route are exactly those specified. |
| BindingAudit.AuditRoutes | src/binding_verify.rs:281-405 | The findings about all setup routes are exactly those specified, whatever the order. |
| BindingAudit.AuditMonitors | src/binding_verify.rs:408-443 | Exactly the shared identities, and the identities without a setup route, are reported. |
| BindingAudit.AuditManualRoutes | src/binding_verify.rs:445-467 | Exactly the manual wildcard routes beside a setup route are reported. |
| BindingAudit.Audit | src/binding_verify.rs:276-474 | A finding is reported iff its condition holds of the routes and monitors, for each of the ten codes. |
| AfterBinding.SelfClaimsIff | src/binding_verify.rs:571-605 | The monitor of a binding is taken for its repository iff a channel name was given and the repository is `owner/name` or has no slash. |
| AfterBinding.OneSetupRoute | src/binding_verify.rs:493-510 | After a binding the auditor sees one setup route for the repository, to the requested channel. |
| AfterBinding.NoRouteConflict | src/binding_verify.rs:281-467 | After any binding there is no duplicate_setup_route, manual_route_conflict or repo_identity_mismatch for the repository. |
| AfterBinding.RouteInStepIff | src/binding_verify.rs:295-355 | A route has no missing monitor and no mismatch iff some monitor claims its repository and all that do agree with it. |
| AfterBinding.InStepIff | src/binding_verify.rs:276-467 | After a binding the five findings are absent iff some monitor claims the repository and every claiming monitor that was left alone has the same channel and name. |
| AfterBinding.TidyBindingsAreInStep | src/config.rs:2338-2483 | With a channel name, a repository that is `owner/name` or slash-free, and tidy monitors, a successful binding always leaves the repository without any of the five findings. |
| AfterBinding.BindTwice | src/config.rs:2338-2483 | The second of two identical calls succeeds and changes nothing if the first succeeded, fails in the same way if it failed, and with a tidy config the result passes the audit. |
| AfterBinding.NamelessIsNeverInStep | src/binding_verify.rs:571-588 | A binding without a channel name never passes the audit. |
| AfterBinding.ManualMonitorReportedIff | src/binding_verify.rs:386-405 | A manual_monitor_conflict is reported after a binding iff, in the config before it, some monitor other than the one the binding writes claims no repository and has the requested channel, or that one claims none itself: it has no channel name, or a repository that gives it none. |
| AfterBinding.AcceptedWithManualConflict | src/config.rs:2378-2385 | A concrete tidy config, normalised as loading leaves it, whose binding is accepted and then reported as a manual_monitor_conflict: the editor's own check spares monitors that have a repository. |
| DiscordWatch.SaturationIsHarmless | src/discord_watch.rs:392-409 | Saturating subtraction changes no comparison with a non-negative limit. |
| DiscordWatch.DiscordWatchState.ResetForBot | src/discord_watch.rs:383-390 | Bot activity clears its channel's counter and pending mentions and nothing else. |
| DiscordWatch.DiscordWatchState.RecordId | src/discord_watch.rs:451-465 | An id is new iff it is not in the list; a new one is appended, and the oldest is dropped beyond 256. |
| DiscordWatch.DiscordWatchState.TallyMessage | src/discord_watch.rs:139-150 | The channel's entry is brought up to date exactly as specified. |
| DiscordWatch.DiscordWatchState.ProcessMessage | src/discord_watch.rs:103-248 | One message changes the state and gives a nudge exactly as the step specification says; the runs below are about that specification. |
| WatchRuns.RecordingKeepsCooldown | src/discord_watch.rs:139-164 | Recording a message changes no cooldown, so both checks of one message agree. |
| WatchRuns.OwnChannel | src/discord_watch.rs:103-225 | From a counter below the threshold one message gives a backlog nudge iff it is counted and completes the threshold, and leaves the counter below it. |
| WatchRuns.StateIsHistory | src/discord_watch.rs:103-225 | After every run from the empty state, under any clock, each channel's counter is the number of messages counted since its last reset and below the threshold, its id list is the last 256 new ids without repetition, and the nudge times are those of the last nudges. |
| WatchRuns.BacklogNudgeAtThreshold | src/discord_watch.rs:196-223 | A backlog nudge comes exactly with the message that makes the count reach the threshold, and no nudge comes while a cooldown lasts. |
| WatchRuns.NudgesAreApart | src/discord_watch.rs:392-409 | Under any clock, even one that steps back, consecutive nudges are at least the global cooldown apart, and in one channel at least the longer of both. |
| WatchRuns.SpanHolds | src/discord_watch.rs:392-409 | A span of length W holds at most W/G + 1 times that are G apart. |
| WatchRuns.NudgeRateIsBounded | src/discord_watch.rs:206-217 | A span of length W holds at most W/G + 1 nudges, and in one channel the same for the longer cooldown. |
| IntentLog.WatchFiles.Append | src/discord_watch.rs:314-334 | Nothing is written for an id that the log already has; otherwise the log changes as far as the write got, and success needs the whole line. |
| IntentLog.WatchFiles.Handle | src/discord_watch.rs:357-381 | Log first, then state: a nudge is recorded in the saved state only after its append succeeded, whatever fails. |
| IntentLog.IdsAfterWrite | src/discord_watch.rs:325-347 | On a clean end of the log a whole intent adds its id; after a last line without a newline it adds nothing and takes that line's id with it. |
| IntentLog.IdsStayDistinct | src/discord_watch.rs:314-347 | One event, with any failure, keeps the ids in the log distinct. |
| IntentLog.IdsAreDistinct | src/discord_watch.rs:314-381 | Over every run, with any failures, the ids in the log are pairwise distinct. |
| IntentLog.GroundedIff | src/discord_watch.rs:314-381 | One event keeps every recorded nudge in the log iff it does not write after a last line without a newline in one of two ways. |
| IntentLog.GroundedThroughoutIff | src/discord_watch.rs:314-381 | Throughout a run every recorded nudge is in the log iff the run never does so. |
| IntentLog.ReplayAddsNothing | src/discord_watch.rs:318-347 | The same event at the same time from the same saved state adds nothing if the log has its id, which it has iff the intent was written to a clean end up to its newline. |
| IntentLog.BothNudgesLost | src/discord_watch.rs:325-326 | A concrete run in which an append stops before its newline and every later step works, and two recorded nudges are both missing from the log. |
| IntentRuns.SafeIff | src/discord_watch.rs:314-334 | Every recorded nudge is on a synced line of a log whose directory is synced iff no crash, which can take any bytes that were not synced and the whole log while its directory is not, takes a recorded nudge from the log. |
| IntentRuns.SafeAfterIff | src/discord_watch.rs:273-381 | One event keeps the recorded nudges safe from crashes iff it does not record one that was appended after an unfinished line, or found on a line that was not synced, or while the log's directory is not synced: neither before, nor by making the log, nor by saving the state beside it. |
| IntentRuns.LaterAppendDoesNotEnter | src/discord_watch.rs:318-329 | If syncing the directory of a new log failed, a later append does not make up for it: with the state saved elsewhere the next nudge is recorded, and a crash can take the whole log. |
| IntentRuns.SafeThroughoutIff | src/discord_watch.rs:314-381 | Over every run with crashes and any failures, the recorded nudges are safe throughout iff no event does so. |
| IntentRuns.SavedIsRunOfKept | src/discord_watch.rs:357-381 | Whatever fails, the saved state is that of a run without failures over the events after which it was saved. |
| IntentRuns.LogRateIsBounded | src/discord_watch.rs:314-381 | Whatever fails and under any clock, a span of length W sees at most W/G + 1 intents logged, and one more for each event in it that was logged without its state being saved. |

## Left out

- HTTP, Discord and Slack transport, tokio tasks and channels, telemetry and stderr logging: a send is an oracle that accepts, asks for a retry or rejects; a full channel is a bound on the number of events.
- JSON and TOML parsing and printing: parsed values are the inputs, and what does not parse is a case of its own.
- Hashes, fingerprints, formatted times and the calendar are uninterpreted functions with the laws that are used stated as `Lawful`; batch keys and destination keys are opaque texts, so only "same key" is said, not "same delivery".
- Unsigned overflow of `now + window` in the batchers: times are unbounded naturals there.
- The sink-missing branch and the single-item path of the routine batch sender, which only forward one message.
- The router and the renderer: which events reach a batcher and what they render to are inputs.
- The event ledger beyond what it says of an event; when it forgets one (retention, caps, a disabled ledger) its dispatches are those of `AlertDelivery.AtMostOnceIff`, which takes any answers.
- Whether the directories of the intent log and of the state exist durably: directories made on the way are never synced by the source.
- The timezone check of a cron schedule, which accepts UTC only.
- How a state file is evaluated into a fingerprint, a key and a zero-backlog verdict.
- Between the hooks of a save nobody else acts: the environment changes the file system at the hooks that the source has, so what happens between a last check and the call after it is left out.
- Descriptor details of the deletion path (access checks, event-only descriptors of macOS): an entry is readable or not.
- The non-Unix branches of the save, which use paths instead of descriptors, and config serialisation, whose bytes are an input.
- AlertDelivery.Dispatch: delivery is a state machine on values, because the source's journal is behind a lock shared with other tasks; concurrent dispatches of one event are not modelled.
- TimerWheel.Wheel.Tick: the order of the entries that one tick returns is not stated; the batchers do not depend on it beyond their own versions.
- ConfigFileSystem.ConfigFiles.OpenParent: a missing parent is created as one fresh directory; its ancestors are not part of the model.
- BindingAudit.Audit: says which findings are reported, not their order, and leaves out their messages, labels and names.
- DiscordWatch.DiscordWatchState.ProcessMessage: the text of a nudge and its constant metadata are left out.
- IntentLog.WatchFiles.Handle: the enabled flag and the test of the event kind before it, which drop the event without any effect, are left out.
- `AppConfig::validate`, the CLI, the daemon client, the lane probes and the GitHub pollers.
