# cargo-mcp, verified

`cargo-mcp` is a JSON-RPC server that runs cargo for an agent. This project models the parts of it that
are hard to get right and proves, for all inputs and all interleavings, what they promise:

- **Bisection of hanging, failing and slow tests** (`Chunking`, `Splitting`, `GroupRuns`, `Bisection`,
  `SearchTheorems`, `SearchPrecision`). `Report.BisectBinary` is the depth-first stack loop; it is proved
  equal to `Search`, a function on the worklist, and the theorems are about `Search`: completeness, order,
  soundness of leaves, the `2n - m` bound on runs, the logarithmic bound, exactness.
- **The subprocess supervisor**: the two-clock poll loop (`Watchdog`, `WatchdogTheorems`,
  `WatchdogOutcomes`), the bounded line channel between reader thread and supervisor (`LineChannel`), and the
  retry wrapper (`Retry`).
- **The protocol side**: the cancel watcher shared by two threads (`CancelWatch`), the request loop with its
  nested dialogs, and the grouping of suggestions and reading of answers (`Grouping`). `SessionModel` says
  what a session does with its input as a function of it, turn by turn and dialog by dialog; `Session` has
  the methods, proved equal to it; `SessionTheorems`, `SessionReplies`, `SessionWatch`, `SessionAnswers`,
  `SessionClients` and `SessionLosses` say what every session keeps, what it answers, and to whom.
- **Text algorithms**: the two-row edit distance and the suggestion built on it (`EditDistance`), and the
  control-sequence stripper (`Ansi`, after ECMA-48, section 5.4).

`dafny verify dfyconfig.toml` checks everything.

## How the outside world enters

- A test launch is an oracle (`GroupRuns.Oracle`): each test name has a fixed behaviour (passes or fails
  in some time, or hangs); a launch lasts as long as its tests together; it times out iff it contains a
  hang or its total is not strictly below its budget, and then overshoots by an arbitrary `lag`; any launch
  may be `broken` (not startable, or the call cancelled). Every theorem holds for every oracle.
- Instants are natural numbers. In `Watchdog` the environment is a trace of polls with every clock read in
  it; in `Retry` an arbitrary amount of time passes before each clock read; in `Session` each line has an
  arrival time.
- Lines are matched by predicates that are parameters (arming, reset, busy-error patterns); JSON is the
  datatype `Wire.Content`, which keeps the fields the code looks at.
- `main`'s local variables, the watcher slot, the channel and the writer are the value `SessionModel.State`,
  passed from call to call. While a tool runs, the reader thread takes the cancels that name its request out
  of the lines still to come.

## Where the code and its comments differ

The model follows the code in each case.

- The header of `bisect.rs` (lines 13-20) calls a group interesting when it hangs or is slow; line 412 also
  counts a failed run, and `run_group` stops early on a failure as well as on a hang (line 537).
- `elicit.rs:167` promises every suggestion without a code a group of its own. `CodelessAlone` gives the
  exact condition: no other suggestion's lint code spells `_id:` and the id; `CodelessNotAlone` is an input
  that fails.
- `elicit.rs:550` treats `exit` as a message without an id; the code does not look at the id, so an `exit`
  request met by a dialog ends the process, and neither it nor the tool call is answered
  (`ExitRequestUnanswered`). Which requests are sure of their one reply is `AlwaysAnsweredIff`; which of those
  taken got theirs is `AnsweredOnce`. A client that never sees a dialog is always answered
  (`NoDialogsAllAnswered`). A cancel of the running call is consumed by the reader thread even if it carries
  an id, and is then not answered either (`LinesConserved`).
- `invoke.rs:1472-1481` says that a timeout's elapsed time reflects the budget that fired. For an absolute
  deadline the report can be a whole turn or more above the budget when the deadline had passed at the spawn
  (`LateSpawn` is the trace), and below it when its anchor would lie before the clock's origin (`EarlyAnchor`).
  `AnchoredUpperBound` and `AnchoredLowerBound` have the exact conditions.
- `strip_ansi` is not idempotent (`StripNotIdempotent`); `StripTwice` says exactly when it is. Its result is
  the undecorated text exactly when the text has no ESC directly before a `[` with nothing inserted between
  the two (`StripInvertsDecoration`).
- The `hung` / `failed` label of a group depends on how its names are cut into launches
  (`LabelDependsOnChunking`); `LabelUnderChunking` says when a cut run still says `hung`. The verdict does not
  depend on it (`ChunkingTransparent`).

## Model

| member | source | states |
|---|---|---|
| Chunking.ChunkNames | crates/cargo-mcp/src/bisect.rs:591-611 | The launches concatenate to the names, each fits the byte budget or is one oversized name, none is empty unless the group is, and no other such division uses fewer |
| Chunking.PackIsPacking | crates/cargo-mcp/src/bisect.rs:595-606 | From any open launch that is acceptable, the greedy continuation is an acceptable division of all names without empty launches |
| Chunking.PackStaysAhead | crates/cargo-mcp/src/bisect.rs:595-606 | Greedy stays ahead: no acceptable division that started its open launch no later needs fewer launches from here on |
| Chunking.FitsMeans | crates/cargo-mcp/src/bisect.rs:591-602 | A launch is acceptable iff its names, each with a separator, take at most 24 000 bytes or it has one name |
| Text.ByteLengthMeans | crates/cargo-mcp/src/bisect.rs:596 | The length counted is that of UTF-8: a byte for each character, more exactly for one beyond ASCII, never above four each |
| Splitting.SplitInto | crates/cargo-mcp/src/bisect.rs:487-503 | The loop over `idx` produces the contiguous groups given in closed form |
| Splitting.SplitCorrect | crates/cargo-mcp/src/bisect.rs:486-503 | Every name once and in order, no empty group, as many groups as asked for (clamped), sizes within one of each other, larger first, none above the exact quotient rounded up |
| Splitting.ChunksOfCorrect | crates/cargo-mcp/src/bisect.rs:474-478 | Groups of an initial size keep all names in order, and none is empty or larger than that size |
| Splitting.ChunksOfFull | crates/cargo-mcp/src/bisect.rs:474-478 | Only the last of the groups of an initial size may be short |
| Splitting.InitialGroupsCorrect | crates/cargo-mcp/src/bisect.rs:473-484 | Whatever the options, the initial groups flatten to the selection; for a non-empty one there are between one and `n` of them, none empty |
| Splitting.InitialGroupsMeans | crates/cargo-mcp/src/bisect.rs:473-484 | A size option gives groups of that size but for a shorter last one, a count option that many groups (at least one, at most one per test) within one of each other, no option one group |
| GroupRuns.RunGroup | crates/cargo-mcp/src/bisect.rs:509-550 | The loop over launches with one shrinking budget computes `RunChunks`, about which the next rows speak |
| GroupRuns.RunChunksVerdict | crates/cargo-mcp/src/bisect.rs:509-550 | However the group is cut, the run times out or fails iff a test hangs or fails or the total reaches the budget, never both; otherwise its time is the total |
| GroupRuns.GroupVerdict | crates/cargo-mcp/src/bisect.rs:409-412 | A group run is interesting exactly when its tests are bad: a hang, a failure, a total at the deadline or over the slow threshold |
| GroupRuns.ChunkingTransparent | crates/cargo-mcp/src/bisect.rs:517-544 | Any cut into launches gives the verdict of one launch of the whole group |
| GroupRuns.LabelUnderChunking | crates/cargo-mcp/src/bisect.rs:533-543 | A cut run reports a timeout iff the tests hang or reach the deadline and no failing test was launched before the launch that does |
| GroupRuns.LabelDependsOnChunking | crates/cargo-mcp/src/bisect.rs:533-543 | A failure and then a hang: "failed" in two launches, "hung" in one |
| GroupRuns.BadUpwardClosed | crates/cargo-mcp/src/bisect.rs:409-412 | A selection that contains a bad selection is bad |
| GroupRuns.RunChunksTime | crates/cargo-mcp/src/bisect.rs:518-530 | A group run exceeds its one budget by at most one kill's overshoot, however many launches it takes |
| GroupRuns.RunChunksStops | crates/cargo-mcp/src/bisect.rs:517-549 | A failed run took the launches up to the first failing one; a timed-out run the whole budget and the overshoot of the launch that ran out of it, no earlier launch having failed; any other run all launches |
| GroupRuns.RunChunksBreaksIff | crates/cargo-mcp/src/bisect.rs:530-532 | A run breaks off iff it gets to a launch that cannot be started or is cancelled |
| GroupRuns.NoBudgetNoLaunch | crates/cargo-mcp/src/bisect.rs:523-529 | With no budget left nothing is launched and the group counts as timed out |
| Bisection.Report.BisectBinary | crates/cargo-mcp/src/bisect.rs:378-470 | The stack loop appends to counters, culprits and records exactly what `Search` yields, and fails exactly when a launch broke; it ends because the sum of `2*size - 1` over the stack falls |
| Bisection.Report.VisitGroup | crates/cargo-mcp/src/bisect.rs:399-467 | One group: run, counted, recorded, then dropped, blamed or replaced by its parts; a broken launch changes nothing |
| Bisection.Report.BlameAll | crates/cargo-mcp/src/bisect.rs:438-457 | Every test of a leaf becomes a culprit with the leaf's label and its share of the time |
| Bisection.ChildrenCorrect | crates/cargo-mcp/src/bisect.rs:460-467 | Two or more tests are cut into at least two and at most `split_factor` groups that keep them all, each at most the quotient rounded up |
| Bisection.NextIsLighter | crates/cargo-mcp/src/bisect.rs:395-467 | Every visit lowers the measure, so termination does not rest on `max_rounds` |
| SearchTheorems.Completeness | crates/cargo-mcp/src/bisect.rs:378-470 | A test that alone would hang, fail, reach the deadline or exceed the threshold is blamed exactly as often as it was selected |
| SearchTheorems.CulpritsInOrder | crates/cargo-mcp/src/bisect.rs:388-393 | The blamed tests are a subsequence of the selection |
| SearchTheorems.RunBound | crates/cargo-mcp/src/bisect.rs:390-468 | At most `2n - m` groups are run for `n` tests in `m` initial groups |
| SearchTheorems.TimeBound | crates/cargo-mcp/src/bisect.rs:516-543 | Time spent running is at most `(2n - m)` times the group budget plus the overshoot |
| SearchTheorems.RecordsFaithful | crates/cargo-mcp/src/bisect.rs:413-433 | Each record is the run of its group, is labelled other than clean iff the group is bad, respects the round cap and is at most `n0 / k^depth` rounded up |
| SearchTheorems.EveryRunHasOrigin | crates/cargo-mcp/src/bisect.rs:435-467 | A group is run only as an initial group or as a part of a recorded bad group with more tests than `min_group_size`, short of `max_rounds` |
| SearchTheorems.CulpritsExplained | crates/cargo-mcp/src/bisect.rs:438-458 | Each culprit is in a recorded bad leaf with its label and time share, of at most max(min_group_size, `n0 / k^max_rounds` rounded up) tests |
| SearchTheorems.RecordsStem | crates/cargo-mcp/src/bisect.rs:460-467 | Every group run at depth `d` is a contiguous stretch of one initial group `g` of at most `len(g) / k^d` tests, rounded up |
| SearchTheorems.CulpritsStem | crates/cargo-mcp/src/bisect.rs:438-458 | Each culprit's leaf lies within one initial group `g` and has at most max(min_group_size, `len(g) / k^max_rounds` rounded up) tests |
| SearchTheorems.CulpritsAre | crates/cargo-mcp/src/bisect.rs:438-458 | The culprits are, record by record, the tests of the bad groups that have at most `min_group_size` tests or were reached in the last round, each with the label of its group's run and its share of the time |
| SearchTheorems.SmallGroupsBlamed | crates/cargo-mcp/src/bisect.rs:438-458 | Every test of such a group is a culprit under the group's label |
| SearchTheorems.DividedOnlyWhenLarge | crates/cargo-mcp/src/bisect.rs:435-467 | A group below the initial ones is a smaller contiguous part, one level down, of a bad recorded group with more than `min_group_size` tests and rounds left |
| SearchTheorems.ShareMeans | crates/cargo-mcp/src/bisect.rs:447-449 | The share of a culprit times the number of tests in its leaf is the elapsed time, up to less than that number |
| SearchPrecision.SearchExact | crates/cargo-mcp/src/bisect.rs:378-470 | With single-test leaves and rounds enough, the culprits are exactly the tests bad alone, in order, each with the label and time of its own run |
| SearchPrecision.SoloRun | crates/cargo-mcp/src/bisect.rs:440-456 | The run of a single bad test is blamed as its behaviour says |
| SearchPrecision.LogarithmicSearch | crates/cargo-mcp/src/bisect.rs:460-467 | If the selection without one test is good, at most `m + k * log_k n` runs happen (`1 + k * log_k n` from one group) |
| EditDistance.Levenshtein | crates/cargo-mcp/src/tools.rs:3878-3898 | The two rows, filled in place and swapped, yield the edit distance |
| EditDistance.DistanceIsCheapest | crates/cargo-mcp/src/tools.rs:3877-3898 | That distance is the cost of a cheapest insert / delete / substitute script |
| EditDistance.DistanceSymmetric | crates/cargo-mcp/src/tools.rs:3877-3898 | It is symmetric |
| EditDistance.DistanceZero | crates/cargo-mcp/src/tools.rs:3877-3898 | It is zero exactly on equal strings |
| EditDistance.DistanceTriangle | crates/cargo-mcp/src/tools.rs:3877-3898 | It satisfies the triangle inequality, by composing scripts |
| EditDistance.ClosestKey | crates/cargo-mcp/src/tools.rs:3860-3875 | A key at the least distance if that is within the threshold, none iff every key is farther, in any iteration order |
| EditDistance.ThresholdMeans | crates/cargo-mcp/src/tools.rs:3870-3873 | One edit is tolerated in a key of up to three bytes, two up to five, three in a longer one |
| EditDistance.KeyDistanceZero | crates/cargo-mcp/src/tools.rs:3861-3864 | Two keys are at distance zero iff they differ in the case of the letters A to Z at most |
| Ansi.StripAnsi | crates/cargo-mcp/src/tools.rs:1610-1628 | The scanning loop computes `Strip`, about which the next rows speak |
| Ansi.StripDeletes | crates/cargo-mcp/src/tools.rs:1610-1628 | The output is a subsequence of the input |
| Ansi.StripInvertsDecoration | crates/cargo-mcp/src/tools.rs:1605-1628 | Text decorated with well-formed control sequences comes back unchanged iff the text has no ESC directly before `[` with nothing inserted between them |
| Ansi.StripFixpoint | crates/cargo-mcp/src/tools.rs:1610-1628 | A string is unchanged iff it has no control sequence introducer |
| Ansi.StripTwice | crates/cargo-mcp/src/tools.rs:1610-1628 | A second pass changes nothing iff no ESC is separated from a `[` by control sequences only |
| Ansi.StripNotIdempotent | crates/cargo-mcp/src/tools.rs:1610-1628 | A concrete input on which a second pass deletes more |
| Ansi.StripSequence | crates/cargo-mcp/src/tools.rs:1610-1628 | U+001B and `[` are removed with what follows up to the first character from U+0040 to U+007E, or the end; every other character stays |
| Ansi.WellFormedMeans | crates/cargo-mcp/src/tools.rs:1604-1609 | The control sequences of `StripInvertsDecoration` are those of ECMA-48, section 5.4 |
| Watchdog.Supervise | crates/cargo-mcp/src/invoke.rs:1553-1668 | Over every trace of polls the loop stops at the first poll that cancels, finds a passed deadline or meets the end of output, with the outcome, elapsed time, lines and buffer that the trace determines |
| Watchdog.CheckClocks | crates/cargo-mcp/src/invoke.rs:1584-1622 | The check reports a timeout iff an active deadline has passed, with the elapsed time of the clock that fired |
| Watchdog.OnLine | crates/cargo-mcp/src/invoke.rs:1624-1659 | After a line, armed flag and deadlines are those the whole trace determines |
| WatchdogTheorems.OverallNeverMoves | crates/cargo-mcp/src/invoke.rs:1555-1566 | Once set, the overall deadline is the same for the rest of the run; an absolute one is in force from the start |
| WatchdogTheorems.PerTestRunsFromLastRefresh | crates/cargo-mcp/src/invoke.rs:1645-1659 | The per-test deadline is the instant of the last arming or reset line plus the budget, and none if there is no budget or the sum is no instant |
| WatchdogTheorems.PerTestRunsFromSpawn | crates/cargo-mcp/src/invoke.rs:1567-1571 | With no such line it runs from the spawn, or not at all while arming is awaited |
| WatchdogTheorems.NothingFiresUnarmed | crates/cargo-mcp/src/invoke.rs:1547-1571 | Before the arming line only an absolute deadline can end the run |
| WatchdogTheorems.PerTestElapsed | crates/cargo-mcp/src/invoke.rs:1605-1610 | When only the per-test clock fired, the report is at least its budget and less than a turn above it, however many resets there were |
| WatchdogTheorems.OverallElapsed | crates/cargo-mcp/src/invoke.rs:1617-1619 | The same for the overall clock measured from arming |
| WatchdogTheorems.AnchoredElapsed | crates/cargo-mcp/src/invoke.rs:1611-1616 | The overall clock alone, on an absolute deadline: the report is the budget plus the delay after the deadline, or the time since the spawn when the anchor lies before the clock's origin; a deadline passed at the spawn fires at the first poll |
| WatchdogTheorems.AnchoredUpperBound | crates/cargo-mcp/src/invoke.rs:1611-1616 | All such reports stay less than a turn above the budget iff the deadline lies after the spawn, or the anchor before the origin, or the per-test clock always fires first |
| WatchdogTheorems.AnchoredLowerBound | crates/cargo-mcp/src/invoke.rs:1611-1616 | All such reports reach the budget iff the anchor is an instant of the clock, or the deadline can never be seen to pass, or the per-test clock, running from the spawn, fires no later in every run |
| WatchdogTheorems.LateSpawn | crates/cargo-mcp/src/invoke.rs:1611-1616 | The failing trace for the upper bound: a deadline passed at the spawn and a slow first turn |
| WatchdogTheorems.EarlyAnchor | crates/cargo-mcp/src/invoke.rs:1611-1616 | The failing traces for the lower bound: a prompt kill of a process whose anchor would lie before the clock's origin, in silence or with reset lines that hold the per-test clock off |
| WatchdogTheorems.BothElapsed | crates/cargo-mcp/src/invoke.rs:1617-1619 | When both fired, the report reaches the per-test budget, and the overall one unless the deadline is absolute |
| WatchdogOutcomes.VerdictMeans | crates/cargo-mcp/src/invoke.rs:1576-1668 | At the first poll that is cancelled, finds a budget used up or meets the end of the output, the run ends as cancelled, else as timed out, else by itself |
| WatchdogOutcomes.TimesOutIff | crates/cargo-mcp/src/invoke.rs:1576-1622 | The run times out iff an uncancelled poll finds a budget used up, counted from the arming or last reset line or the spawn, and no earlier poll ended it |
| WatchdogOutcomes.StillRunning | crates/cargo-mcp/src/invoke.rs:1576-1668 | It goes on iff no poll ends it |
| WatchdogOutcomes.PerTestEndsRun | crates/cargo-mcp/src/invoke.rs:1567-1622 | A poll `t` or more after the last refresh times the run out, and none before is ended by that clock |
| WatchdogOutcomes.OverallEndsRun | crates/cargo-mcp/src/invoke.rs:1555-1622 | The same for the overall budget from arming |
| WatchdogOutcomes.ElapsedMeans | crates/cargo-mcp/src/invoke.rs:1584-1622 | The elapsed time reported counts from the last refresh, the shared anchor or arming, by which budgets are used up |
| WatchdogOutcomes.DeliveredMeans | crates/cargo-mcp/src/invoke.rs:1624-1644 | The callback gets the rewritten text of every line, in order |
| WatchdogOutcomes.BufferMeans | crates/cargo-mcp/src/invoke.rs:1640-1644 | The buffer, split at its newlines, gives the delivered lines back |
| LineChannel.StepKeepsInv | crates/cargo-mcp/src/invoke.rs:1527-1541 | Every step of every thread keeps the capacity, the sentinel's place and the conservation of lines |
| LineChannel.DeliveredInOrder | crates/cargo-mcp/src/invoke.rs:1623-1666 | In every schedule the callback has seen an initial stretch of the readable lines, each once, and at most 256 messages wait |
| LineChannel.NormalExitDeliversAll | crates/cargo-mcp/src/invoke.rs:1664-1702 | After a normal exit it has seen every line before the first unreadable one; every line iff no read failed |
| LineChannel.NeverDisconnected | crates/cargo-mcp/src/invoke.rs:1664-1701 | The loop always ends by the sentinel, never by a disconnect, and nothing is left to drain |
| LineChannel.DrainDelivers | crates/cargo-mcp/src/invoke.rs:1695-1701 | Whatever waited, the drain would deliver it up to the sentinel before the join |
| LineChannel.JoinAlwaysReturns | crates/cargo-mcp/src/invoke.rs:1670-1702 | Whenever the supervisor joins, the unfinished reader can move without any receive, gets closer to its end with each step, has at most two left, and nobody else can move |
| LineChannel.JoinCompletes | crates/cargo-mcp/src/invoke.rs:1670-1702 | From every reachable join at most three steps complete it |
| LineChannel.ReaderWaitsOnlyWhenFull | crates/cargo-mcp/src/invoke.rs:1527-1541 | A send waits iff 256 messages wait, and then the supervisor can receive |
| LineChannel.NormalEndPossible | crates/cargo-mcp/src/invoke.rs:1527-1702 | From every reachable state without an abort the run can come to its normal end once the child ends, every readable line delivered |
| Retry.RunWithRetry | crates/cargo-mcp/src/invoke.rs:1220-1384 | At most `max_attempts` spawns (one unless retries are on and the subcommand is idempotent), none iff the first budget is zero; each retry follows a busy attempt and exactly the delay of sleep; the answer is the first output that is not busy or the last one allowed, an attempt's error, or a cancel or deadline met at the step where it is looked for; every instant is accounted for and the end lies within the deadline |
| Retry.OneOutcome | crates/cargo-mcp/src/invoke.rs:1258-1378 | What the previous row promises determines answer, spawns, sleeps, their instants and the time taken: no second behaviour meets it |
| Retry.CappedRun | crates/cargo-mcp/src/invoke.rs:1237-1266 | With a representable timeout `t` every attempt starts before `start + t` with the rest as its budget, and no step of a delay begins once that instant has passed |
| Retry.UncappedRun | crates/cargo-mcp/src/invoke.rs:1237-1266 | Without a cap an attempt gets the budget that the output arms, or none, and a delay is slept in steps of 50 ms |
| Retry.DelayBeforeRetry | crates/cargo-mcp/src/invoke.rs:1353-1376 | The first event is an attempt, and each later attempt follows the whole delay |
| Retry.RetriedWhenBusy | crates/cargo-mcp/src/invoke.rs:1302-1306 | Every attempt but the last exited with an error and a busy pattern in its output |
| Retry.NoRetryAfterSuccess | crates/cargo-mcp/src/invoke.rs:1302-1306 | The first output that is no such failure is the answer |
| Retry.OutputReturned | crates/cargo-mcp/src/invoke.rs:1302-1342 | A busy output is returned after the last attempt allowed only, with the report on the holders and, after retries, a line of its own that says so |
| Retry.ErrorMeans | crates/cargo-mcp/src/invoke.rs:1263-1298 | An error is the last attempt's own, a cancel seen during a delay, or a timeout measured from the start once the cap has passed |
| Retry.AttemptLimit | crates/cargo-mcp/src/invoke.rs:132-147 | Several attempts need retries switched on and one of ten subcommands, after a toolchain argument or none |
| Retry.NeverRepeated | crates/cargo-mcp/src/invoke.rs:1226-1230 | `publish`, `add` and `remove` are attempted once |
| Retry.Attempt | crates/cargo-mcp/src/invoke.rs:1271-1342 | One attempt ends the call with the right output or error, or was busy with attempts left |
| Retry.Backoff | crates/cargo-mcp/src/invoke.rs:1353-1376 | Sleeps, each the least of 50 ms, the rest of the delay and the rest of the budget, add up to the delay; it stops early only with delay left, at the first step that finds the call cancelled or the deadline passed |
| CancelWatch.LineReader.InspectLine | crates/cargo-mcp/src/line_reader.rs:57-95 | A line is consumed, and sets the token in force and no other, iff it mentions `notifications/cancelled` and is an object with that method whose params name the request of the last registration not cleared |
| CancelWatch.LineReader.ForwardLine | crates/cargo-mcp/src/line_reader.rs:92-94 | Afterwards every surviving line has been put into the channel, in order |
| CancelWatch.LineReader.ReadLine | crates/cargo-mcp/src/line_reader.rs:122-129 | The line received is the first surviving line not received before |
| CancelWatch.LineReader.RegisterCancel | crates/cargo-mcp/src/line_reader.rs:110-114 | The token handed out is the one in force for the request, and no cancel has hit it |
| CancelWatch.LineReader.Conserved | crates/cargo-mcp/src/line_reader.rs:38-129 | In every reachable reader, lines received, waiting and in hand are the lines read minus the intercepted ones, in order |
| CancelWatch.LineReader.TokenMeans | crates/cargo-mcp/src/line_reader.rs:64-72 | In every reachable reader, a token is set iff its request was cancelled while its registration was current |
| CancelWatch.ForwardsTheRest | crates/cargo-mcp/src/line_reader.rs:50-99 | In every interleaving the lines forwarded are the lines read minus the intercepted ones, in order |
| CancelWatch.TokenSetIff | crates/cargo-mcp/src/line_reader.rs:64-72 | A token is set iff a cancel naming its request was read while its registration was current |
| CancelWatch.RetiredTokenFrozen | crates/cargo-mcp/src/line_reader.rs:110-119 | Once cleared or replaced, a token never changes again |
| CancelWatch.NothingInterceptedWhileClear | crates/cargo-mcp/src/line_reader.rs:68-78 | From a clear to the next registration every cancel is forwarded |
| Session.Serve | crates/cargo-mcp/src/main.rs:363-432 | The loop writes exactly the script of the session's turns, takes its input in order without the consumed cancels, shows exactly the dialogs `s-1`, `s-2`, ... that the turns call for, exits iff the last line taken asks for it and otherwise reads to the end; the watcher ends empty |
| Session.ServeLine | crates/cargo-mcp/src/main.rs:363-431 | One turn of the loop is the turn of `SessionModel`: what it takes and in which context, its dialogs, all it writes, the clock, and whether the process exits |
| Session.HandleToolCall | crates/cargo-mcp/src/main.rs:548-675 | Without params an error and nothing else; else the tool's run, in which cancels that name the request are consumed, then the dialogs called for, then the selection they come to |
| Session.ElicitSelection | crates/cargo-mcp/src/elicit.rs:393-456 | One dialog or two, with the next numbers, each in front of what the one before left, the second only after a switch of view; the picks are the last one's, and never ask for the other view |
| Session.RunDialog | crates/cargo-mcp/src/elicit.rs:479-659 | A dialog takes lines from the front of the channel up to the first that answers, cancels or exits, none after its time, and expires with a cancel iff there is none; it sends its request and the replies due |
| Session.AwaitAnswer | crates/cargo-mcp/src/elicit.rs:504-543 | The read loop takes exactly the lines up to the first that ends the dialog or to the deadline |
| Session.OtherMessage | crates/cargo-mcp/src/elicit.rs:547-624 | A message that is not the answer ends the dialog or not, exits or not, and gets the reply due |
| SessionTheorems.FinalFollows | crates/cargo-mcp/src/main.rs:363-432 | The state a session ends in is what its turns make of it: output, counters, exit |
| SessionTheorems.TurnTimes | crates/cargo-mcp/src/main.rs:363-425 | A turn starts once its line has been read and the turn before has finished, and runs the next tool call of the world |
| SessionTheorems.FirstTurnTimes | crates/cargo-mcp/src/main.rs:360-367 | A session starts with its first line, when that is read |
| SessionTheorems.DialogsWhenAsked | crates/cargo-mcp/src/main.rs:396-404 | A turn has dialogs iff it ran a tool for a request with params that left suggestions to approve, in prompting mode, and the last `initialize` that spoke of it declared the capability; two iff the first was answered by a switch of view |
| SessionTheorems.DialogNames | crates/cargo-mcp/src/elicit.rs:410-428 | The dialogs of a session carry consecutive numbers |
| SessionTheorems.DialogNamesFresh | crates/cargo-mcp/src/elicit.rs:410-428 | No two dialogs of a session have the same id |
| SessionTheorems.DialogsAskedOnce | crates/cargo-mcp/src/elicit.rs:497-502 | The dialog requests sent are exactly the session's dialogs, in order |
| SessionReplies.RepliesBalance | crates/cargo-mcp/src/elicit.rs:546-624 | For every id, null included, the replies with it plus the one an exit in a dialog cuts off are the lines taken that have to be replied to with it |
| SessionReplies.AnsweredOnce | crates/cargo-mcp/src/main.rs:382-430 | A request taken, with an id of its own, gets exactly one reply, unless a dialog took it that it exits, answers or cancels, or it is the call that the exit cut off; then none |
| SessionWatch.Conservation | crates/cargo-mcp/src/line_reader.rs:58-95 | The lines taken and those waiting are the input in order, without the cancels read during the tool run they name |
| SessionWatch.RemovedMeans | crates/cargo-mcp/src/line_reader.rs:57-78 | The reader thread takes out exactly the lines, read during a tool run, that mention `notifications/cancelled` and are objects with that method whose params name the request |
| SessionWatch.DialogMeans | crates/cargo-mcp/src/elicit.rs:504-543 | A dialog takes the front of the channel up to the first line that ends it, all before its deadline, and expires iff none does |
| SessionWatch.NeverRemoved | crates/cargo-mcp/src/main.rs:613-620 | Nothing read while a dialog runs is consumed by the reader thread |
| SessionWatch.TimelyCancelHeeded | crates/cargo-mcp/src/elicit.rs:557-568 | A cancel that names a dialog, or another line that ends it, read during its time ends it: it does not expire and is over by then |
| SessionClients.LinesConserved | crates/cargo-mcp/src/main.rs:363-367 | The same as `Conservation`, for the lines with the context in which each was taken |
| SessionClients.ExitIff | crates/cargo-mcp/src/main.rs:384-393 | The process exits iff the last line taken asks for it where it is taken, which no earlier line does |
| SessionClients.PlainAnswered | crates/cargo-mcp/src/main.rs:382-430 | A request that starts no tool and that no dialog can keep is answered exactly once wherever it is taken |
| SessionClients.NoDialogsAllAnswered | crates/cargo-mcp/src/main.rs:382-430 | Without a declared capability, or outside prompting mode, there are no dialogs and every request taken is answered exactly once |
| SessionClients.QuietClientAnswered | crates/cargo-mcp/src/main.rs:382-430 | If such a client also sends no cancel and no exit notification, every request it sends is answered exactly once |
| SessionLosses.AlwaysAnsweredIff | crates/cargo-mcp/src/elicit.rs:546-624 | A request is answered exactly once in every session that takes it, its id being its own, iff it starts no tool, does not ask to exit, and neither reuses nor cancels an id that the server gives to a dialog |
| SessionLosses.ExitRequestUnanswered | crates/cargo-mcp/src/elicit.rs:550-555 | A session in which an `exit` request and the tool call whose dialog meets it both stay unanswered |
| SessionAnswers.ToolAnswerMeans | crates/cargo-mcp/src/main.rs:655-690 | A tool call that is not cut off is answered with all suggestions iff the server accepts without asking, with the picks iff the last dialog was answered by them, with none iff it was declined, expired or asked for another view again, and without a selection otherwise |
| SessionAnswers.ToolTurnWrites | crates/cargo-mcp/src/main.rs:589-735 | A tool call writes a notice and those of the tool, what its dialogs send, a notice if the tool failed, and the reply unless the process exits |
| SessionAnswers.CancelSentIff | crates/cargo-mcp/src/elicit.rs:506-536 | The client is told to dismiss exactly the dialogs that expired |
| SessionAnswers.DialogOpensAndCloses | crates/cargo-mcp/src/elicit.rs:497-536 | A dialog opens with its request, sends what its lines call for in order, and closes with a notice and the cancel if it expired |
| SessionAnswers.TurnSpan | crates/cargo-mcp/src/main.rs:613-666 | Cancels of a call are watched for while its tool runs; the first dialog begins as that ends, the next as the one before ends |
| SessionAnswers.SecondDialogIff | crates/cargo-mcp/src/elicit.rs:418-456 | There is a second dialog iff the first, on five suggestions or more, was answered by asking for the other view |
| SessionAnswers.MainLoopAnswers | crates/cargo-mcp/src/main.rs:363-431 | A tool runs iff a request to call one has params; any other line gets its result or the code -32700, -32601 or -32602, or nothing |
| SessionAnswers.DialogEndMeans | crates/cargo-mcp/src/elicit.rs:546-659 | Which lines end a dialog, and whether as answered, declined or with the process |
| SessionAnswers.DialogReplyMeans | crates/cargo-mcp/src/elicit.rs:570-608 | A dialog replies with a result to a shutdown, with -32000 to anything else that has an id, and not to its own affairs or an exit |
| SessionAnswers.DeclaredMeans | crates/cargo-mcp/src/main.rs:396-410 | The client's last `initialize` request with params says whether it can show dialogs |
| Grouping.GroupKeyMeans | crates/cargo-mcp/src/elicit.rs:165-180 | A group's key is the file of its members, or their lint code, or `_id:` and the id of a codeless one |
| Grouping.SameGroupIff | crates/cargo-mcp/src/elicit.rs:165-221 | Two suggestions share a group iff they have the same file, or in the lint view the same code |
| Grouping.GroupBy | crates/cargo-mcp/src/elicit.rs:184-221 | Collecting keys and members, emptying the map in key order and sorting yields `Grouped`, about which the next rows speak |
| Grouping.GroupedIsPartition | crates/cargo-mcp/src/elicit.rs:182-221 | One group for every key that occurs, holding exactly the suggestions with that key in input order |
| Grouping.GroupedInOrder | crates/cargo-mcp/src/elicit.rs:218-220 | Groups come largest first, ties by first occurrence |
| Grouping.CodelessAlone | crates/cargo-mcp/src/elicit.rs:165-173 | A suggestion without a code is alone in its lint group iff no other's code spells its id key |
| Grouping.CodelessNotAlone | crates/cargo-mcp/src/elicit.rs:165-173 | A suggestion with lint code `_id:1` and a codeless one with id 1 share a group |
| Grouping.ParseGroupedResponse | crates/cargo-mcp/src/elicit.rs:336-383 | The first view entry switches the view; else "skip all" selects nothing; else the ids are strictly ascending and exactly those picked or in a picked group |
| Grouping.SelectionMeansPicks | crates/cargo-mcp/src/elicit.rs:682-688 | What is selected in the end is, in input order, the suggestions picked by id or by group |
| Grouping.AllGroupsSelectAll | crates/cargo-mcp/src/elicit.rs:363-388 | Every suggestion is selected if every group is covered by its header or by an entry for each member and, ids being distinct, only then; in the lint view and the path view alike |
| Grouping.TickingAllSelectsAll | crates/cargo-mcp/src/elicit.rs:236-262 | Ticking every header that the form offers, and the entry of each group too small for one, selects every suggestion |

## Left out

- Process spawning and killing, pipes, Job Objects, file writes, toolchain lookup, the Restart Manager: a kill is assumed to close the pipe.
- Polling slack of a launch: a real launch that ends within one 50 ms poll after its budget still counts as completed, and process start-up takes time; the oracle has neither.
- Bisection across several binaries, test enumeration, the `pattern` filter, option parsing and the summary counts: each adds a loop or a branch around the engine.
- Culprit and group records carry no package and target name, which are constant for one binary.
- The rewriting of compiler advisories is a parameter of the watchdog; the final drain and the exit-code demotion after a normal exit are not part of it (that nothing is left to drain is `LineChannel.NeverDisconnected`).
- Stderr draining, and a panicking reader thread, are not part of the channel model.
- Retry: the text of the holder report is a parameter, and the scan for busy patterns is a predicate.
- Session: contents of tool results, schemas and log texts; a failing write to the client. A JSON array that serde would read as a message in field order is treated as unreadable.
- Session: the reader thread acts at the instant a line is read, a cancel read at the very start of a tool run counting as before it; every finer interleaving of the two threads is in `CancelWatch`. That a tool run notices its cancel is part of what the tools do, which is a parameter.
- Dialog strings are the datatype `Grouping.Pick` instead of text, so the decimal parsing of ids is not modelled; group labels are left out.
- `sort_by_key`, `sort_unstable` and `dedup` are library calls, given as insertion functions with the properties used proved.
- Nextest argument translation, regex matching, progress text and configuration: a branch per flag.
