# Verified models of the workspace assistant's state-heavy parts

A Dafny model of five parts of the repository, and proofs of what they promise:

- **The off-hours calendar** (`WorkCalendar`): which instants are off-hours, and the claim key that is meant to
  name one contiguous off-hours stretch.
- **Context fitting** (`ContextReducers`, `FoldMarker`, `ContextBudget`, `LimitLearner`): cutting a thread down to a token
  budget, the ladder of ceilings and the budget it leaves, what a thread costs now, the ceiling learned from
  traffic, and the halving retry.
- **The helper's lookup history** (`JsonLines`, `RowPieces`, `History`, `HistoryLength`): rows in memory beside an append-only file that is
  rewritten now and then, through crashes at any character.
- **The helper's folder** (`SetupProtocol`, `Setup`): installer, launcher and running helper sharing a folder, a
  lock, `state.json` and two request files, over every interleaving of their steps.
- **The helper's run loop and waits** (`Controller`, `Worker`, `Waits`, `Settle`): the window's commands and the
  polls over one Chrome, the jobs taken and answered, and the polling loops against a clock.

Where the source updates an object, the model is a class whose methods are proved against a function of the state
(`History.Store`, `SetupProtocol.State`, `LimitLearner.Memory`), a log of what happened (`Controller`, `Worker`) or
what was seen over time (`Waits`, `Settle`); the properties over whole runs are proved of those. Servers, browsers,
persons and clocks are scripts that may say anything: `World` in `Controller` and `Worker`, the `const` functions of
`Waits.ErrandContext` and `Settle.Page`, the `others` of `Setup`. Times are `real` seconds.

`dafny verify dfyconfig.toml` checks the project.

## Where the code and its description part

The model follows the code. Each of these is proved, with the exact condition where there is one.

- `stretch_id` is described as naming a contiguous stretch. It does so exactly for a window that wraps past
  midnight with no run of more than 30 non-working days, or a window within a day with every day a working day
  (`WorkCalendar.StretchIdNamesStretches`).
- The reducer's note says only the middle is dropped. When the first user message is not the opening one it can be
  sent twice, and the messages before it are what goes (`ContextReducers.TaskIsRepeated`, `RepeatedTask`).
- A thread comes back as it was, reported as changed, exactly when it is one message too large for the budget
  (`ContextReducers.LoneMessageReadsAsChanged`).
- Folding is described as leaving a message there with only its body replaced. Of a persisted message everything
  that is neither its role nor the tool's call goes as well (`ContextReducers.FoldingIsShallow`).
- The history loses one kind of row: one with U+0085, U+2028 or U+2029 in a field is written over several
  lines and is gone when the file is next read (`History.WrittenRowReadsBack`). All that its pieces can be read as
  is rows of empty fields (`RowPieces.WhatARowLeaves`), and they can be (`History.LostRowLeavesAnother`). An add
  keeps memory and file in agreement exactly when what it writes is free of the three, and a rewrite writes every
  row in memory again (`History.AddAgrees`): a row found in the file with one of them as an escape is lost by a
  rewrite although every add is clean (`History.EscapedRowIsLost`). Where memory starts without such rows, it
  agrees with the file throughout a run exactly when no completed add's row is one (`History.AgreesForCleanRows`).
- A file found ending in one of the breaks other than a newline counts one line too few until its first rewrite,
  and can reach twice `keep` lines just before it (`HistoryLength.FileStaysShort`).
- A withdrawn quit request is described as sparing the helper that did not end in time. It spares exactly those
  that have not seen the request by then (`SetupProtocol.WithdrawalComesInTime`, and what
  `Setup.Home.ReplaceRunning` says of the helper left running); after `SetupProtocol.SeenRequestIsNotWithdrawn`'s
  run the helper is ending although the request stood until it was withdrawn. And a request written while a helper
  is taking one to come forward is taken away unread (`SetupProtocol.RequestCanBeLost`).
- A result the server refuses leaves a history row; a failure report it refuses leaves none
  (`Worker.Worker.Tick`, and over whole runs `Worker.Worker.Live`).
- An exception of the site's never reads as the server's trouble, but one of the helper's own converter does when
  its type is such (`Worker.OnlyTheLineIsServerTrouble`).
- The loop's guard covers its steps and not its start: a worker or an updater that cannot be made over the first
  Chrome ends the loop with that Chrome open (`Controller.Controller.Run`).

## Model

| member | source | states |
|---|---|---|
| WorkCalendar.StretchIdNamesStretches | src/workspace_app/workcalendar.py:86-141 | For every calendar: two off-hours moments have the same id exactly when every instant between them is off-hours, if and only if the calendar is disabled, or the window wraps and no more than 30 non-working days come in a row, or the window is within a day and every day works |
| WorkCalendar.SameIdIsContiguous | src/workspace_app/workcalendar.py:96-141 | Wrapping window: no office hours lie between two moments of one id |
| WorkCalendar.ContiguousIsSameId | src/workspace_app/workcalendar.py:90-112 | Wrapping window, short idle runs: the id does not change while the office stays empty |
| WorkCalendar.StretchOpensOnItsEvening | src/workspace_app/workcalendar.py:87-88 | Wrapping window, short idle runs: the id is the day whose evening edge the stretch began at: off-hours from there to now, and not an instant before |
| WorkCalendar.StretchIdNeverDecreases | src/workspace_app/workcalendar.py:96-112 | The id never goes back as time advances, for any window and any calendar, one without working days included |
| WorkCalendar.WalkBackFindsLatestWorkday | src/workspace_app/workcalendar.py:107-112 | The bounded walk gives the later of the most recent working day on or before the day and the day 30 back |
| WorkCalendar.OffHoursCalendar.FindStretchId | src/workspace_app/workcalendar.py:96-112 | The loop, with its early exit and its bound, computes the id the properties are about |
| WorkCalendar.OverrideDecides | src/workspace_app/workcalendar.py:56-61 | An override decides a day both ways, work on a day off and off on a working day |
| WorkCalendar.WeekdayDecides | src/workspace_app/workcalendar.py:53-84 | Without one the weekday does, Monday the first |
| WorkCalendar.DaysOff | src/workspace_app/workcalendar.py:123-134 | No off-hours without a window or in an unknown zone; with both, a day not worked is off-hours from its first instant to its last |
| WorkCalendar.DayWindowOpensAndCloses | src/workspace_app/workcalendar.py:135-138 | Under a window within one day the off-hours of a working day run from its first edge to its last, neither the instant before nor the one after |
| WorkCalendar.LongRunHasTwoIds | src/workspace_app/workcalendar.py:20-23 | Every calendar with more than 30 non-working days in a row breaks the claim, whatever the window |
| WorkCalendar.DayWindowSharesIdAcrossGap | src/workspace_app/workcalendar.py:99-112 | Every window within a day gives a working day and the holiday after it one id across an evening that is not off-hours |
| WorkCalendar.DayWindowWithHoliday | src/workspace_app/workcalendar.py:99-112 | A window within a day breaks the claim as soon as one day does not work |
| WorkCalendar.DayWindowEveryDayWorks | src/workspace_app/workcalendar.py:99-141 | A window within a day keeps the claim when every day works |
| ContextReducers.NewestSurvives | src/workspace_app/context_reduce.py:67-73 | Both invariants of every policy, for any estimator: the newest message is last in the result, a thread that fits is returned untouched and unchanged, and the result fits or is that one message |
| ContextReducers.ReducingTwice | src/workspace_app/context_reducers.py:120-164 | Reducing a reduced thread gives up nothing more |
| ContextReducers.OpeningRequestIsKept | src/workspace_app/context_reducers.py:140-164 | Additive estimator, thread opening with the user: the request is kept exactly when it fits beside the newest message, and then beside the longest suffix that fits; otherwise only the newest is left |
| ContextReducers.NewestIsLongest | src/workspace_app/context_reducers.py:61-68 | Additive estimator: no longer suffix fits than the greedy one |
| ContextReducers.FoldingAloneLosesNothing | src/workspace_app/context_reducers.py:127-138 | The result is called lossless exactly when folding alone fits, and then every message is there with what folding keeps of it |
| ContextReducers.FoldingIsShallow | src/workspace_app/context_reducers.py:71-107 | Folding changes only bulky tool outputs other than the newest: a dict keeps all but its body, a persisted message its role and the tool's call and nothing else; the first user message stays where it is |
| ContextReducers.FoldingTells | src/workspace_app/context_reducers.py:71-91 | What stands in place of a folded body tells the tool's name and the body's length, both read back from it, and has no room for anything else |
| ContextReducers.FoldingForgets | src/workspace_app/context_reducers.py:76-91 | Two outputs alike but for bodies of one length fold to the same message |
| ContextReducers.FoldingShrinks | src/workspace_app/context_reducers.py:94-107 | A folded output is shorter than it was, unless the tool's name is very long |
| ContextReducers.FoldsAreCounted | src/workspace_app/context_reducers.py:127-133 | The folds told are the tool outputs of more than 2,000 characters before the newest message whose body is not its own marker already |
| ContextReducers.TaskIsRepeated | src/workspace_app/context_reducers.py:141-145 | Additive estimator: the result takes the thread's positions in order, unless the first user message is not the opening one and everything from it on fits beside a second copy of it |
| ContextReducers.PositionsAreTaken | src/workspace_app/context_reducers.py:143-144 | Each message of a stage-2 result is the one at the position named for it |
| ContextReducers.RepeatedTask | src/workspace_app/context_reducers.py:140-155 | A thread of three that comes back with the request twice over, its opening message gone, and none said to be dropped |
| ContextReducers.LoneMessageReadsAsChanged | src/workspace_app/context_reducers.py:157-164 | A thread comes back as it was and marked changed exactly when it is one message that does not fit |
| ContextReducers.KeepNewestThatFit | src/workspace_app/context_reducers.py:61-68 | The backward loop keeps one more message as long as the suffix fits, and one in any case |
| ContextReducers.FoldBulky | src/workspace_app/context_reducers.py:94-107 | The loop folds in place exactly the bulky tool outputs before the newest |
| ContextReducers.Reduce | src/workspace_app/context_reducers.py:120-164 | The three stages, in the order of what they cost, are the reduction the properties are about |
| FoldMarker.MarkerReads | src/workspace_app/context_reducers.py:81-82 | Name and size are read back from the marker, whatever the name holds |
| FoldMarker.GroupedReads | src/workspace_app/context_reducers.py:82 | A size in groups reads as that size, with a comma before each three digits and nowhere else |
| ContextBudget.BudgetThroughTheLadder | src/workspace_app/context_budget.py:162-378 | No budget exactly when no rung states a ceiling and the derived one, if any, leaves no room; a budget of 0 only for a stated one; a positive budget, with overhead and reserve, is the ceiling less its margin to the token |
| ContextBudget.BudgetInTokens | src/workspace_app/context_budget.py:304-378 | Budget, overhead and reserve come within one token of the ceiling less its margin; none or nothing is left exactly when these do not reach |
| ContextBudget.LadderPicksFirstPositive | src/workspace_app/context_budget.py:162-207 | The ceiling and its source are those of the first rung, by authority, with a positive value |
| ContextBudget.ResolveContextLimit | src/workspace_app/context_budget.py:197-207 | The loop over the rungs stops at the first positive one |
| ContextBudget.DerivedWindow | src/workspace_app/context_budget.py:136-159 | A window is derived exactly when the share of max_tokens comes to at least one token, and is then its whole part |
| ContextBudget.FindUsage | src/workspace_app/context_budget.py:429-506 | The two backward scans compute the declared meaning: the part from the newest summary on, anchored on its newest recorded turn no older than the summary |
| ContextBudget.ScanForSummary | src/workspace_app/context_budget.py:449-453 | The first scan finds the newest summary or none |
| ContextBudget.ScanForAnchor | src/workspace_app/context_budget.py:454-472 | The second finds the newest assistant turn with a count that is not stale, or none |
| ContextBudget.SummaryIsANewBeginning | src/workspace_app/context_budget.py:443-453 | A thread from a summary on costs the same whatever came before it |
| ContextBudget.AppendingCostsItsEstimate | src/workspace_app/context_budget.py:418-506 | Appending a message that is neither summary nor anchor adds its estimate if the model reads it and nothing otherwise, and changes nothing else |
| ContextBudget.StaleTurnsDoNotMeasure | src/workspace_app/context_budget.py:443-466 | Kept turns older than the summary before them never make the figure measured: it is the estimate of the summary and what follows |
| ContextBudget.FreshTurnMeasures | src/workspace_app/context_budget.py:454-500 | A recorded turn as new as the summary is what the figure rests on: its count and its answer |
| ContextBudget.MeasuredIsAnchored | src/workspace_app/context_budget.py:460-500 | A figure called measured rests on the provider's own count for one turn of the thread, with nothing after that turn that could anchor, and no summary |
| ContextBudget.HalvingKeepsTheNewest | src/workspace_app/context_budget.py:654-663 | k rounds leave the newest ceil(n / 2^k) messages, never none, and one exactly when 2^k reaches n |
| LimitLearner.LearnsFromItsOwnHistory | src/workspace_app/context_budget.py:547-593 | After any history over any endpoints, what one endpoint answers is a function of its own observations: the least of its last whole group of sightings since its last stated limit, else that limit; it is positive, and less than a group is pending |
| LimitLearner.EndpointsAreApart | src/workspace_app/context_budget.py:567-593 | An endpoint is its model and its base URL; an observation of another changes nothing of what governs it |
| LimitLearner.OwnGrows | src/workspace_app/context_budget.py:575-593 | How one more observation of an endpoint moves what governs it: a stated limit at once, an inferred one only by completing a group |
| LimitLearner.GroupsGrow | src/workspace_app/context_budget.py:589-593 | Sightings fall into groups of `confirmations`: one more completes a group or joins the one under way |
| LimitLearner.Learner.constructor | src/workspace_app/context_budget.py:562-565 | Starts knowing nothing, with at least one confirmation asked for |
| LimitLearner.Learner.Get | src/workspace_app/context_budget.py:571-573 | Answers what is learnt for the endpoint, or nothing |
| LimitLearner.Learner.LearnExact | src/workspace_app/context_budget.py:575-580 | A stated positive limit replaces what is learnt and drops what is pending, for that endpoint only |
| LimitLearner.Learner.Observe | src/workspace_app/context_budget.py:582-593 | An inferred limit waits for its group; a complete one governs by its least |
| JsonLines.RoundTrip | ai-workspace-helper/src/ai_workspace_helper/history.py:63-69 | A row written as JSON reads back as itself, whatever its fields hold |
| JsonLines.PrefixDoesNotRead | ai-workspace-helper/src/ai_workspace_helper/history.py:55-67 | A row cut anywhere before its end does not read |
| JsonLines.UnclosedDoesNotRead | ai-workspace-helper/src/ai_workspace_helper/history.py:63-67 | Nor does any line that does not end an object |
| JsonLines.EncodedIsOneLine | ai-workspace-helper/src/ai_workspace_helper/history.py:61-96 | A row is written on one line exactly when no field holds U+0085, U+2028 or U+2029 |
| JsonLines.DecodedIsClean | ai-workspace-helper/src/ai_workspace_helper/history.py:63-69 | A row read from one line can be written on one line again, unless the line has one of the three characters as an escape |
| JsonLines.RowsAreClean | ai-workspace-helper/src/ai_workspace_helper/history.py:60-70 | So can every row read from a file without such escapes |
| JsonLines.EscapedReads | ai-workspace-helper/src/ai_workspace_helper/history.py:63-69 | A line with such an escape reads as a row that cannot be written on one line |
| JsonLines.EscapesReadBack | ai-workspace-helper/src/ai_workspace_helper/history.py:63-69 | Any escape of four digits but of half a pair reads as its character |
| JsonLines.CutsAt | ai-workspace-helper/src/ai_workspace_helper/history.py:61-63 | A text is cut at each of the nine characters `splitlines` knows once line ends are read, and at no other |
| JsonLines.SplitAfterBreak | ai-workspace-helper/src/ai_workspace_helper/history.py:61-63 | What stands before a line end is cut into lines independently of what follows |
| JsonLines.SplitNewline | ai-workspace-helper/src/ai_workspace_helper/history.py:95-97 | The newline put before a row ends an open line and adds none; after an ended one it adds an empty line |
| RowPieces.WhatARowLeaves | ai-workspace-helper/src/ai_workspace_helper/history.py:55-97 | Of any row written up to any character, with or without half a character or its line end: the row itself if it is whole and on one line, nothing of one that is not whole, and nothing but rows of empty fields of one with the three characters |
| RowPieces.BreaksAreInside | ai-workspace-helper/src/ai_workspace_helper/history.py:61-96 | A break in a written row is always inside a field's value: what follows is the rest of the value, its quote, and the next field or the end |
| RowPieces.OnlyEmptyReads | ai-workspace-helper/src/ai_workspace_helper/history.py:63-69 | Of what follows a break no piece reads as a row but an object with nothing in it |
| History.RecoveredRows | ai-workspace-helper/src/ai_workspace_helper/history.py:51-98 | Over any run of adds, crashes and reopenings whose rows hold none of the three characters: memory and a further reopening both hold the newest `keep` of the rows found at the start and the rows kept since |
| History.LogHasEveryCompletedAdd | ai-workspace-helper/src/ai_workspace_helper/history.py:72-98 | The rows kept are every completed add's, in order and once, with at most the interrupted ones in their places |
| History.AgreesForCleanRows | ai-workspace-helper/src/ai_workspace_helper/history.py:51-98 | From memory without such rows: at every point of a run memory is what a reopening would read if and only if no completed add's row holds one of the three characters, whatever the interrupted ones hold |
| History.AppendedRows | ai-workspace-helper/src/ai_workspace_helper/history.py:95-97 | An append of any row adds to what is read of the file exactly what is read back of that row |
| History.AddsAppendRows | ai-workspace-helper/src/ai_workspace_helper/history.py:86-97 | So do any adds before the next rewrite |
| History.RowsOfDump | ai-workspace-helper/src/ai_workspace_helper/history.py:89-92 | A rewritten file reads as what is read back of each row in memory |
| History.BackAllIs | ai-workspace-helper/src/ai_workspace_helper/history.py:89-97 | Of rows written one after another the clean ones are read back, and else only rows of empty fields |
| History.OpenedIsSound | ai-workspace-helper/src/ai_workspace_helper/history.py:51-70 | A file in which none of the three characters stands as an escape opens with memory free of them |
| History.EscapedRowIsLost | ai-workspace-helper/src/ai_workspace_helper/history.py:61-93 | A file, and a clean add, whose rewrite loses a row that was found |
| History.NothingIsInvented | ai-workspace-helper/src/ai_workspace_helper/history.py:51-98 | Over any run whatsoever every row in memory or in the file was found there, is an event's, or has only empty fields |
| History.EarlierRowsStay | ai-workspace-helper/src/ai_workspace_helper/history.py:95-97 | Whatever a row holds, and wherever its append is cut, no earlier row is lost or glued to it |
| History.LostRowLeavesAnother | ai-workspace-helper/src/ai_workspace_helper/history.py:61-69 | A row with an object on a line of its own in a field is read back as one row of empty fields |
| History.TornRows | ai-workspace-helper/src/ai_workspace_helper/history.py:95-97 | An append of any row cut after any character, or inside one, leaves the rows before it as they were; it adds its own exactly when nothing but its line end is missing, or, of a row with one of the three characters, nothing but rows of empty fields |
| History.AddAgrees | ai-workspace-helper/src/ai_workspace_helper/history.py:81-98 | An add keeps memory equal to what opening the file would give if and only if what it writes holds none of the three characters: every row in memory for a rewrite, its own for an append; or the loss cannot be told because memory is full of copies of that row |
| History.WrittenRowReadsBack | ai-workspace-helper/src/ai_workspace_helper/history.py:61-97 | A written row is there when the file is next read exactly when it holds none of the three characters |
| History.History.constructor | ai-workspace-helper/src/ai_workspace_helper/history.py:34-49 | Opens as what the file holds; without a file, empty |
| History.History.Load | ai-workspace-helper/src/ai_workspace_helper/history.py:51-70 | Rows, line count and whether the last line was cut are the file's |
| History.History.ReadRows | ai-workspace-helper/src/ai_workspace_helper/history.py:60-69 | The loop takes the lines that read and skips the others |
| History.History.Add | ai-workspace-helper/src/ai_workspace_helper/history.py:72-98 | Memory, count, cut mark and file after an add, on either way out |
| History.History.Recent | ai-workspace-helper/src/ai_workspace_helper/history.py:100-103 | The rows, newest first |
| HistoryLength.LineCountIsReal | ai-workspace-helper/src/ai_workspace_helper/history.py:61-98 | After an add memory, line count included, is what a reopening would read exactly when a rewrite writes no row with one of the three characters, or an append writes one without them to a tidy file; the file is tidy from then on |
| HistoryLength.RunStaysExact | ai-workspace-helper/src/ai_workspace_helper/history.py:51-98 | From a tidy file without such rows, over any run with its crashes: the line count is the file's, and the file stays below twice `keep` lines from the first completed add |
| HistoryLength.FileStaysShort | ai-workspace-helper/src/ai_workspace_helper/history.py:61-93 | After any adds, however the file found ends: the count is below twice `keep`, how far the file's own lines are from it, and exactly when they reach twice `keep` |
| HistoryLength.FileStaysBounded | ai-workspace-helper/src/ai_workspace_helper/history.py:51-98 | Over any run with its crashes, however the file found ends: at most twice `keep` lines in the file from the first completed add on, and at most one that is not counted |
| HistoryLength.RewritesAreFarApart | ai-workspace-helper/src/ai_workspace_helper/history.py:86-97 | Adds that do not bring the count to twice `keep` only append |
| HistoryLength.RewriteLeavesKeepLines | ai-workspace-helper/src/ai_workspace_helper/history.py:87-93 | A rewrite leaves at most `keep` lines, so the next is at least `keep` adds away |
| HistoryLength.LinesWrittenAreLinear | ai-workspace-helper/src/ai_workspace_helper/history.py:86-97 | n adds write at most 2n lines, and up to twice `keep` for what was there |
| SetupProtocol.ReachableStatesAreSafe | ai-workspace-helper/src/ai_workspace_helper/setup_core.py:526-577 | In every state reachable by any interleaving of install steps, failures, kills, launches, ends and requests: `current` and `previous` differ and name folders on disk, a running helper's folder holds the build it started from, and a quit request it can take was written after it started |
| SetupProtocol.StepKeepsInv | ai-workspace-helper/src/ai_workspace_helper/setup_core.py:533-570 | Every single step keeps this, together with why the installer's old "running" answer is still good enough |
| SetupProtocol.RunKeepsInv | ai-workspace-helper/src/ai_workspace_helper/setup_core.py:165-210 | So does every sequence of steps, from any state that has it |
| SetupProtocol.HelperKeepsItsFolder | ai-workspace-helper/src/ai_workspace_helper/setup_core.py:201-206 | From any reachable state, as long as one process holds the lock its folder holds the same build |
| SetupProtocol.SameStartSameHelper | ai-workspace-helper/src/ai_workspace_helper/setup_core.py:106-133 | A lock holder seen with an earlier one's start is that process, version and build |
| SetupProtocol.FailedBuildChangesNothing | ai-workspace-helper/src/ai_workspace_helper/setup_core.py:184-210 | From a build's start to its failure, whatever else happens, every version and the state are as they were, no other `.partial` appears and its own is gone |
| SetupProtocol.WithdrawnRequestEndsNobody | ai-workspace-helper/src/ai_workspace_helper/setup_core.py:379-384 | Once withdrawn, a request ends no helper that had not seen it, then or later, in any state |
| SetupProtocol.WithdrawalComesInTime | ai-workspace-helper/src/ai_workspace_helper/setup_core.py:373-384 | After a withdrawal, a helper that still holds the lock is ending for a request if and only if it had seen one by then; one that started since is not |
| SetupProtocol.SeenRequestIsNotWithdrawn | ai-workspace-helper/src/ai_workspace_helper/setup_core.py:373-384 | A run from nothing installed in which the helper sees the request, it is withdrawn, and the helper is ending all the same |
| SetupProtocol.RequestCanBeLost | ai-workspace-helper/src/ai_workspace_helper/app.py:125-130 | A request written between the two steps of a helper that takes one to come forward is taken away, and the helper is not ending for it |
| SetupProtocol.RequestStandsUntilTaken | ai-workspace-helper/src/ai_workspace_helper/app.py:119-130 | While a request stands, what the helper it is for is ending for changes to that request or not at all, and once it is gone the helper is ending for it, unless it was just taking another away |
| SetupProtocol.NewHelperIsNotAsked | ai-workspace-helper/src/ai_workspace_helper/setup_core.py:358-361 | A helper that starts while a request stands is not ending for it |
| SetupProtocol.OthersRun | ai-workspace-helper/src/ai_workspace_helper/setup_core.py:338-364 | What launchers and helpers do never touches folders or what the state names |
| SetupProtocol.TakingOverIsSafe | ai-workspace-helper/src/ai_workspace_helper/setup_core.py:387-408 | Taking over from 0.1.0 keeps the state safe, sets current and previous, and removes every folder but these two and those that are held |
| Setup.InstanceLock.constructor | ai-workspace-helper/src/ai_workspace_helper/setup_core.py:110-112 | A lock not yet held |
| Setup.InstanceLock.Acquire | ai-workspace-helper/src/ai_workspace_helper/setup_core.py:114-123 | Succeeds exactly when nobody holds it |
| Setup.InstanceLock.Release | ai-workspace-helper/src/ai_workspace_helper/setup_core.py:129-133 | Gives up the lock if this process had it, and nothing else |
| Setup.Home.HelperRunning | ai-workspace-helper/src/ai_workspace_helper/setup_core.py:317-323 | Says whether a helper holds the lock and leaves it as it was |
| Setup.Home.TakeRequest | ai-workspace-helper/src/ai_workspace_helper/app.py:119-130 | The request seen is the one to end if there is one, else the one to show; what is seen is taken once, with all that stands, launchers coming in between or not |
| Setup.Home.LaunchNow | ai-workspace-helper/src/ai_workspace_helper/setup_core.py:350-364 | One launch attempt is the launcher's action, with its three results |
| Setup.Home.Launch | ai-workspace-helper/src/ai_workspace_helper/setup_core.py:355-364 | With the lock the left-over quit request goes and the current version starts; without it the running helper is asked to show |
| Setup.Home.LaunchWaiting | ai-workspace-helper/src/ai_workspace_helper/setup_core.py:338-364 | Waits in half seconds exactly as long as a helper holds the lock, at most `wait`, and launches then; "shown" only after all of it with a helper running; nothing it does is outside the protocol |
| Setup.Home.ReplaceRunning | ai-workspace-helper/src/ai_workspace_helper/setup_core.py:367-384 | Every way out leaves no quit request; a version is returned only when a new process holds the lock; otherwise a helper runs, asked to show, after the whole wait, and if it started before the call it is the one from before, ending as it was or for this request; folders and state are as they were; the wait is bounded |
| Setup.Home.InstallAndOpen | ai-workspace-helper/install.pyw:51-93 | Installed and started means that very build of that version runs and is not ending; installed makes it current whatever follows; a helper is asked to end exactly when one runs then and the person says yes; "shown" leaves a helper running that was asked to show |
| Setup.Home.RunCommand | ai-workspace-helper/src/ai_workspace_helper/setup_core.py:185-209 | A command that fails takes the `.partial` with it; others only move the build on |
| Setup.Home.PutInPlace | ai-workspace-helper/src/ai_workspace_helper/setup_core.py:201-206 | The build replaces an existing version only when no helper runs |
| Setup.Home.InstallVersion | ai-workspace-helper/src/ai_workspace_helper/setup_core.py:165-210 | The folders gain exactly the new build, or are exactly as before; the failed command and the folder in use are told apart |
| Setup.Home.Install | ai-workspace-helper/src/ai_workspace_helper/setup_core.py:526-577 | An install refines the protocol with anything in between: refused only for a version that is there while a helper runs, failed only by a command, and otherwise installed; failed or refused leaves versions and state alone; installed sets current and previous; tidied only if no helper ran at the start, then to these two and what is held |
| Setup.Home.WriteState | ai-workspace-helper/src/ai_workspace_helper/setup_core.py:549-563 | Current and previous as written, `pending` gone |
| Setup.Home.RecordAndTidy | ai-workspace-helper/src/ai_workspace_helper/setup_core.py:549-570 | The state is written, then tidied only on the old answer "not running"; what the state names is never removed |
| Setup.Home.TidyFolders | ai-workspace-helper/src/ai_workspace_helper/setup_core.py:567-570 | Every folder is visited whatever comes in between: what is left is kept by the state or held |
| Setup.Home.TakeOver | ai-workspace-helper/src/ai_workspace_helper/setup_core.py:387-408 | Changes nothing unless started as the pending version, and then is the take-over of the protocol |
| Waits.ErrandContext.WaitForPerson | ai-workspace-helper/src/ai_workspace_helper/errands.py:65-90 | Renewals from the first note on are within `RENEW_S`, a second and seven calls; it asks once before and once each turn, shows and tells the card first, returns at the first answer that nothing is in the way, with the card told so, and fails no sooner than its limit, with the same answer each time, and at most a turn later |
| Waits.ErrandContext.HoldOn | ai-workspace-helper/src/ai_workspace_helper/errands.py:76-89 | The waiting loop, for the person or the login: each exit for its own reason, bounded gaps and a bounded end |
| Waits.ErrandContext.Turn | ai-workspace-helper/src/ai_workspace_helper/ext_ai.py:118-126 | A turn fails at the limit, renews when due and not before, and then sleeps |
| Waits.Helpers.constructor | ai-workspace-helper/src/ai_workspace_helper/ext_ai.py:102-106 | The limit counts from the start of the waits |
| Waits.Helpers.Tick | ai-workspace-helper/src/ai_workspace_helper/ext_ai.py:118-126 | One turn: never falls further behind by more than two calls, and not at all once it has slept |
| Waits.Helpers.WaitUntil | ai-workspace-helper/src/ai_workspace_helper/ext_ai.py:128-132 | Returns at the first yes, and fails at its limit only with a no each time it asked; renewals in time throughout; ends at most a turn after the limit |
| Waits.Helpers.WaitStill | ai-workspace-helper/src/ai_workspace_helper/ext_ai.py:134-144 | Returns only when every text seen over at least the last `seconds` was the same, and then within a turn; fails at its limit only when no text had stood that long; renewals in time |
| Waits.Helpers.WaitForLogin | ai-workspace-helper/src/ai_workspace_helper/ext_ai.py:146-170 | Asks once before and once each turn; returns at the first yes, with the card told so, and fails only with a no each time; what is left of the answer's limit is what was left before, but for the calls around the sign-in; renewals in time; bounded by its own limit |
| Waits.Helpers.SignedIn | ai-workspace-helper/src/ai_workspace_helper/ext_ai.py:167-170 | The limit moves by exactly the time since the sign-in began; the renewal clock starts anew |
| Waits.Helpers.NeverSlept | ai-workspace-helper/src/ai_workspace_helper/ext_ai.py:128-132 | Any number of waits that return at once leave the last renewal further back by a call each: the growth for waits that never slept is real |
| Waits.ClaimOutlives | ai-workspace-helper/src/ai_workspace_helper/errands.py:22-26 | With calls of up to seven seconds no claim of 120 seconds lapses between two renewals, and with calls of up to 0.6 the helper is never silent for 30 |
| Waits.Helpers.InTurn | ai-workspace-helper/src/ai_workspace_helper/ext_ai.py:99-170 | Over any sequence of waits, whatever becomes of each, two renewals are never further apart than `RENEW_S`, a turn and a fixed number of calls, unless waits that never slept follow one another, and then by five calls for each of the longest such run; and the time spent on anything but signing in is what was left of the limit, a turn, and five calls for each wait that never slept |
| Settle.Page.Settle | ai-workspace-helper/src/ai_workspace_helper/builtin_errands.py:148-206 | Each way out is exact: at the first verification there is, asked about before each look that sees an address; quiet at the first look up to which, for all of `QUIET_MS`, every look saw one address and no page on its way; at the deadline only without such a look, settled exactly when no look ever saw it move; no load is waited for twice running; it sleeps one look's time between looks and no longer |
| Settle.Page.Watch | ai-workspace-helper/src/ai_workspace_helper/builtin_errands.py:194-200 | A look restarts the quiet exactly when it saw a page on its way or another address, and the quiet is told exactly when it has lasted |
| Settle.Page.Arrive | ai-workspace-helper/src/ai_workspace_helper/builtin_errands.py:182-193 | A page on its way is neither waited for nor asked about; otherwise its load is waited for unless it was, and a verification asked about exactly when nothing started meanwhile |
| Settle.Page.AwaitLoad | ai-workspace-helper/src/ai_workspace_helper/builtin_errands.py:183-191 | A load is waited for only for another address than the last |
| Settle.LookFollows | ai-workspace-helper/src/ai_workspace_helper/builtin_errands.py:194-198 | "Moved" says exactly whether any look so far saw a page on its way or another address than the first |
| Controller.OpenedAreClosed | ai-workspace-helper/src/ai_workspace_helper/app.py:185-208 | In every good log as many Chromes were closed as opened, but for the one that is open |
| Controller.OneLoginALapse | ai-workspace-helper/src/ai_workspace_helper/app.py:243-248 | The login page is opened unasked at most once each time the polls turn to a missing login, exactly once when opening it never fails, and attempted at most once a poll that finds it missing |
| Controller.ThreeTries | ai-workspace-helper/src/ai_workspace_helper/app.py:188-201 | Chrome is given up exactly when all three starts fail, and otherwise is the first that did not |
| Controller.Controller.constructor | ai-workspace-helper/src/ai_workspace_helper/app.py:140-167 | Nothing open, nothing asked |
| Controller.Controller.Open | ai-workspace-helper/src/ai_workspace_helper/app.py:185-208 | Three tries: the Chrome of the first that starts, or none and that shown; its worker and, once, the updater over it, and what stands when one of them cannot be made |
| Controller.Controller.Close | ai-workspace-helper/src/ai_workspace_helper/app.py:316-321 | The Chrome that is open, if any, is closed, and no other |
| Controller.Controller.Reset | ai-workspace-helper/src/ai_workspace_helper/app.py:284-304 | Closes, opens again, and forgets the sign-in exactly when the profile could be moved and everything could be made; then asks for the login if Chrome came up |
| Controller.Controller.Apply | ai-workspace-helper/src/ai_workspace_helper/app.py:306-314 | Login, pause and resume act on the worker there is, and on nothing else |
| Controller.Controller.Do | ai-workspace-helper/src/ai_workspace_helper/app.py:219-231 | What each command does, and which ends the commands of this step |
| Controller.Controller.Step | ai-workspace-helper/src/ai_workspace_helper/app.py:210-258 | Commands, those sent meanwhile included, are taken in order, each done once; it ends exactly on quit, with no Chrome open; unless one of them ended the step it polls once they are all done, on a fresh Chrome when the one before is gone |
| Controller.Controller.PollChrome | ai-workspace-helper/src/ai_workspace_helper/app.py:232-258 | No poll without a worker; a Chrome the person closed is replaced first, paused as before |
| Controller.Controller.Poll | ai-workspace-helper/src/ai_workspace_helper/app.py:242-258 | A poll, the login it may need, and what is shown: an expiry only after a sign-in since the start or the last fresh profile |
| Controller.Controller.Run | ai-workspace-helper/src/ai_workspace_helper/app.py:274-282 | Over any run, whatever fails: at most one Chrome at a time, logins only as polls ask for them, expiry only after a sign-in, any other status as the last poll found it; quitting leaves none open; it dies exactly when the first Chrome's worker or the updater cannot be made; every command sent was done or still waits, in order |
| Controller.Controller.GuardedStep | ai-workspace-helper/src/ai_workspace_helper/app.py:276-282 | A step that raises shows an error and the life goes on; commands stay in order |
| Controller.Controller.TakeCommands | ai-workspace-helper/src/ai_workspace_helper/app.py:213-231 | The commands waiting and those sent while one is done are the ones taken, in order, and those still waiting |
| Worker.JobsAreAccountedFor | ai-workspace-helper/src/ai_workspace_helper/worker.py:133-172 | Every claimed job is in exactly one place: its row is in the history, its answer was not taken, it was cut short, or it is under way |
| Worker.OnlyTheLineIsServerTrouble | ai-workspace-helper/src/ai_workspace_helper/ext_ai.py:173-196 | What a site file raises, whatever its type, reaches the worker as a failure of the job unless it is the mark of the line to the server, and then as that line's own trouble; the only other way to such trouble is the converter raising it |
| Worker.RowTells | ai-workspace-helper/src/ai_workspace_helper/worker.py:108-120 | A row tells what was asked and on which site, that it was brought, or that it failed and why |
| Worker.SpacesAre | ai-workspace-helper/src/ai_workspace_helper/ext_ai.py:191-195 | What counts as nothing to read is what the language strips |
| Worker.AnswerIsBrought | ai-workspace-helper/src/ai_workspace_helper/ext_ai.py:191-197 | The page is the answer, converted when it is HTML and as it is otherwise, brought exactly when neither is blank and the conversion does not fail; otherwise what is said instead |
| Worker.ReasonIsShort | ai-workspace-helper/src/ai_workspace_helper/worker.py:153 | The reason told is what the failure says, or its name, and no more than 500 characters of it |
| Worker.Worker.constructor | ai-workspace-helper/src/ai_workspace_helper/worker.py:34-67 | Starts with nothing done |
| Worker.Worker.Tick | ai-workspace-helper/src/ai_workspace_helper/worker.py:69-98 | A tick's exchanges in order, the status and detail the last one comes to, a history row more exactly when that one was an answer taken or a result refused, and a warning only when a failure begins |
| Worker.Worker.CheckIn | ai-workspace-helper/src/ai_workspace_helper/worker.py:76-81 | Check-in, claim and job, each only after the one before was taken |
| Worker.Worker.Run | ai-workspace-helper/src/ai_workspace_helper/worker.py:133-172 | A claimed job has exactly one end: failed as unknown, failed with its reason, handed back, or cut short; the window is told that it starts, each site it is on, and that it is over |
| Worker.Worker.Fail | ai-workspace-helper/src/ai_workspace_helper/worker.py:136-156 | A failure is sent once, and recorded only if taken |
| Worker.Worker.HandBack | ai-workspace-helper/src/ai_workspace_helper/worker.py:160-172 | A result is sent once, and recorded if taken or refused |
| Worker.Worker.Live | ai-workspace-helper/src/ai_workspace_helper/worker.py:69-90 | Over any number of ticks, each that is not paused checks in once, each claimed job has exactly one end, and the jobs claimed are the history rows, the answers not taken and the jobs cut short |

## Left out

Whole parts:

- Browser, HTTP, `venv`/`pip`, shortcuts and the window: only what they come to, as choices and failures.
- Uninstalling, the precheck, the command builders, address masking (a parameter), the HTML test (a parameter), page scripts, `fetch`.
- `catalog_limits`, `parse_limit_from_error`, `is_context_overflow`, `detect_truncation`, `deferred_lookup` and the probe: registry data, patterns and network. The token counter and the rule of what is replayed are parameters (`ContextBudget.Counting`).
- Threads and locks inside one process.

Limits of the models:

- WorkCalendar.OffHoursCalendar.FindStretchId: local wall-clock time as day number and time of day; no time zones or daylight saving, no parsing of the window text, no first or last date, and the id is the day number rather than its text.
- ContextReducers.Reduce: the note is its kind and figures, not its wording; one message object standing twice in a list is not told apart from two equal ones.
- ContextBudget.BudgetThroughTheLadder: margins and ratios are `real`, so the rounding of floating point is not modelled.
- JsonLines.RoundTrip: the reader takes any escape but those of surrogates, and the spacing the program writes; lines spaced otherwise, values that are no strings, and surrogates count as lines that do not read. The file is the text that reading it gives, with line ends already turned into newlines.
- History.RecoveredRows: which rows come back is said for runs, and memory at their start, without U+0085, U+2028 and U+2029; `AddAgrees` and `AgreesForCleanRows` are the exact conditions, `NothingIsInvented` and `EarlierRowsStay` what holds of every run and row. A write that fails while the process goes on, and a file that cannot be read, are not modelled; a rewrite is whole or not at all.
- HistoryLength.RunStaysExact: a file ending in a break other than a newline, for which `FileStaysBounded` and `FileStaysShort` give the exact figures, and rows with one of the three characters.
- HistoryLength.FileStaysBounded: rows with one of the three characters, each of which takes several lines.
- HistoryLength.FileStaysShort: the same.
- HistoryLength.RewritesAreFarApart: counts adds between crashes; over runs with crashes `FileStaysBounded` bounds the file.
- SetupProtocol.ReachableStatesAreSafe: one installer at a time, and no `take_over` during an install. The question, removal and rename of lines 201-206 and a launcher's start are each one step; a failure between removal and rename, and a `.partial` that cannot be removed, are not modelled.
- SetupProtocol.WithdrawnRequestEndsNobody: says nothing of a helper that saw the request before; `WithdrawalComesInTime` does.
- Setup.Home.Install: the copied launcher files and the desktop shortcut; state fields other than current, previous and pending.
- Setup.Home.TakeOver: the launcher files it moves, and a failure between writing the state and removing folders.
- Waits.Helpers.InTurn: what a site file does between its waits takes no time in it.
- Settle.Page.Settle: the limit of a load wait is part of what that call costs; a page that raises ends the wait and is not modelled.
- Controller.Controller.Close: that Chrome is closed means it was told to; whether one that raises obeys is not modelled.
- Controller.Controller.Run: the updater's checks, what is shown while an errand runs, and the detail lines are left out. Waiting for the first command is having it there.
- Controller.OneLoginALapse: how often a failing attempt is made again is bounded only by the polls, as each poll makes one.
- Worker.Worker.Tick: the heartbeat's contents, the date, and a history that cannot be written are left out; the kind in the reason for an unknown job is quoted without escapes. The log lines of a finished or interrupted job are not modelled.
- Worker.OnlyTheLineIsServerTrouble: a site file that catches the mark itself is not told apart from one that fails.
