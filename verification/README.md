# Proofs about a recompiled game and its achievement client

A Dafny 4.11 project that models the parts of the repository whose correctness is hardest to see from reading one
function, and proves what they are for. `dafny verify dfyconfig.toml` checks all of it.

**Repaired code** (`RecompiledCode`, `StumpRepair`, `BranchRepair`, `EntryRepair`, `Recompiler`, `RepairedProgram`,
`RepairPipeline`, `RepairLimits`, `FlowGraph`, `FlowPaths`, `StumpLimits`). N64Recomp translates a game's MIPS
functions to C and gets three things wrong: functions cut short fall off their end, branches out of a function become
gotos to bogus labels, and a loop to a function's own entry skips its first instruction. Three scripts repair the C
text. The model has a small machine (plain instructions, branches and branch-likely with delay slots, jumps, calls and
returns over a stack of return addresses), the emitted bodies with their faults, the C semantics of labels, gotos,
blocks and nested calls, and the scripts' loops. The main result is a simulation in both directions: if the scripts
report nothing, a call visits exactly the addresses the machine code visits, in every function it calls too. Where it
assumes what real code can break (the spelling of branched-to functions, readable entries, the label behind the end,
skip labels), `RepairLimits` and `StumpLimits` give the exact condition, the latter as a path in the control-flow
graph of the decoded code.

**The achievement client's state** (`TimerQueue`, `IndicatorEvents`, `ProgressIndicator`, `LeaderboardTrackers`,
`PauseThrottle`, `AchievementList`). The sorted linked queue of timers is a heap of nodes rewired in place; the
progress indicator is driven by it through frames, idling, retries, pings, reset, loading and unloading; leaderboard
trackers are shared by reference count; pausing is rationed by a decaying penalty; the achievement list is counted
first and filled afterwards. Invariants are kept by every operation, so they hold over every run.

**Texts** (`JsonGrammar`, `JsonDocument`, `JsonReader`, `JsonAccepted`, `JsonRoundTrip`, `JsonStrings`, `JsonArrays`,
`JsonNotes`, `NotesRoundTrip`, `ChunkAllocator`, `FormEncoding`, `UrlBuilder`, `CodeNoteBatch`). The recursive-descent
JSON reader is a moving cursor proved against a grammar, and the grammar against a printer of documents in both
directions: it takes exactly what is the text of one. Strings unescape to the UTF-8 of RFC 3629; arrays are filled with
as many entries as were counted, numbers, strings and code notes converted from their own text; code notes and form
bodies, the latter written into a growing buffer of a chunk allocator, read back as what was put in.

**The camera** (`MatrixInverse`, `CameraHandOff`): an in-place Gauss-Jordan inverse and the display-list commands that
hand its result to the renderer.

**Concurrency** (`RecursiveMutex`, `HttpPipeline`): step systems over all interleavings, for safety and for progress.

Loops, arrays, linked nodes and objects of the original are methods over arrays and classes here; each is proved
against a function or predicate, and what the code promises is proved about those.

## What does not hold

The members named with each point are rows of the table below. They say when the code does what it promises and when
it does not; where a condition is stated, it holds in both directions.

- `end_reachable` does not know the `skip_N` labels of branch-likely. It calls the end of a body unreachable against
  the flow exactly if such a label is the last thing to move its verdict (`RepairPipeline.MisjudgedIff`), and the body
  then falls off exactly if the function's control flow has a path to such a branch (`StumpLimits.KeptFallsIff`,
  `LikelyLoopFalls`).
- `fix_backbranches` always writes `func_%08X` as the callee. If the dump names the section's function otherwise, the
  call enters another section's function, without a MISSING (`RepairLimits.RewrittenBranchEntersIff`,
  `OverlayBranchGoesAstray`).
- `fix_selfentry` only reads `func_X` and `static_S_X`; a function named otherwise keeps its wrong loop
  (`RepairLimits.EntryLoopExact`).
- The window of `fix_backbranches` reaches 8 bytes past the last instruction, so a branch to the next address is not
  rewritten; it arrives there exactly if the bogus label stands behind the last instruction
  (`RepairLimits.NextAddressReachedIff`, `SuccessorReachedIff`).
- Rescheduling a queued timer to before an earlier one closes a cycle, and time 0 for an unqueued one queues it at the
  end (`TimerQueue.Queue.Reschedule`); no call in the client does either (`ProgressIndicator.Client.MoveTimer`).
- The retry count is 32 bits wide and leaves the backoff schedule when it wraps
  (`ProgressIndicator.BackoffLeavesScheduleIff`).
- A leaderboard whose memory turns out invalid while its attempt runs never releases its tracker, which stays on
  screen even after the game is unloaded (`LeaderboardTrackers.Game.Unload`, `InvalidatedStaysShown`).
- The JSON reader refuses white space between the brackets of an empty container
  (`JsonRoundTrip.EmptyOnlyWithoutSpace`).
- `\b` and `\f` unescape to the letters b and f, and a high surrogate swallows a following `\u` escape that is not a
  low one (`JsonStrings.DecodedAsMeantIff`, `BrokenPairSwallowsA`).
- A `\u` escape is checked against the end of its value only if it is not the second of a pair, and its digits may be
  anything. On a value that the reader takes, the loop steps past the closing quote exactly if a backslash stands in
  front of that quote when it gets there, or a high surrogate is followed by a truncated escape
  (`JsonStrings.PastEndIff`, `TwoOverstep`).
- Switching leaderboards off by activating them without permission while one is running breaks the client's own
  invariant (`LeaderboardTrackers.Game.Activate`); the only such call is made before any can run.
- An entry of the code-notes array that is not an object ends the filling loop early, and num_notes is then larger
  than the number of notes written (`JsonNotes.FillNotes`, `NumberIsCountedAsNote`).
- The author kept from the code note before is compared with the next value's text, quotes and all, so a quoted author
  is never recognised, and is read again each time (`JsonNotes.HitIff`); a missing one is accepted while none is kept
  (`JsonNotes.TakeAuthor`).

## Model

| member | source | states |
|---|---|---|
| `StumpRepair.EndReachable` | tools/fix_stumps.py:43-57 | the loop over a body's lines returns what the recursive scan of those lines says, for every body; the scan is what the next rows are about |
| `StumpRepair.UnreachableEndNeverFalls` | tools/fix_stumps.py:43-57 | if a scan that revives at every label, however spelled, calls the end of a body unreachable, no run through that body ever reaches its closing brace, whatever the branch outcomes and the functions it calls, for any number of steps |
| `StumpRepair.KnownLabelsSuffice` | tools/fix_stumps.py:41-41 | in a body whose labels are all spelled `after_N` or `L_X` the script's scan is that scan, from any line and state on |
| `RepairPipeline.MisjudgedIff` | tools/fix_stumps.py:41-57 | for every emitted body: the script calls its end unreachable although a scan of every label calls it reachable if and only if the last thing that moves the verdict is the `skip_N` label of a branch-likely (from its goto on no other label, no exit) |
| `FlowPaths.FallsIffReachable` | tools/fix_stumps.py:43-57 | a generated function that fix_stumps has not chained can run off its closing brace under some branch outcomes if and only if the control-flow graph of the decoded code has a path from its entry to its end; a call is passed if and only if the callee can return |
| `StumpLimits.EndReachableIff` | tools/fix_stumps.py:41-57 | if the script calls the end unreachable, there is such a path if and only if there is one to a branch-likely whose `skip_N` label is the last thing that moves the verdict |
| `StumpLimits.KeptFallsIff` | tools/fix_stumps.py:43-57 | a function that the script keeps can, repaired, run off its closing brace under some branch outcomes if and only if there is a path in its control-flow graph to such a branch-likely, whether or not fix_selfentry can read its name |
| `StumpLimits.LikelyLoopFalls` | tools/fix_stumps.py:41-57 | an input where it does: two instructions and `bnel` back to the second, cut at the next symbol, is kept and falls off when the loop ends |
| `StumpRepair.DecodedAddrs` | tools/fix_stumps.py:81-81 | collects the decoded addresses of a body in order |
| `StumpRepair.ChainStumps` | tools/fix_stumps.py:73-120 | a function whose end is alive is chained, by one tail call at its end, exactly if its section is known and the dump has a function at last address + 4 in that section or the static of that name was generated; every other function is left as it is; no SKIP or WARN is printed if and only if every function with a live end has such a follower |
| `StumpRepair.ChainingIsIdempotent` | tools/fix_stumps.py:74-120 | a second run leaves a chained body alone: the added tail call makes its end unreachable |
| `BranchRepair.Span` | tools/fix_backbranches.py:72-75 | lowest and highest decoded address |
| `BranchRepair.CollectBadTargets` | tools/fix_backbranches.py:76-82 | exactly the branch targets of the body outside the half-open window |
| `BranchRepair.RewriteTargets` | tools/fix_backbranches.py:83-107 | rewriting one bad target after the other equals rewriting all of them at once, for exactly those at which the section has a function; `missing` is 0 if and only if that is all of them |
| `BranchRepair.FixBackBranches` | tools/fix_backbranches.py:70-109 | one function of the main loop, from the span to the rewritten body, and when it stays without complaint |
| `BranchRepair.BranchRepairIsIdempotent` | tools/fix_backbranches.py:66-112 | a second run finds nothing to rewrite |
| `EntryRepair.FindInsn` | tools/fix_selfentry.py:38-38 | the first line that decodes the address, the length if there is none |
| `EntryRepair.FixSelfEntry` | tools/fix_selfentry.py:30-49 | search, cut and paste put the entry label in front of the entry instruction and keep all other lines in order, in exactly the cases the script acts on |
| `Recompiler.RawAddrs` | tools/fix_backbranches.py:72-75 | an emitted body decodes its first instruction first, its last address last and nothing outside, so the window computed from the comments is the function's span plus 8 bytes |
| `Recompiler.RawBadTargets` | tools/fix_backbranches.py:76-82 | for an emitted body the bad targets are exactly the machine code's branch targets outside the window, whether or not fix_stumps has chained the body |
| `Recompiler.RawRetargeted` | tools/fix_backbranches.py:95-105 | fix_backbranches turns every exit of the span into a tail call and every stray label into a note, and touches nothing else |
| `Recompiler.EntryLabelCut` | tools/fix_selfentry.py:42-44 | cutting the first entry label out of a body with a misplaced one leaves the repaired lines, and the label was there to cut |
| `Recompiler.HalfRepairedEntry` | tools/fix_selfentry.py:34-44 | after fix_selfentry the entry label stands in front of the entry instruction, in the repaired shape |
| `RepairPipeline.RerouteAll` | tools/fix_backbranches.py:70-113 | both later scripts over a list of functions: each is rerouted, and nothing is missing if and only if every exit of every function has a function to go to |
| `RepairPipeline.RepairAll` | tools/fix_stumps.py:73-120 | all three scripts over a list of functions: each result is the composed repair of its input, one chained to a follower still ends with that call, and the run is free of SKIP, WARN and MISSING if and only if, in the terms of the dump's tables and the generated names, every live end has a follower and every branch out of a function has a function of its section to go to |
| `RepairPipeline.EndAliveIff` | tools/fix_stumps.py:43-57 | for every emitted function: the script calls its end alive exactly if there is a place, the entry, a branch target or a spot behind a label it knows, from which only plain instructions and branches follow |
| `RepairPipeline.EmittedReport` | tools/fix_stumps.py:73-120 | for every emitted function: it is looked after exactly if its end is alive, its follower is what starts behind its span in its section, and the scripts say nothing about it if and only if that is there when needed and every branch out of the span leads to a function of the dump |
| `RepairPipeline.RepairedShape` | tools/fix_backbranches.py:95-109 | on every emitted body without complaint the three scripts together produce the repaired shape |
| `RepairPipeline.RepairKeepsVerdict` | tools/fix_stumps.py:43-57 | if the flow can leave the repaired body at its end, a scan of the emitted body that counts every label has said so: the later scripts never make a kept body fall off |
| `RepairPipeline.ChainedToNext` | tools/fix_stumps.py:98-106 | the chained successor is a function of the same section that starts at the address behind the last decoded one |
| `RepairPipeline.RepairLinks` | tools/fix_backbranches.py:95-101 | a section repaired without complaint is linked: fall-offs and exits all enter the right function of the same section |
| `RepairedProgram.StepMatched` | tools/fix_selfentry.py:1-17 | one machine step from matching states, with matching return stacks, is followed by at least one step of the repaired C program to a matching state; calls, returns, jumps to other functions and branch-likely included |
| `RepairedProgram.RunMatched` | tools/fix_selfentry.py:1-17 | the same for every number of machine steps from a function's entry |
| `RepairedProgram.MachineIsFollowed` | tools/fix_stumps.py:1-24 | whatever the machine has visited after n steps, the C program visits too, and it has returned exactly if the machine has |
| `RepairedProgram.NothingElseHappens` | tools/fix_stumps.py:1-24 | after any number of C steps the visits are a prefix of the machine's, and the program is neither off the end of a body nor stuck |
| `RepairedProgram.LinkedRunsTheMachine` | tools/fix_backbranches.py:1-30 | both directions together for a linked section |
| `RepairPipeline.RepairedCodeMeansTheMachineCode` | tools/fix_backbranches.py:1-30 | main result: after the three scripts report nothing, calling any function of the section visits exactly the addresses the MIPS code visits from its entry, in order, inside the functions it calls as well, and returns when it returns, for all code, branch outcomes and run lengths |
| `RepairLimits.RewrittenBranchEntersIff` | tools/fix_backbranches.py:94-101 | in every run of a section after the three scripts, a taken branch out of the function, 3 or 4 C steps later, has entered the section's function at the target, with that visit next, if and only if the dump names that function `func_%08X` |
| `RepairLimits.OverlayBranchGoesAstray` | tools/fix_backbranches.py:94-101 | an input where it does not: the emitted jump of an overlay function at 0x800D9AB0 to the overlay's first function, whose name has the section as suffix; the script reports no MISSING and calls the function of another overlay |
| `RepairLimits.EntryLoopExact` | tools/fix_selfentry.py:30-37 | in every run of a section after the three scripts, a goto to the own entry visits the entry instruction next if and only if fix_selfentry can read the entry address off the function's name |
| `RepairLimits.NextAddressIsNotRewritten` | tools/fix_backbranches.py:75-80 | a branch to the address right behind the span lies in the window and keeps its goto |
| `RepairLimits.NextAddressReachedIff` | tools/fix_backbranches.py:75-80 | in every run of a section after the three scripts, such a branch visits the address right behind the span next if and only if the label made up for it stands behind the last instruction |
| `RepairLimits.SuccessorReachedIff` | tools/fix_backbranches.py:75-80 | it then enters the function that fix_stumps chained to the end, with the same visits and callers, and only then |
| `TimerQueue.Queue.Schedule` | src/ra/rcheevos/src/rc_client.c:6537-6557 | the new entry is put behind all entries due no later and in front of all later ones; all other entries keep their order; the pointers form an ending chain sorted by due time |
| `TimerQueue.Queue.FindSlot` | src/ra/rcheevos/src/rc_client.c:6544-6554 | the search ends at that place |
| `TimerQueue.InsertKeepsOrder` | src/ra/rcheevos/src/rc_client.c:6537-6557 | inserting there keeps a sorted list sorted, with everything behind the place strictly later (stable among equals) |
| `TimerQueue.Queue.Walk` | src/ra/rcheevos/src/rc_client.c:6559-6606 | how the one-pass remove-and-insert loop of reschedule ends on any sorted chain, including calls that close a cycle |
| `TimerQueue.WalkOutcome` | src/ra/rcheevos/src/rc_client.c:6559-6606 | each ending is a safe move or not, and after a safe one the queue is as asked |
| `TimerQueue.Queue.RescheduleChain` | src/ra/rcheevos/src/rc_client.c:6559-6606 | reschedule on the chain of nodes: the exact condition for success and what is left otherwise |
| `TimerQueue.Queue.Reschedule` | src/ra/rcheevos/src/rc_client.c:6559-6606 | the queue ends up as asked (entry once at its place, absent for time 0, others in order) if and only if a queued entry is not moved in front of an earlier one and an unqueued entry does not get time 0; otherwise no ending chain starts at the head, or the entry is queued at the end with time 0 |
| `TimerQueue.CycleHasNoEnd` | src/ra/rcheevos/src/rc_client.c:6559-6606 | pointers that come back to a node have no ending chain, so a tied queue is no queue at all |
| `TimerQueue.ChainUnique` | src/ra/rcheevos/src/rc_client.c:6537-6606 | one head leads along one chain only, so the chain in the contracts is the list the code walks |
| `TimerQueue.Queue.PopFront` | src/ra/rcheevos/src/rc_client.c:6511-6524 | idle takes the front entry out and leaves the rest as it was |
| `TimerQueue.Queue.DropPings` | src/ra/rcheevos/src/rc_client.c:3184-3197 | what is left is exactly the entries that are not pings of that game, in their order |
| `ProgressIndicator.BackoffSchedule` | src/ra/rcheevos/src/rc_client.c:4674-4705 | retry waits are 1, 2, 4, .. 64 seconds and then 120 for good, and the shift distance stays within 0..6 |
| `ProgressIndicator.BackoffLeavesScheduleIff` | src/ra/rcheevos/src/rc_client.c:5376-5407 | with the stored 32-bit count a failure stays on that schedule if and only if the count does not wrap |
| `ProgressIndicator.Client.HideTracker` | src/ra/rcheevos/src/rc_client.c:6095-6106 | a visible indicator's timer is taken out of the queue, all other entries keep their order, and a HIDE is decided; otherwise nothing happens |
| `ProgressIndicator.Client.UpdateTracker` | src/ra/rcheevos/src/rc_client.c:6127-6145 | the hide timer is queued once for two seconds from now, and the queue holds the other entries in their order; SHOW is decided if it was not queued, UPDATE if it was |
| `ProgressIndicator.Client.MoveTimer` | src/ra/rcheevos/src/rc_client.c:6095-6145 | every call of reschedule is safe under a monotone clock |
| `ProgressIndicator.Client.RaiseEvents` | src/ra/rcheevos/src/rc_client.c:6147-6168 | exactly the decided event is raised, and visible, queued and non-zero time agree again |
| `ProgressIndicator.Client.Frame` | src/ra/rcheevos/src/rc_client.c:6423-6466 | a frame with progress to show raises SHOW or UPDATE by whether the indicator is visible and moves the hide timer to its place for two seconds from now, any other frame raises nothing and leaves the queue; between calls the timer is queued exactly while its time is not 0, exactly while the indicator is visible |
| `ProgressIndicator.Client.ResetOrDeserialize` | src/ra/rcheevos/src/rc_client.c:6629-6667 | a visible indicator gets one HIDE and its timer leaves the queue, an invisible one gets nothing; all other entries stay in their order |
| `ProgressIndicator.Client.Load` | src/ra/rcheevos/src/rc_client.c:1889-1899 | a game starts; its first ping is queued at its place, due in 30 seconds, if and only if the hash is identified and spectator mode is not locked |
| `ProgressIndicator.Client.QueueActivate` | src/ra/rcheevos/src/rc_client.c:1935-1949 | the callback that finishes a load is queued in front of everything due later than time 0 |
| `ProgressIndicator.Client.Unload` | src/ra/rcheevos/src/rc_client.c:3138-3208 | the indicator is hidden with one event if visible, and of the entries queued before exactly the retries and activations are left, in their order |
| `ProgressIndicator.Client.RetryLater` | src/ra/rcheevos/src/rc_client.c:4674-4705 | a retry is queued at its place strictly after the sampled time, by the backoff schedule |
| `ProgressIndicator.Client.TimerElapsed` | src/ra/rcheevos/src/rc_client.c:6108-6125 | the elapsed timer raises one HIDE and its time becomes 0 |
| `ProgressIndicator.Client.PingAgain` | src/ra/rcheevos/src/rc_client.c:5723-5772 | a fired ping queues itself again at its place, due two minutes after the sampled time |
| `ProgressIndicator.Client.Resend` | src/ra/rcheevos/src/rc_client.c:4648-4705 | a fired retry is sent again; it is queued again, at its place by the backoff schedule and one retry on, exactly if it fails again |
| `ProgressIndicator.Client.FinishLoad` | src/ra/rcheevos/src/rc_client.c:1924-1933 | a fired activation loads its game exactly if none is loaded and no other load has begun, and queues that game's first ping, due in 30 seconds, exactly if the hash is identified and spectator mode is not locked; otherwise nothing changes |
| `ProgressIndicator.Client.Fire` | src/ra/rcheevos/src/rc_client.c:6529-6529 | the fired timer's callback runs once: the log of fired timers grows by it; a ping is queued again at now + 120000, a retry by its schedule exactly if it fails again, an activation loads its game exactly if it may and queues at most its first ping, and the hide timer raises HIDE; whatever is queued is due later than now |
| `ProgressIndicator.Client.FireDue` | src/ra/rcheevos/src/rc_client.c:6506-6531 | the idle loop ends; the callbacks run are exactly those of the entries due at the sampled time, in queue order, and every ping among them is queued again at now + 120000 |
| `ProgressIndicator.Client.Idle` | src/ra/rcheevos/src/rc_client.c:6492-6535 | the time is sampled once, between the clock before and after the call; the callback of each entry due by then runs once, in (time, insertion) order, and no other, so everything due when the call begins is fired; only later entries are left and none of them is lost; a fired ping is queued again at now + 120000, a fired retry by the backoff schedule exactly if it fails again, and no other fired entry; the game is the one the first activation that may load has named; HIDE is raised if and only if the hide timer was among the due ones |
| `IndicatorEvents.AlternatingLogIsCycles` | src/ra/rcheevos/src/rc_client.c:6095-6168 | a log in which SHOW comes exactly while invisible and anything else exactly while visible, which every operation above keeps, is (SHOW UPDATE* HIDE)*, followed by SHOW UPDATE* while visible |
| `LeaderboardTrackers.Board.Evaluate` | src/ra/rcheevos/src/rcheevos/lboard.c:176-259 | for any condition outcomes the exact next state of the attempt, the returned state and the value: it waits until the start condition is false, starts, is canceled or is complete; one that is canceled or complete waits anew, and an empty start condition never starts one |
| `LeaderboardTrackers.Tracker.Raise` | src/ra/rcheevos/src/rc_client.c:6297-6335 | from any pending bits the round raises SHOW, UPDATE, HIDE or nothing by count and screen alone; afterwards the tracker is on screen exactly while referenced, showing its value |
| `LeaderboardTrackers.ReportedAlternates` | src/ra/rcheevos/src/rc_client.c:6297-6335 | a round that adds to a tracker's events what is due keeps them (SHOW UPDATE* HIDE)*, adds at most one and leaves the tracker on screen exactly while referenced |
| `LeaderboardTrackers.Game.Search` | src/ra/rcheevos/src/rc_client.c:5205-5234 | the first tracker that can be shared, else the first unused one, with everything in front of it ruled out |
| `LeaderboardTrackers.Game.Allocate` | src/ra/rcheevos/src/rc_client.c:5200-5259 | over the trackers' own fields: the leaderboard gets the first tracker in use with its value definition and format, and its value unless that one's does not come from hit counts; else the first one out of use without a pending event, else a new one with the next id; every count stays the number of leaderboards holding the tracker |
| `LeaderboardTrackers.Game.DifferentNeverShare` | src/ra/rcheevos/src/rc_client.c:5205-5234 | between calls, in every run: leaderboards that differ in their value definition or format never hold the same tracker |
| `LeaderboardTrackers.Game.Release` | src/ra/rcheevos/src/rc_client.c:5261-5270 | the leaderboard holds no tracker and exactly its old one's count is one less |
| `LeaderboardTrackers.Game.Refresh` | src/ra/rcheevos/src/rc_client.c:5272-5280 | the held tracker takes the leaderboard's value |
| `LeaderboardTrackers.Game.React` | src/ra/rcheevos/src/rc_client.c:6257-6290 | the switch over the new state: start, update, cancel, submit and same-frame start and submit |
| `LeaderboardTrackers.Game.StepBoard` | src/ra/rcheevos/src/rc_client.c:6238-6294 | one leaderboard's round moves the attempt exactly by what its conditions say, sets STARTED, FAILED and SUBMITTED exactly by that transition, and the leaderboard tracks its value with a tracker if and only if the attempt runs; inactive and disabled ones are untouched |
| `LeaderboardTrackers.Game.DoFrame` | src/ra/rcheevos/src/rc_client.c:6423-6466 | a frame keeps counts, ids, sharing and events consistent; every leaderboard that is not inactive or disabled has made exactly the transition its conditions ask for and is tracked exactly while its attempt runs; STARTED, FAILED and SUBMITTED are raised for exactly the leaderboards that have just started, been canceled or completed, at most one each and in their order; every tracker gets SHOW or HIDE exactly if its count and screen differ, and at most an UPDATE otherwise; without permission nothing moves; trackers are only added |
| `LeaderboardTrackers.Game.RaiseTrackerEvents` | src/ra/rcheevos/src/rc_client.c:6297-6335 | every tracker's events grow by exactly the one due: SHOW if referenced and not on screen, HIDE if on screen and not referenced, UPDATE if on screen and marked, else none |
| `LeaderboardTrackers.Game.RaiseBoardEvents` | src/ra/rcheevos/src/rc_client.c:6337-6372 | for each leaderboard, in their order, FAILED if that is pending, else SUBMITTED, else STARTED, and no pending bit is left |
| `LeaderboardTrackers.Game.RaisePending` | src/ra/rcheevos/src/rc_client.c:6398-6421 | raising what the summary bits announce leaves no pending bit anywhere; each leaderboard's pending event is raised, in their order; every tracker gets SHOW or HIDE exactly if its count and screen differ, and at most an UPDATE otherwise |
| `LeaderboardTrackers.Game.StopAll` | src/ra/rcheevos/src/rc_client.c:5498-5522 | every enabled leaderboard gives its tracker back and ends in the asked state, waiting anew if that is active; all others keep state and attempt |
| `LeaderboardTrackers.Game.Reset` | src/ra/rcheevos/src/rc_client.c:6629-6667 | a reset keeps the invariant, adds no tracker, raises no leaderboard event, leaves every enabled leaderboard active and waiting anew, and every tracker gets SHOW or HIDE exactly if its count and screen differ, and at most an UPDATE otherwise |
| `LeaderboardTrackers.Game.Deactivate` | src/ra/rcheevos/src/rc_client.c:1645-1675 | deactivation keeps the invariant, raises no leaderboard event, leaves enabled leaderboards inactive, and every tracker gets SHOW or HIDE exactly if its count and screen differ, and at most an UPDATE otherwise |
| `LeaderboardTrackers.Game.Activate` | src/ra/rcheevos/src/rc_client.c:1603-1643 | with permission exactly the inactive leaderboards become active and wait anew, without it the active and the running ones become inactive; nothing is shown or hidden, and the invariant is kept if and only if there was permission or none was running |
| `LeaderboardTrackers.Game.MarkRunning` | src/ra/rcheevos/src/rc_client.c:6767-6797 | FAILED marks exactly the tracking leaderboards |
| `LeaderboardTrackers.Game.Restore` | src/ra/rcheevos/src/rc_client.c:6799-6858 | one restored leaderboard: a loaded running attempt keeps or gets a tracker showing the saved value, any other gives it back |
| `LeaderboardTrackers.Game.Deserialize` | src/ra/rcheevos/src/rc_client.c:6865-6906 | loading any saved attempts keeps the invariant and leaves every enabled leaderboard with its loaded attempt, tracked exactly while that runs; failing to load resets them all; no leaderboard is switched on or off and no leaderboard event is raised; every tracker gets SHOW or HIDE exactly if its count and screen differ, and at most an UPDATE otherwise |
| `LeaderboardTrackers.Game.Invalidate` | src/ra/rcheevos/src/rc_client.c:1315-1343 | the leaderboard is disabled and keeps the tracker it holds |
| `LeaderboardTrackers.Game.Unload` | src/ra/rcheevos/src/rc_client.c:3108-3136 | after unloading nothing is left on screen if and only if no disabled leaderboard holds a tracker; every tracker gets SHOW or HIDE exactly if its count and screen differ, and at most an UPDATE otherwise |
| `LeaderboardTrackers.Game.InvalidatedStaysShown` | src/ra/rcheevos/src/rc_client.c:1315-1343 | a leaderboard invalidated while its attempt runs leaves its tracker on screen even after unloading |
| `LeaderboardTrackers.Game.CountIsHolders` | src/ra/rcheevos/src/rc_client.c:5200-5280 | reference_count is the cardinality of the set of leaderboards that point at the tracker |
| `LeaderboardTrackers.Game.ShownWhileHeld` | src/ra/rcheevos/src/rc_client.c:6297-6335 | between calls a tracker is on screen if and only if some leaderboard points at it |
| `LeaderboardTrackers.Game.NothingShownIff` | src/ra/rcheevos/src/rc_client.c:3108-3136 | nothing is on screen if and only if no leaderboard points at any tracker |
| `PauseThrottle.Throttle.DoFrame` | src/ra/rcheevos/src/rc_client.c:6471-6487 | the in-place decay keeps 20 <= required <= 319 and decay <= 4 * required |
| `PauseThrottle.Throttle.CanPause` | src/ra/rcheevos/src/rc_client.c:6669-6713 | a refusal's frames_remaining is exact: a pause is granted after that many frames and after no fewer |
| `PauseThrottle.WaitIsExact` | src/ra/rcheevos/src/rc_client.c:6690-6697 | the same about the state alone |
| `PauseThrottle.GrantsApart` | src/ra/rcheevos/src/rc_client.c:6669-6713 | after a grant, whatever calls and frames follow, while fewer than `required` frames have run (at least 20) a pause is granted exactly if no frame has run at all |
| `PauseThrottle.EarlyPausesCost` | src/ra/rcheevos/src/rc_client.c:6699-6709 | a first pause requires 20 frames before the next; each pause taken before the decay of the one before has run out makes that 20 more, up to 300, for any waits |
| `PauseThrottle.LatePauseCosts` | src/ra/rcheevos/src/rc_client.c:6471-6487 | a pause after the decay has run out once finds the required frames halved, never below 20, and adds 20 to that |
| `PauseThrottle.PenaltyIsLifted` | src/ra/rcheevos/src/rc_client.c:6471-6487 | without pauses the penalty is gone within 7 * required + 60 frames and stays gone |
| `AchievementList.Refresh` | src/ra/rcheevos/src/rc_client.c:4293-4309 | the first pass brings every wanted achievement of the active subsets up to date and counts each bucket exactly |
| `AchievementList.CountBuckets` | src/ra/rcheevos/src/rc_client.c:4311-4350 | the numbers of buckets and entries to allocate for, from those counts |
| `AchievementList.FillShared` | src/ra/rcheevos/src/rc_client.c:4358-4394 | the shared buckets of the second pass, the two sorted ones each an ordered permutation of its picks and the others in the order of the subsets |
| `AchievementList.FillSubsets` | src/ra/rcheevos/src/rc_client.c:4396-4430 | the buckets that are split by subset |
| `AchievementList.ListIsPartition` | src/ra/rcheevos/src/rc_client.c:4243-4437 | every achievement with a bucket is listed exactly once, and nothing else is, for any subsets and both groupings |
| `AchievementList.ListIsSound` | src/ra/rcheevos/src/rc_client.c:4243-4437 | every entry is in the bucket of its mapped state, and no bucket is empty |
| `AchievementList.CountsAgree` | src/ra/rcheevos/src/rc_client.c:4311-4430 | the second pass emits exactly the buckets and entries that the first has counted, so neither allocation is overrun nor left short |
| `AchievementList.RefreshedIsReady` | src/ra/rcheevos/src/rc_client.c:4094-4158 | after the update every listed achievement has a bucket that the second pass visits |
| `AchievementList.ArrangedKeeps` | src/ra/rcheevos/src/rc_client.c:4381-4386 | sorting inside buckets changes neither what is listed, nor how often, nor where |
| `AchievementList.CreateList` | src/ra/rcheevos/src/rc_client.c:4243-4437 | about the achievements' own fields: every asked achievement of an active subset is listed exactly once and nothing else is; by lock state it is in UNLOCKED, LOCKED, UNOFFICIAL or UNSUPPORTED, and by progress also in RECENTLY_UNLOCKED, UNSYNCED, ACTIVE_CHALLENGE or ALMOST_THERE, exactly as its unlock, unlock time, waiting request, primed challenge and measured fraction say; buckets and entries stand in their order, the sorted ones sorted, and are as many as were counted |
| `AchievementList.BothPasses` | src/ra/rcheevos/src/rc_client.c:4293-4430 | the loops together: the list of the kinds the first pass has found, arranged bucket by bucket, is a partition, and both allocations are met exactly |
| `JsonReader.Cursor.FindClosingQuote` | src/ra/rcheevos/src/rapi/rc_api_common.c:57-76 | stops on the quote that ends the string, whatever backslashes come first, or reports that there is none |
| `JsonReader.Cursor.ParseField` | src/ra/rcheevos/src/rapi/rc_api_common.c:78-135 | the moving cursor takes exactly the value the grammar takes there, sets its span and, for a container, its entry count, and fails exactly where the grammar does |
| `JsonReader.Cursor.ParseArray` | src/ra/rcheevos/src/rapi/rc_api_common.c:137-166 | the same for an array, with array_size the number of elements |
| `JsonReader.Cursor.NextField` | src/ra/rcheevos/src/rapi/rc_api_common.c:168-200 | the same for one member |
| `JsonReader.Cursor.ParseObject` | src/ra/rcheevos/src/rapi/rc_api_common.c:202-247 | the same for an object; every requested field gets the span of the member its slot picks |
| `JsonReader.FillFindsNth` | src/ra/rcheevos/src/rapi/rc_api_common.c:226-234 | whatever names are requested, repeated ones included: a name's n-th request gets the member of that name with n others in front of it, or nothing |
| `JsonReader.FieldShrinks` | src/ra/rcheevos/src/rapi/rc_api_common.c:78-135 | whatever the reader takes, it takes just so when the text ends right behind it: a span can be parsed again by itself |
| `JsonDocument.ReaderInvertsPrinter` | src/ra/rcheevos/src/rapi/rc_api_common.c:78-135 | for every document (RFC 8259 sections 2 to 7 without exponents and white space in empty containers, and the few forms beyond it that the reader takes) the reader takes exactly the printed text and counts its entries |
| `JsonDocument.ElementsRead` | src/ra/rcheevos/src/rapi/rc_api_common.c:137-166 | the elements of a printed array are read as their exact spans |
| `JsonDocument.MembersRead` | src/ra/rcheevos/src/rapi/rc_api_common.c:202-247 | the members of a printed object are read with their names and the exact spans of their values |
| `JsonDocument.ItemsCount` | src/ra/rcheevos/src/rapi/rc_api_common.c:137-166 | as many spans as elements, each its element's text |
| `JsonDocument.MembersCount` | src/ra/rcheevos/src/rapi/rc_api_common.c:202-247 | as many members as entries, in order |
| `JsonAccepted.FieldIsDocument` | src/ra/rcheevos/src/rapi/rc_api_common.c:78-135 | whatever span the reader takes, at any place of any text, is the text of such a document, of the size it reports |
| `JsonAccepted.RefusedIff` | src/ra/rcheevos/src/rapi/rc_api_common.c:78-135 | a value is refused if and only if no document begins there |
| `JsonAccepted.TakenIff` | src/ra/rcheevos/src/rapi/rc_api_common.c:78-247 | a whole text is taken, with a size, if and only if it is the text of a document of that size |
| `JsonRoundTrip.RequestedFieldsFound` | src/ra/rcheevos/src/rapi/rc_api_common.c:202-247 | reading a printed object consumes exactly its text; for any requested names a field holds the exact text (and entry count) of the occurrence its place among equal requests asks for, or nothing if there is none |
| `JsonRoundTrip.OnlyRequestGetsFirst` | src/ra/rcheevos/src/rapi/rc_api_common.c:226-234 | the first request of a name gets the first occurrence of that name, wherever it is in the object |
| `JsonRoundTrip.EmptyOnlyWithoutSpace` | src/ra/rcheevos/src/rapi/rc_api_common.c:137-166 | a container without entries is taken if and only if there is no white space between its brackets |
| `JsonArrays.NextValue` | src/ra/rcheevos/src/rapi/rc_api_common.c:453-468 | the walk over an array meets its next entry if and only if there is one |
| `JsonArrays.GetUnum` | src/ra/rcheevos/src/rapi/rc_api_common.c:903-933 | the 32-bit value of the digits in front of the point, or a refusal exactly if the value does not begin with a digit |
| `JsonArrays.UnumReadsDecimal` | src/ra/rcheevos/src/rapi/rc_api_common.c:903-933 | every number below 2^32 reads as itself, with a fraction or without |
| `JsonArrays.FillNumbers` | src/ra/rcheevos/src/rapi/rc_api_common.c:470-499 | succeeds if and only if every entry begins with a digit, and the filled array then holds the number of every entry, in order; no write passes the allocation |
| `JsonArrays.FillStrings` | src/ra/rcheevos/src/rapi/rc_api_common.c:521-550 | the filled array holds the string of every entry, in order, up to the first that cannot be decoded, and that one gives the result |
| `JsonArrays.NextObject` | src/ra/rcheevos/src/rapi/rc_api_common.c:604-619 | the walk goes on exactly at an object entry and reads its requested fields |
| `JsonNotes.HitIff` | src/ra/rcheevos/src/rapi/rc_api_editor.c:107-110 | the author kept from the entry before is used again if and only if the text is the same and not a quoted string |
| `JsonNotes.TakeAuthor` | src/ra/rcheevos/src/rapi/rc_api_editor.c:107-123 | kept or read anew, the author is the one of the entry's own text; without one the entry is refused if and only if the author kept has a text |
| `JsonNotes.ReadNote` | src/ra/rcheevos/src/rapi/rc_api_editor.c:101-123 | an entry that is not deleted becomes the note of its own three values, or the first of address, note and author that cannot be read ends the loop |
| `JsonNotes.FillNotes` | src/ra/rcheevos/src/rapi/rc_api_editor.c:79-127 | the loop ends with the first entry that is no object or cannot be read; the notes written are exactly those of the entries before that are not deleted, in order; writing stays within the allocation; a final num_notes equals the notes written if and only if all entries are objects |
| `NotesRoundTrip.NotesReadBack` | src/ra/rcheevos/src/rapi/rc_api_editor.c:56-127 | round trip: for any printed array of objects that hold an Address that spells a number in hex, a User and a Note string, in any member order and with any other members, the notes left by that loop are exactly number, author and text of each entry in order, those whose Note is empty or two apostrophes left out |
| `JsonNotes.NumberIsCountedAsNote` | src/ra/rcheevos/src/rapi/rc_api_editor.c:79-127 | an input where it does not: [1] claims one note and writes none |
| `JsonStrings.Ucs32ToUtf8` | src/ra/rcheevos/src/rapi/rc_api_common.c:630-673 | for every 32-bit code the bytes of its form of 1 to 6 are written at the place given, and nothing in front of it changes |
| `JsonStrings.Utf8Decodes` | src/ra/rcheevos/src/rapi/rc_api_common.c:630-673 | those bytes decode back to the code by RFC 3629 section 3 |
| `JsonStrings.CodeDetermines` | src/ra/rcheevos/src/rapi/rc_api_common.c:630-673 | no other well-formed bytes stand for that code |
| `JsonStrings.DecodeBody` | src/ra/rcheevos/src/rapi/rc_api_common.c:703-773 | for every quoted value the reader takes, well-formed escapes or not, the loop writes what the walk over it gives, up to its end, an escape cut short or a step past the closing quote; neither that nor the NUL passes the len - 1 bytes reserved |
| `JsonStrings.PastEndIff` | src/ra/rcheevos/src/rapi/rc_api_common.c:714-773 | the loop steps past the closing quote if and only if it comes to a backslash right in front of that quote, or to a high surrogate whose second escape has less than four characters left, and the value is refused if and only if it comes to another escape with less than four; for all other values every write stays within those bytes |
| `JsonStrings.TwoOverstep` | src/ra/rcheevos/src/rapi/rc_api_common.c:728-752 | two values that the reader takes and that step past their end: a high surrogate and a bare `\u`, and an escape whose fourth character is a backslash |
| `JsonStrings.WalkIsLocal` | src/ra/rcheevos/src/rapi/rc_api_common.c:703-773 | what a value is decoded to depends on its own text only |
| `JsonStrings.PiecesDecode` | src/ra/rcheevos/src/rapi/rc_api_common.c:703-773 | every string written with RFC 8259 section 7 escapes, any four hex digits included, unescapes to the bytes of its pieces |
| `JsonStrings.DecodedAsMeantIff` | src/ra/rcheevos/src/rapi/rc_api_common.c:714-773 | those bytes are the text's UTF-8 if and only if no `\b` and no `\f` is decoded and no high surrogate is followed by a `\u` escape that is not a low one; an unpaired surrogate means U+FFFD |
| `JsonStrings.BrokenPairSwallowsA` | src/ra/rcheevos/src/rapi/rc_api_common.c:735-752 | an input where they are not: the escapes D800 and 0041 become one U+FFFD, and the A is lost |
| `JsonStrings.GetString` | src/ra/rcheevos/src/rapi/rc_api_common.c:675-784 | absent, null, quoted and bare values, for all that the reader takes; it fails if and only if there is none or an escape is cut short |
| `JsonStrings.PiecesAreBody` | src/ra/rcheevos/src/rapi/rc_api_common.c:57-76 | every escaped string is one that the reader takes whole |
| `ChunkAllocator.Buffer.Reserve` | src/ra/rcheevos/src/rc_util.c:55-90 | the first chunk with enough room is used, and a new one is added if and only if there is none; no write pointer moves |
| `ChunkAllocator.Buffer.Consume` | src/ra/rcheevos/src/rc_util.c:92-110 | exactly the bytes reserved become a region, the write pointer goes to the next multiple of 8 within the chunk, and regions stay disjoint |
| `ChunkAllocator.Buffer.Alloc` | src/ra/rcheevos/src/rc_util.c:112-117 | the region is aligned to 8, within its chunk and behind all earlier regions of that chunk |
| `ChunkAllocator.Buffer.Strncpy` | src/ra/rcheevos/src/rc_util.c:119-126 | the copy and its NUL are in a region of their own and no other region's bytes change |
| `UrlBuilder.Builder.NewSize` | src/ra/rcheevos/src/rapi/rc_api_common.c:1200-1212 | the doubling always ends with room for the text and the addition |
| `UrlBuilder.Builder.Reserve` | src/ra/rcheevos/src/rapi/rc_api_common.c:1193-1231 | growing, in place or into another chunk, preserves the text, the bytes in front of every write pointer and write <= end |
| `UrlBuilder.Builder.AppendEncoded` | src/ra/rcheevos/src/rapi/rc_api_common.c:1233-1279 | the loop over runs appends exactly the percent encoding of the string, and the bytes in front of every write pointer stay |
| `UrlBuilder.Builder.AppendParamEquals` | src/ra/rcheevos/src/rapi/rc_api_common.c:1288-1303 | an ampersand if there is text that does not end in a question mark, then name and equals sign |
| `UrlBuilder.Builder.AppendStrParam` | src/ra/rcheevos/src/rapi/rc_api_common.c:1321-1324 | appends the field of a form body |
| `UrlBuilder.Builder.AppendNumParam` | src/ra/rcheevos/src/rapi/rc_api_common.c:1305-1319 | the same for a number in decimal |
| `UrlBuilder.Builder.AppendParams` | src/ra/rcheevos/src/rapi/rc_api_common.c:1169-1324 | for any parameters, however often the buffer grows, reading the text gives them back in order, and the bytes handed out earlier stay |
| `UrlBuilder.Builder.Finalize` | src/ra/rcheevos/src/rapi/rc_api_common.c:1183-1191 | the text and its NUL are handed out as one region |
| `FormEncoding.DecodeInvertsEncode` | src/ra/rcheevos/src/rapi/rc_api_common.c:1233-1279 | decoding percent pairs and plus signs gives back every byte string |
| `FormEncoding.EncodedByByte` | src/ra/rcheevos/src/rapi/rc_api_common.c:1233-1279 | each byte is written by itself: the unreserved characters of RFC 3986 section 2.3 as they are, a space as a plus sign, any other as a percent sign and its two lower-case hex digits |
| `FormEncoding.ParseInvertsForm` | src/ra/rcheevos/src/rapi/rc_api_common.c:1288-1324 | splitting on ampersands and equals signs and decoding gives back every list of parameters |
| `FormEncoding.DecimalReads` | src/ra/rcheevos/src/rapi/rc_api_common.c:1305-1319 | decimal digits read back as the number |
| `FormEncoding.SignedReads` | src/ra/rcheevos/src/rapi/rc_api_common.c:1305-1319 | a minus sign and the digits behind it read back as the number, and a number that is not negative has none |
| `CodeNoteBatch.FillBuffer` | src/ra/rcheevos/src/rapi/rc_api_editor.c:233-258 | one piece is the escaped form of what it takes from the note, makes progress and stays below 512 bytes with its NUL |
| `CodeNoteBatch.AppendNote` | src/ra/rcheevos/src/rapi/rc_api_editor.c:229-264 | cutting a note into pieces changes nothing: what is appended is the encoding of the whole escaped note |
| `CodeNoteBatch.AppendBatch` | src/ra/rcheevos/src/rapi/rc_api_editor.c:222-267 | the loop over the entries appends the batch text, and a reader of it gets every entry back |
| `CodeNoteBatch.BatchReadsBack` | src/ra/rcheevos/src/rapi/rc_api_editor.c:222-267 | decoding, splitting at line feeds and the first colon and unescaping gives back every address with its note, CR dropped and LF as CR LF |
| `CodeNoteBatch.BatchInForm` | src/ra/rcheevos/src/rapi/rc_api_editor.c:219-267 | behind any parameters the whole body parses to them and to n with the decoded batch |
| `MatrixInverse.Invert4` | src/game/raytracing.cpp:58-105 | it returns true if and only if the elimination meets four pivots of at least 1e-12, and out times m is then the identity, for every matrix over the exact reals |
| `MatrixInverse.PivotsIff` | src/game/raytracing.cpp:58-105 | for every matrix with zeros below the diagonal in its first two columns, as a projection has them, that is so if and only if both those entries and the two pivots of the lower right corner are at least 1e-12 |
| `MatrixInverse.PerspectiveInverts` | src/game/raytracing.cpp:58-105 | every perspective projection whose scales and near plane are at least 1e-12 is inverted |
| `MatrixInverse.SingularHasNoInverse` | src/game/raytracing.cpp:58-105 | a matrix that sends a vector other than zero to zero has no such inverse, so it is never reported as inverted |
| `MatrixInverse.Exchange` | src/game/raytracing.cpp:68-81 | swapping rows from the c-th on keeps: right half times m is left half, and the first c columns are the identity's |
| `MatrixInverse.Normalize` | src/game/raytracing.cpp:83-86 | scaling the pivot row keeps that and puts 1 on the diagonal |
| `MatrixInverse.Clear` | src/game/raytracing.cpp:88-95 | clearing the column keeps that for one column more |
| `MatrixInverse.TracksReduced` | src/game/raytracing.cpp:88-95 | subtracting a multiple of a row keeps right half times m equal to left half |
| `CameraHandOff.ProductUndone` | src/game/raytracing.cpp:139-159 | a camera matrix times the left inverse of the projection, times the projection, is the camera matrix |
| `CameraHandOff.Camera.Latch` | src/game/raytracing.cpp:113-120 | the latched matrices are the 32 words of memory |
| `CameraHandOff.Camera.LatchMultiply` | src/game/raytracing.cpp:125-129 | only the product that is the camera matrix is latched |
| `CameraHandOff.Camera.DeriveView` | src/game/raytracing.cpp:139-159 | the view is derived if and only if the elimination inverts the latched projection; a derived view times that projection is the game's camera matrix, otherwise the latched view is kept |
| `CameraHandOff.Camera.Emit` | src/game/raytracing.cpp:131-175 | without a latched camera nothing is written; else only the 160 bytes at gfx change and the head behind them is returned; the view is derived exactly if the latched projection is inverted, and a derived view in memory times the projection in memory is then the camera matrix |
| `CameraHandOff.CommandsRun` | src/game/raytracing.cpp:166-174 | executing the four commands enables the extension, points it at the two inline matrices and branches over them to the returned head |
| `RecursiveMutex.StepKeepsInv` | src/ra/rcheevos/src/rc_compat.c:106-148 | every atomic step of every thread keeps the invariant that ties the lock, the two words and each thread's position together |
| `RecursiveMutex.RunKeepsInv` | src/ra/rcheevos/src/rc_compat.c:106-148 | the invariant holds in every state of every interleaving of any number of threads |
| `RecursiveMutex.RunIsExclusive` | src/ra/rcheevos/src/rc_compat.c:106-148 | at most one thread holds the mutex, the count is its nesting depth, a thread reads its own id as owner if and only if it holds the lock, and none waits for a lock it holds |
| `RecursiveMutex.AssertionFailsIff` | src/ra/rcheevos/src/rc_compat.c:121-148 | an assertion fails if and only if a thread unlocks what it does not hold |
| `RecursiveMutex.NobodyIsStuck` | src/ra/rcheevos/src/rc_compat.c:121-148 | a thread that is not waiting, or waits for a free lock, has a step |
| `HttpPipeline.StepKeepsInv` | src/ra/ra_client.cpp:146-218 | every step of every thread keeps: submitted jobs are delivered ++ being called ++ done ++ running ++ pending, every job made is submitted or still being called for, and there is one worker from the first job on |
| `HttpPipeline.RunKeepsInv` | src/ra/ra_client.cpp:146-218 | the same in every state of every interleaving |
| `HttpPipeline.DeliveredInOrder` | src/ra/ra_client.cpp:200-218 | callbacks have run for a prefix of the jobs in the order they were queued, and for all of them once nothing is left |
| `HttpPipeline.DeliveredOnce` | src/ra/ra_client.cpp:200-218 | no callback runs twice, even when callbacks submit more jobs |
| `HttpPipeline.EverythingIsDelivered` | src/ra/ra_client.cpp:146-218 | from any state of any run on, while no new call comes, the pipeline takes exactly as many steps as its jobs need, whichever thread moves; it can stop only when the callback of every job ever made has run |

## Left out

Repair scripts:

- switch tables, `fix_switches.py`, `readd_hand_edits.py` and the text encoding of the files: the model starts from
  lines that are already classified.
- what instructions compute: the model records which addresses are visited, and a branch outcome is an arbitrary
  function of the visits so far. A return goes back behind the call that is not yet returned from.
- RepairPipeline.RepairedCodeMeansTheMachineCode: a function of another section is taken to come back, and the visits
  inside it are not recorded.
- the callee names N64Recomp itself writes for calls and for jumps to other functions: `RepairedProgram.CallsSound`
  takes them to name the function the machine enters.
- calls and jumps through registers other than the return, and branch-and-link instructions.

Achievement client:

- ProgressIndicator.Client.Frame: the achievements' own triggers are one arbitrary input, whether some progress is to
  be shown.
- ProgressIndicator.Client.Fire: a server answer arrives at once or never within the call; what the server answers, and
  whether another load has begun, are inputs.
- ProgressIndicator.Client.Now: the clock is a natural number that does not run backwards, without wrap-around.
- LeaderboardTrackers.Board.Evaluate: what the conditions say in a frame, and the value, are inputs.
- LeaderboardTrackers.Tracker.Share: the count is 8 bits wide; a game has at most 255 leaderboards here, so it does
  not wrap.
- LeaderboardTrackers.Game.DoFrame: all leaderboards of the active subsets are one list, the pending bits of the game
  and of its subsets are one bit each, and a leaderboard without a runtime part is a disabled one. The request that
  submits an entry is sent with its event and not modelled further.
- AchievementList.CreateList: the bucket labels; an entry is a subset and an index instead of an address, percentages
  are reals, and among equals the sorting keeps any order.
- event handlers that call back into the client, calls from several threads, running out of memory, and the branches
  for an external client.
- loading a game asynchronously, hashing, condition parsing and evaluation, rich presence, and logging.

Texts:

- number exponents, quotes escaped in member names, date conversion and HTML error pages.
- JsonStrings.DecodeBody: once a value's decoding steps past its closing quote, what it then reads and writes.
- JsonNotes.FillNotes: an address that is a null pointer; an unsigned long is taken to have 64 bits.
- ChunkAllocator.Buffer.Alloc: an address is a chunk and an offset; chunks are as far apart as the system's allocator
  makes them.
- the result code of a builder after running out of memory.

Camera:

- MatrixInverse.Invert4: exact reals instead of floats.
- what the renderer does with the matrices; only the four commands' effect on its state is modelled.

Concurrency:

- RecursiveMutex.RunIsExclusive: sequential consistency, atomic accesses to each word, and a count that does not wrap.
- HttpPipeline.DeliveredInOrder: what a job does on the network is arbitrary, a URL that cannot be parsed is answered
  without the queue and not part of the model, and that a thread with a step eventually takes it is not claimed.
- the other lock implementations and the rest of the RA client: I/O and forwarding.
