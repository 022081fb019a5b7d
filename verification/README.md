# Verified models of bayma

Bayma is a server that runs code in sandboxed runtimes for its clients. These Dafny modules model
the small, dense, stateful pieces its correctness rests on: pieces whose steps interleave, whose
counters wrap, or whose input is cut anywhere. What changes variables step by step is a class or a
loop here too, proved against functions on values; the theorems are about those functions, over
every input or every run.

| file | models |
|---|---|
| `Sandbox.dfy`, `HeldStop.dfy`, `SandboxHook.dfy`, `SandboxRuns.dfy` | saving, restoring and resuming the sandbox: the work that holds files open, the stop SIGTERM begins, the hook's queued modes, and all of them as one transition system |
| `SandboxModes.dfy`, `SandboxExpiry.dfy`, `SandboxStops.dfy` | that system's modes, expiries and stops, by the events of its runs |
| `RunningTimeout.dfy` | timeouts that count only while the server runs |
| `Pids.dfy`, `AdvancePids.dfy` | reserving PIDs for stored process snapshots on a counter that wraps, and the helper that climbs there |
| `Chunks.dfy`, `PromptScan.dfy`, `ExecMarkers.dfy`, `Demultiplexer.dfy`, `RecentOutput.dfy` | scanners of streams cut into chunks, which keep a bounded tail |
| `ChannelBytes.dfy`, `ChannelFairness.dfy`, `Truncate.dfy`, `ExecText.dfy` | sharing a byte budget among an exec's channels and cutting each to its part |
| `Utf8.dfy`, `Utf8Decode.dfy`, `BoundedText.dfy` | UTF-8 (sections 3 and 4 of RFC 3629), and bounding a runtime's message in four languages alike |
| `HttpClient.dfy`, `HttpClientRuns.dfy`, `HttpPings.dfy` | one HTTP client's responses, idle timer and pings |
| `Publisher.dfy` | telling a client which resources changed |
| `Limiter.dfy`, `CopyTree.dfy`, `CopyRuns.dfy`, `Toolbelt.dfy`, `ToolbeltRuns.dfy` | at most so many operations at once, a tree copied through that, and an install that may die at any step |
| `Versions.dfy`, `VersionGrammar.dfy`, `LoadOrder.dfy` | which texts are versions, and their order; which libraries a skill carries and in which order they load |
| `Options.dfy`, `Basics.dfy` | a value or none, and what several modules use |

Between two awaits the source runs alone, so each such stretch is one step here. Handler outcomes,
timers, requests, signals and deaths are events that may come at any point; a run is a sequence of
events each enabled where it comes. A step's clock readings, what the kernel or the file system
answers, the order of strings `localeCompare` has, and what a payload decodes to are parameters.

## What the code does that its documentation does not say

- A restore refused as outlived guards the expiry alone: a `resume` asked later, or a `save` that
  fails later, still runs the server on, and no save after it expires (`SandboxRuns.OutlivedServerResumes`,
  `SandboxRuns.SavedRunsExactly`).
- A stop asked while the server is saved with a stop already held goes on with that one and also arms
  the next SIGTERM (`SandboxRuns.LeavingResolvesStops`).
- For pid_max's last PID, where the counter can be set, `advancePidsPast` leaves it just below that
  PID (`AdvancePids.Namespace.AdvancePidsPast`); `--wrap` with one PID free never returns
  (`AdvancePids.OneFreePidNeverWraps`).
- The reservation's bound is for a snapshot's highest PID. Another PID of its tree comes sooner than
  that exactly where the counter, from where it was, comes to it only past what it is moved past, and
  within the bound of there (`Pids.TreeStaysFreeExactly`, `Pids.LowerPidsOfTheTreeComeSooner`).
- Once a probe is answered, a cut of the kept tail may show a prompt that no line starts with, exactly
  where one stands at the cut (`PromptScan.WindowShowsPrompt`, `PromptScan.CutMayShowWhatIsNoPrompt`).
- Sharing the rest of the budget by length is monotone exactly where no channel filled is longer than
  what the shortest pending one gets, and max-min fair exactly where what those get spreads over a byte
  at most; a small budget may fail both (`ChannelFairness.MonotoneExactly`,
  `ChannelFairness.MaxMinFairExactly`, `ChannelFairness.SharingByLengthMayStarve`).
- An idle timer that fires before a client's session has its id closes the client's MCP server and
  transport, but releases no actor and arms no timer. So an open session may come to have no timer to
  close it exactly if a transport closed may still initialize one (`HttpClientRuns.UntimedExactly`).
- Prerelease words are in the platform's order, not in that of section 11 of Semantic Versioning
  2.0.0: versions are ordered by it exactly where the two agree on the words that decide
  (`Versions.RefinesPrecedenceExactly`, `Versions.WordsDecide`).
- `compareVersionPrecedence` takes any text, and goes round exactly where one that is no version has
  its place the other way between two that are (`Versions.GoRoundExactly`). Its callers
  (packages/runtime-dotnet-script/src/paths.ts:150-154 and tooling/src/provision/dotnet.ts:44-56) sort
  only valid versions, on which it is a total order (`Versions.VersionsOrderTotally`).

## Model

| member | source | states |
|---|---|---|
| SandboxRuns.EveryReachableState | packages/core/src/mcp/sandbox-hook.ts:116-263 | In every state of every run of hook, held stop, work and save: a held stop has its timer armed or the server is saved; every stop ever held was released, has gone on, or is held still, each once; only SIGTERM itself stops a saved server; between two modes the server is saved exactly while `savedAtMs` is set; a save neither restored nor resumed has its expiry coming unless outlived; once a save's wait for files settled no work holds files open; no waiter of `filesClosed` is left at zero; and a save has asked all stoppable work to stop |
| SandboxRuns.LeavesExactly | packages/core/src/mcp/sandbox-hook.ts:182-255 | A saved server leaves the save at exactly the steps that are asked to (resume, failed save, restore not refused), or that begin the expiry of the newest save of a server not outlived |
| SandboxRuns.LeavingResolvesStops | packages/core/src/mcp/sandbox-hook.ts:121-136 | Every step that leaves a save releases a held stop (restore) or goes on with it (all else) with the server running, and where none was held has a stop asked meanwhile arm the next SIGTERM for the wait; a restore drops both |
| SandboxRuns.AskedStopTakesNextSigterm | packages/core/src/mcp/sandbox-hook.ts:256-261 | A stop asked while saved, once the server runs on: the SIGTERM that comes within the wait stops it |
| SandboxStops.StopsExactly | packages/core/src/mcp/held-stop.ts:58-134 | What every step of every run calls, holds, releases, arms and times: `stop` is called by SIGTERM that stops at once, and by a held stop going on, never while the server is saved; a held stop is released by a restore that is not refused and by nothing else |
| SandboxStops.WaitEndsInStop | packages/core/src/mcp/held-stop.ts:80-81 | SIGTERM with no save: its timer may fire once the wait has passed, and not before, and then `stop` is called that once and nothing is released |
| SandboxStops.AskedStopSparesTheWait | packages/core/src/mcp/held-stop.ts:113-121 | A stop asked for first: a SIGTERM within the wait stops at once, and a later one is held |
| SandboxStops.AsksExactly | packages/core/src/mcp/sandbox-hook.ts:256-261 | A stop asked for while the server is saved is kept exactly until it runs on or is restored |
| SandboxExpiries.GivesUpExactly | packages/core/src/mcp/sandbox-hook.ts:203-214 | In every run: an expiry that comes to its turn has a saved server run on exactly if it is the newest save's and the server is not outlived, and changes nothing but the queue otherwise; if it does, the server has run, saved, for 600 seconds since that save ended |
| SandboxExpiries.ExpiryIsDueExactly | packages/core/src/mcp/sandbox-hook.ts:203-208 | The newest save's expiry is asked for exactly once 600 seconds were counted since it ended, and they are counted until then |
| SandboxExpiries.ExpiryBegins | packages/core/src/mcp/sandbox-hook.ts:205-213 | An older save's expiry, and any of an outlived server, does nothing |
| SandboxExpiries.SavesCount | packages/core/src/mcp/sandbox-hook.ts:201-202 | Saves are counted as they end, and `savedAtMs` is when the newest did |
| SandboxModes.FirstComeFirstServed | packages/core/src/mcp/sandbox-hook.ts:114-120 | In every run the modes begun, and then those that wait, are those asked for, in their order |
| SandboxModes.CollectsExactly | packages/core/src/mcp/sandbox-hook.ts:189-195 | Whatever comes meanwhile, a save that its handler caught collects garbage exactly if it was not asked to leave the sandbox running |
| SandboxRuns.QuietUntilRunOn | packages/core/src/sandbox.ts:54-74 | From where a save's wait for files settled until the server runs on, no work that holds files runs, for any number of workers and steps |
| SandboxRuns.SavedRunsExactly | packages/core/src/mcp/sandbox-hook.ts:203-214 | A run stays saved if and only if no step of it was asked to run on or gave up on the save; for an outlived server, if and only if none was asked to |
| SandboxRuns.OutlivedServerResumes | packages/core/src/mcp/sandbox-hook.ts:230-240 | A concrete run: the refused restore guards the expiry alone, and a resume asked afterwards has the outlived server run on |
| SandboxRuns.StepKeeps | packages/core/src/mcp/sandbox-hook.ts:178-263 | Every step, in any state with the invariant, keeps it |
| SandboxRuns.StaysSettled | packages/core/src/mcp/sandbox-hook.ts:182-196 | What a save waited for stays so through each step that leaves the server saved, under the same promise |
| SandboxRuns.HookChanges | packages/core/src/mcp/sandbox-hook.ts:121-196 | Requests, handlers and timers change what holds files in three ways only: not at all, by the resume, or by the save that then waits |
| SandboxRuns.TriesKeeps | packages/core/src/sandbox.ts:54-60 | Work that comes or is woken looks at `saved` again before it counts as running, and the count stays that of the running work |
| SandboxRuns.EndKeeps | packages/core/src/sandbox.ts:61-68 | Work that ends, however it does, is uncounted and stops being stoppable |
| SandboxHooks.RunOnKeeps | packages/core/src/mcp/sandbox-hook.ts:127-136 | Running on from a save, whatever was held or asked, leaves no stop held and the invariant whole |
| SandboxHooks.BegunKeeps | packages/core/src/mcp/sandbox-hook.ts:116-120 | Whatever mode or expiry is next in the queue begins with the invariant kept |
| SandboxHooks.SaveSettledKeeps | packages/core/src/mcp/sandbox-hook.ts:182-216 | A save that succeeds or fails, in its handler or its collection, keeps it |
| SandboxHooks.RestoreSettledKeeps | packages/core/src/mcp/sandbox-hook.ts:217-252 | So does each outcome of a restore: done, failed all the same, or refused as outlived |
| SandboxHooks.TickedKeeps | packages/core/src/mcp/sandbox-hook.ts:203-214 | And each second an expiry counts, up to the one that queues it |
| SandboxHooks.EnteredKeeps | packages/core/src/sandbox.ts:58-60 | No work starts while the server is saved |
| SandboxHooks.SandboxHook.Begin | packages/core/src/mcp/sandbox-hook.ts:178-261 | Its mode's stretch up to its first await, as its specification function has it, on the hook and on the sandbox and held stop it calls |
| SandboxHooks.SandboxHook.OnSave | packages/core/src/mcp/sandbox-hook.ts:192-215 | Past the save handler's await: on to the collection or the end, or running on as it throws |
| SandboxHooks.SandboxHook.OnRestore | packages/core/src/mcp/sandbox-hook.ts:218-251 | Past the restore handler's await, for each outcome |
| SandboxHooks.SandboxHook.OnTick | packages/core/src/mcp/sandbox-hook.ts:203-214 | A second of a save's expiry, which queues giving up once its time is counted |
| SandboxFiles.Sandbox.MarkSaved | packages/core/src/sandbox.ts:21-29 | Saved once only, and every stop registered is called |
| SandboxFiles.Sandbox.Leave | packages/core/src/sandbox.ts:61-68 | At zero every waiter is released, and none before |
| SandboxFiles.Sandbox.FilesClosed | packages/core/src/sandbox.ts:70-74 | Settled at once where no work runs, else waiting |
| HeldStops.BegunKeeps | packages/core/src/mcp/held-stop.ts:58-87 | SIGTERM keeps every stop accounted for |
| HeldStops.WentOnKeeps | packages/core/src/mcp/held-stop.ts:113-121 | Going on calls a held stop, with the server running, and leaves none held |
| HeldStops.ResumedKeeps | packages/core/src/mcp/held-stop.ts:103-111 | A resume leaves no stop held |
| HeldStops.WaitedKeeps | packages/core/src/mcp/held-stop.ts:130-134 | The wait's timer never stops a saved server, and leaves no held stop without a timer but while saved |
| HeldStops.HeldStop.Begin | packages/core/src/mcp/held-stop.ts:58-87 | SIGTERM: stops at once if armed for or with no wait, is held with a timer otherwise, and does nothing where one is held |
| HeldStops.HeldStop.Restore | packages/core/src/mcp/held-stop.ts:89-101 | A held stop is released, an armed one disarmed |
| HeldStops.HeldStop.GoOn | packages/core/src/mcp/held-stop.ts:113-121 | A held stop is called, or the next SIGTERM armed for the wait |
| HeldStops.HeldStop.Wait | packages/core/src/mcp/held-stop.ts:130-134 | The timer: goes on with a held stop unless saved |
| RunningTimeouts.EveryReachableState | packages/core/src/sandbox.ts:114-149 | However saves, polls and time interleave, a timeout is called at most once, and until it is called or cleared exactly one of its timer, its poll or the end of a save is to come |
| RunningTimeouts.CalledExactly | packages/core/src/sandbox.ts:123-139 | Its callback runs if and only if its poll passes with the server not saved; then it is not cleared and its time has gone since it was last armed |
| RunningTimeouts.StaysCleared | packages/core/src/sandbox.ts:141-147 | Cleared, it is never called nor armed again |
| RunningTimeouts.TakesItsTime | packages/core/src/sandbox.ts:130-139 | By the events of a run: its timer fires once, and not before, its time has passed since it was armed, at first or as a save ended, and its callback runs no sooner |
| RunningTimeouts.SavedStartsOver | packages/core/src/sandbox.ts:123-129 | Found saved as the timer fires, or at the poll past it, it is not called until the server ran on and it was armed anew |
| RunningTimeouts.RunningTimeout.OnTimer | packages/core/src/sandbox.ts:123-137 | Fired while saved it awaits the save's end, fired while running the next poll |
| RunningTimeouts.ResumeWait.Tick | packages/core/src/sandbox.ts:175-186 | A wait for a saved server settles with false at exactly the first tick that counts its time |
| RunningTimeouts.ResumeWait.OnResumed | packages/core/src/sandbox.ts:187-191 | And with true if the server runs on before, keeping what it settled with otherwise |
| Pids.PidsBeforeCountsHandedPids | packages/core/src/runtime/process-snapshots.ts:179-184 | The closed form is the step-by-step counter: `pid` is first handed out after exactly that many PIDs, and never where it is Infinity |
| Pids.WithinIsHandedOut | packages/core/src/runtime/process-snapshots.ts:147-149 | A snapshot is within the budget exactly if the counter hands out its highest PID in that many PIDs |
| Pids.PidReservation | packages/core/src/runtime/process-snapshots.ts:137-163 | The advance is to the furthest in-budget snapshot's highest PID and wraps exactly if that lies behind; the snapshots beyond the budget are all counted, with the nearest's need |
| Pids.ReservedPidsStayFree | packages/core/src/runtime/process-snapshots.ts:126-163 | Once moved there, no in-budget snapshot's highest PID is among the next max - 300 - budget PIDs |
| Pids.MovedPastExactly | packages/core/src/runtime/process-snapshots.ts:126-184 | Moved past any PID within the budget, a PID is not among the next max - 300 - budget if and only if it is never handed out, lies no further ahead than what was moved past, or lies further ahead of that than those |
| Pids.TreeStaysFreeExactly | packages/core/src/runtime/process-snapshots.ts:126-163 | So a whole process tree's PIDs stay free after a reservation if and only if that holds of each |
| Pids.MoveNeeds | packages/core/src/runtime/process-snapshots.ts:137-163 | The move hands out exactly the PIDs it needs, and crosses pid_max if and only if `wrapping` |
| Pids.EverySnapshotIsAnswered | packages/core/src/runtime/process-snapshots.ts:137-163 | No snapshot is forgotten: there is no advance exactly if all are beyond, and no beyond exactly if none is |
| Pids.LowerPidsOfTheTreeComeSooner | packages/core/src/runtime/process-snapshots.ts:126-135 | A concrete tree whose lower PID fails it: behind the counter already, it comes sooner than the bound for the highest |
| AdvancePids.ClimbReturnsExactly | packages/core/native/advance-pids.c:98-118 | The climb returns if and only if a free PID at or above the target is to come, past a wrap that is seen where one is asked for |
| AdvancePids.ClimbEndsExactly | packages/core/native/advance-pids.c:98-118 | The climb as the helper runs it, followed for turns enough, exits with 0 if and only if such a PID is to come |
| AdvancePids.ComesReturns | packages/core/native/advance-pids.c:104-118 | Given such a PID it returns after finitely many turns, with the cyclic distance to it as measure |
| AdvancePids.OneFreePidNeverWraps | packages/core/native/advance-pids.c:98-118 | Asked to wrap, with one PID alone free above the reserved ones and not behind, it is handed that PID for ever |
| AdvancePids.WrapIsSeen | packages/core/native/advance-pids.c:98-118 | Asked to wrap, a climb ends well only past a PID below the one before it, and at one at or above the target, unless it was read to have wrapped below the target already |
| AdvancePids.Namespace.ClimbTo | packages/core/native/advance-pids.c:98-118 | For every kernel, target and number of turns, by the PIDs handed out: each is the next free one, the climb ends with 0 at the first that is at or above the target, past one below the PID before it where a wrap is to be seen, and with 1 where none is free; and so it comes to what the climb's theorems are about |
| AdvancePids.Namespace.AdvanceTo | packages/core/native/advance-pids.c:72-119 | For every input, the helper's exit status, if it exits within so many turns, and the counter: as it was, just below the target where it can be set, or climbed by the PIDs handed out, as above |
| AdvancePids.Namespace.AdvancePidsPast | packages/core/src/runtime/process-snapshots.ts:479-510 | Resolves at once where the counter is past `pid`, rejects where no target is below pid_max, and otherwise does what the climb does; wherever it resolves the counter is at or past `pid` if and only if it did not set it just below pid_max's last PID; a wrapping climb resolves only once a PID below the one before it was handed out |
| PromptScan.WindowCountsMore | packages/core/src/runtime/process-transport.ts:508-514 | The prompts a chunk adds to the whole stream's count are the difference of its window's and its tail's, for every cut, though 1,024 characters are kept |
| PromptScan.MatchesAreLineStarts | packages/core/src/runtime/process-transport.ts:246-252 | `matchAll` from left to right finds exactly the prompts at the start and past the line ends: no match hides another |
| PromptScan.CountsLineStarts | packages/core/src/runtime/process-transport.ts:246-252 | The count is of the places that a prompt stands at, at the text's start or past a "\r" or "\n" |
| PromptScan.PromptCounter.OnText | packages/core/src/runtime/process-transport.ts:505-524 | After any chunk the count is the whole text's, and exactly the waiters it is past are resolved |
| PromptScan.PromptCounter.Resolve | packages/core/src/runtime/process-transport.ts:515-524 | The loop over the waiters resolves exactly those the count is past |
| PromptScan.ReadinessWaiter.OnText | packages/core/src/runtime/process-transport.ts:526-552 | However the answer is cut, it is found exactly as it first occurs in what has come, and the wait ends exactly with a prompt past it, or where the cut of the tail shows one |
| PromptScan.FoundInWindow | packages/core/src/runtime/process-transport.ts:527-538 | A text not found yet is found in the kept overlap and the next chunk exactly where it first occurs in the whole |
| Chunks.IndexOfIsFirst | packages/core/src/runtime/process-transport.ts:529-531 | The search gives the first place the text stands at, or that there is none |
| PromptScan.WindowShowsPrompt | packages/core/src/runtime/process-transport.ts:545-551 | With no prompt so far, a window shows one exactly if the text has one or the cut shows one |
| PromptScan.CutMayShowWhatIsNoPrompt | packages/core/src/runtime/process-transport.ts:545-551 | Whatever chunk comes next and whatever the tail ends with, so long as no line starts with a prompt: where one stands past the first of 1,025 characters, the cut shows it and the window counts it |
| ExecMarkers.CollectAll | packages/core/src/runtime/exec-markers.ts:100-149 | For every chunking, the envelopes handed out over all pushes and the end are the whole stream's, in order and each once; and with a mark that is no part of a prompt, each push's `done` and the end's are those of the whole window of what came so far |
| ExecMarkers.ParseExecWindow | packages/core/src/runtime/exec-markers.ts:63-98 | `done` if and only if a prompt line follows a done line; the envelopes are the lines' messages in order |
| ExecMarkers.AnswersAreTheWindows | packages/core/src/runtime/exec-markers.ts:110-133 | On any text, what the collector answers is what the whole window is: that it takes a done line for no prompt never differs |
| ExecMarkers.EnvelopesAreNoPrompts | packages/core/src/runtime/exec-markers.ts:151-165 | No line that parses as an envelope is a prompt: it holds the mark, which trimming leaves whole, and no prompt does |
| ExecMarkers.MarkersMark | packages/core/src/runtime/exec-markers.ts:24-30 | The mark of every nonce is a word of 48 characters, so part of no prompt of fewer |
| ExecMarkers.Utf8LineProjector.Push | packages/core/src/runtime/exec-markers.ts:39-49 | The lines the text so far ended, and the rest kept up to its cap |
| ExecMarkers.Collector.Push | packages/core/src/runtime/exec-markers.ts:136-141 | What a push hands out and answers, from what the collector has read and keeps |
| ExecMarkers.ReadsOn | packages/core/src/runtime/exec-markers.ts:32-49 | One more chunk, read on from the unended line, ends the lines the whole text then has |
| ExecMarkers.TextIsItsLines | packages/core/src/runtime/exec-markers.ts:39-49 | A text is its ended lines, each with its newline, and the unended one, none of which holds a newline |
| ExecMarkers.ReturnsEndLines | packages/core/src/runtime/exec-markers.ts:32-34 | A carriage return ends a line as a newline does, and all else is as it was |
| ExecMarkers.TrimTakesSpace | packages/core/src/runtime/exec-markers.ts:48-48 | Trimming a line's end takes all the white space there and nothing else |
| Demultiplexers.PushAll | packages/cli/src/docker.ts:417-435 | Frames and rest depend on the chunks' concatenation alone |
| Demultiplexers.DecodeCutAnywhere | packages/cli/src/docker.ts:411-435 | Decoding the encoding of any frames, cut anywhere, gives them back with nothing pending |
| Demultiplexers.DecodesEncoded | packages/cli/src/docker.ts:411-435 | The encoding of any list of frames of sizes below 2^32 decodes to the list |
| Demultiplexers.ReadsOn | packages/cli/src/docker.ts:417-435 | Reading on from what is left of a stream is reading on in the stream |
| Demultiplexers.WholeFrames | packages/cli/src/docker.ts:421-431 | The loop takes exactly the whole frames a buffer opens with |
| Demultiplexers.Demultiplexer.Push | packages/cli/src/docker.ts:419-434 | A chunk's frames and what is then pending, from what was pending and the chunk |
| RecentOutputs.AppendAll | packages/core/src/runtime/process-transport.ts:254-271 | However output was cut, what is kept is exactly the last 4 MiB of it |
| RecentOutputs.RecentOutput.Append | packages/core/src/runtime/process-transport.ts:254-271 | Each chunk leaves the end of what was kept and the chunk, and its length counted |
| ChannelBytes.AllocateChannelBytes | packages/core/src/mcp/exec-snapshot.ts:338-387 | No channel gets more than it holds; together they get exactly the budget, or all they hold where that is less; every channel water-filling passed gets all, and each left the floor or ceiling of its exact share, the larger remainders rounded up first |
| ChannelFairness.MonotoneExactly | packages/core/src/mcp/exec-snapshot.ts:338-387 | A longer channel is always given no less than a shorter if and only if the longest channel filled is no longer than what the shortest pending one gets, its floor raised or not |
| ChannelFairness.MaxMinFairExactly | packages/core/src/mcp/exec-snapshot.ts:338-387 | The bytes are shared max-min fairly, to the byte, if and only if what the pending channels get spreads over a byte at most |
| ChannelBytes.LeftForRemainders | packages/core/src/mcp/exec-snapshot.ts:364-386 | What flooring leaves is no more than the channels with remainders: the rounding always ends at zero |
| ChannelBytes.RoundedUpHaveRemainders | packages/core/src/mcp/exec-snapshot.ts:374-386 | Only a channel whose share is no whole number is rounded up, so none past its length |
| ChannelBytes.FillUp | packages/core/src/mcp/exec-snapshot.ts:344-361 | Water-filling ends with every channel left longer than an equal share of what is left |
| ChannelBytes.ShareOut | packages/core/src/mcp/exec-snapshot.ts:364-386 | The shares of what is left add up to it |
| ChannelFairness.SharingByLengthMayStarve | packages/core/src/mcp/exec-snapshot.ts:364-386 | Lengths 9, 11 and 1,000 with 30 to give fail both: they get 9, 0 and 21 |
| Truncate.SplitString | packages/core/src/mcp/truncate.ts:101-142 | The start kept ends at the last whole character that fits its half, and the end kept starts at the first from there that fits its own; the check that it starts past the start never fires |
| Truncate.CollectCharacterBoundaries | packages/core/src/mcp/truncate.ts:144-163 | The boundaries are those of all the text's characters, each starting where the one before ends |
| Truncate.FindCuts | packages/core/src/mcp/truncate.ts:118-134 | The loop finds both cuts among the boundaries |
| Truncate.SplitsDrop | packages/core/src/mcp/truncate.ts:101-142 | The end kept is the longest of all whole-character ends within its half, not only past the start kept |
| Truncate.SomethingIsDropped | packages/core/src/mcp/truncate.ts:83-92 | Of a text over its budget something is dropped |
| Truncate.KeptWithin | packages/core/src/mcp/truncate.ts:76-99 | What is kept of a text over its budget is no more than the budget and at most six bytes less |
| Truncate.TruncateWithByteBudget | packages/core/src/mcp/truncate.ts:76-93 | A text within its budget is kept; one over it keeps its longest start and end of whole characters that fit half the budget each, around the marker for what is dropped |
| Truncate.CutDivides | packages/core/src/mcp/truncate.ts:144-163 | Cut between characters, the bytes before and after are the text's |
| Truncate.CutsExactly | packages/core/src/mcp/truncate.ts:144-163 | A text may be cut everywhere but within a pair of surrogates |
| Truncate.MarkerSays | packages/core/src/mcp/truncate.ts:165-173 | The marker says, in decimal, the fewest tokens of four bytes that what was dropped fits in |
| ExecTexts.ProjectExecText | packages/core/src/mcp/exec-snapshot.ts:234-267 | Throws exactly for a limit not within 1 to 1,048,576. Truncated if and only if the channels hold more than 4 * maxOutputTokens bytes; then each is cut to its part, the parts add up to that, all channels together keep at most it and at most six bytes each less, and the original count is the rendered content's |
| ExecTexts.ContentJoinsSegments | packages/core/src/mcp/exec-snapshot.ts:140-156 | The content, rendered by lines, is the segments that hold anything, each without its last newline, with one newline between each two |
| ExecTexts.TruncateTextToByteBudget | packages/core/src/mcp/truncate.ts:47-61 | A normalized text cut to its budget, whether it was, and then the fewest tokens its bytes fit in, of four bytes each |
| ExecTexts.NormalizedKeepsLines | packages/core/src/mcp/exec-snapshot.ts:269-271 | Normalizing leaves no "\r" and the same lines |
| ExecTexts.UnchangedWithoutReturns | packages/core/src/mcp/exec-snapshot.ts:269-271 | It changes exactly the texts with a "\r", and is idempotent |
| BoundedText.BoundedFits | packages/core/src/runtime/output-capture.ts:23-60 | Over any bound, even below the marker's size, the result is well-formed UTF-8 of at most the bound, and within six bytes of it |
| BoundedText.BoundRuntimeText | packages/core/src/runtime/output-capture.ts:23-66 | For every text, surrogates that pair with none included, and every bound: the text itself where it fits, and what the bound leaves otherwise |
| BoundedText.PreviousUtf8Boundary | packages/core/src/runtime/output-capture.ts:68-78 | The loop moves a target back past continuations, clamped to the bytes |
| BoundedText.NextUtf8Boundary | packages/core/src/runtime/output-capture.ts:80-86 | And forward |
| BoundedText.BunBoundText | packages/runtime-bun/src/inspection.ts:17-31 | Bun's loops make the same text at the shared bound |
| BoundedText.CSharpBoundText | packages/runtime-dotnet-script/src/transport.ts:88-110 | C#'s do |
| BoundedText.PythonBoundsAlike | packages/runtime-python/src/transport.ts:46-57 | So do Python's slices decoded with errors ignored |
| BoundedText.MarkerWellFormed | packages/core/src/runtime/output-capture.ts:12-15 | The marker is 37 bytes of well-formed UTF-8, below the shared bound |
| Utf8.BackIsLongest | packages/core/src/runtime/output-capture.ts:68-78 | Moved back, a cut of well-formed bytes leaves the longest well-formed start within the target, and the rest well formed |
| Utf8.ForwardIsLongest | packages/core/src/runtime/output-capture.ts:80-86 | Moved forward, it leaves the longest well-formed end |
| Utf8.CutsAreNear | packages/core/src/runtime/output-capture.ts:68-86 | Neither cut is moved by more than three bytes |
| Utf8.SidesWellFormed | packages/core/src/runtime/output-capture.ts:88-90 | Wherever the next byte is no continuation, both sides of well-formed bytes are well formed |
| Utf8.IgnoringBeforeCut | packages/runtime-python/src/transport.ts:52-57 | Bytes cut anywhere decode, errors ignored, to the start moved back to a character |
| Utf8.IgnoringFromCut | packages/runtime-python/src/transport.ts:52-57 | And what follows a cut to the end moved forward to one |
| Utf8.EncodesWellFormed | packages/core/src/runtime/output-capture.ts:27-28 | Every UTF-16 text encodes to well-formed UTF-8 of the length `Buffer.byteLength` gives |
| Utf8Decoding.DecodesEncoded | packages/core/src/runtime/output-capture.ts:27-28 | What a text is encoded to decodes to it, but for surrogates that pair with none, which come to U+FFFD |
| Utf8Decoding.EncodesEveryPoint | packages/core/src/runtime/output-capture.ts:27-28 | Every code point's UTF-16 is encoded to its UTF-8 |
| HttpClientRuns.EveryReachableState | packages/core/src/mcp/http.ts:408-610 | In every run: one idle timer is armed, as its last response ended, exactly while no response is open, unless one has lapsed, having fired before the session had its id; while a stream is open either one ping timer is armed or one ping is out; the actor is released at most once; counts are those of the open responses and streams; and a lapsed timer has closed the client's server, so its session is initialized only by a transport that reopens |
| HttpClientRuns.ClosesExactly | packages/core/src/mcp/http.ts:415-426 | A session is closed by exactly: its end by client or server, its idle timer with no response open, an initialization that fails past its id, or a ping out of time on a stream still open that no stream's end voided |
| HttpPings.PingClosesExactly | packages/core/src/mcp/http.ts:486-522 | In every run, by its events: a ping closes its session and releases its actor if and only if its time ran out before it settled and no stream ended since it was sent |
| HttpPings.ServerClosesExactly | packages/core/src/mcp/http.ts:451-463 | The client's MCP server is closed by exactly its idle timer, a ping that closes the session, and an initialization that fails |
| HttpPings.IdlesSinceLastEnd | packages/core/src/mcp/http.ts:531-577 | In every run the idle timer was armed as the last response of the run ended, or as a restore counted for its end |
| HttpClientRuns.StaysClosed | packages/core/src/mcp/http.ts:415-426 | Closed, it stays so, its actor released that once and no timer left |
| HttpClientRuns.UntimedExactly | packages/core/src/mcp/http.ts:451-470 | A run comes to an open session that no response holds and no timer is to close if and only if a transport closed may still initialize one |
| HttpClientRuns.NeverLapsesInitialized | packages/core/src/mcp/http.ts:415-470 | A session that has its id and its timer never comes to that, whatever the transport does |
| HttpClientRuns.SettlingKeepsPing | packages/core/src/mcp/http.ts:486-522 | A ping that settles, for whichever reason, closes the session or has the next one timed |
| HttpClientRuns.StreamingKeepsPing | packages/core/src/mcp/http.ts:541-552 | A stream that begins or ends keeps the one ping or timer, and voids what it must |
| HttpClientRuns.StepKeeps | packages/core/src/mcp/http.ts:408-577 | Every step keeps the invariant |
| HttpClients.LiveExactly | packages/core/src/mcp/http.ts:555-569 | `live()` holds exactly while a response is open or `reconnectWindowMs()` is positive, saved or not |
| HttpClients.WindowIsWhatIsLeft | packages/core/src/mcp/http.ts:553-569 | With nothing coming meanwhile, a client stays live for just as long as `reconnectWindowMs()` says, 10,000 ms from its last response on, and all of that while saved |
| HttpClients.ClientSession.CloseClientSession | packages/core/src/mcp/http.ts:415-426 | Without a session id nothing; with one, timers cleared and the actor released the first time |
| HttpClients.ClientSession.CloseIdleClientSession | packages/core/src/mcp/http.ts:451-463 | The client's server closed, and then its session |
| HttpClients.ClientSession.TrackStream | packages/core/src/mcp/http.ts:541-552 | The response tracked, the stream counted, and a ping timed unless one is |
| HttpClients.ClientSession.OnPingSettled | packages/core/src/mcp/http.ts:502-522 | Past the ping's await |
| HttpClients.ClientSession.OnStreamEnd | packages/core/src/mcp/http.ts:544-549 | The stream uncounted, the ping out voided, and the timer cleared after the last |
| HttpClients.ClientSession.RestartTimers | packages/core/src/mcp/http.ts:570-575 | The idle timer armed anew as if the last response had just ended, unless one is open |
| Publishers.NothingIsLost | packages/core/src/mcp/events.ts:62-98 | However publishes, drains and changes of subscriptions interleave: what an event told a subscription of since it was last sent is pending or about to be sent, nothing is sent more often than published, something pending has a drain, and a flush can return only with nothing pending and nothing owed |
| Publishers.DrainEnds | packages/core/src/mcp/events.ts:70-97 | With nothing more published, the drain ends within five awaits |
| Publishers.UrisAreConcerned | packages/core/src/mcp/events.ts:16-33 | The URIs of an event are exactly those it tells of |
| Publishers.SendsAreAwaited | packages/core/src/mcp/events.ts:81-97 | What is sent is awaited, the list first and then the resources taken with it |
| Publishers.PublishedKeeps | packages/core/src/mcp/events.ts:62-68 | A publish at any await keeps that |
| Publishers.AdvancedKeeps | packages/core/src/mcp/events.ts:74-97 | So does each await's end, and `finally` |
| Publishers.Publisher.Publish | packages/core/src/mcp/events.ts:62-68 | What is pending, and the drain started unless one is |
| Publishers.Publisher.Advance | packages/core/src/mcp/events.ts:74-97 | A drain from one await to the next, and its end, which starts another where something came |
| Limiters.EveryReachableState | packages/core/src/runtime/toolbelt.ts:248-267 | In every run, aborted or not: no more works run than the limit, every slot is held by a work that has yet to give it back, none waits while one is free, and slots are given first come, first served |
| Limiters.FreesKeeps | packages/core/src/runtime/toolbelt.ts:261-265 | A work that ends or throws gives its slot back once, to whoever waits longest |
| Limiters.NoneStartsAborted | packages/core/src/runtime/toolbelt.ts:258-260 | Aborted, no more work starts |
| Limiters.StartsExactly | packages/core/src/runtime/toolbelt.ts:255-265 | Work starts exactly as it comes to its slot and finds no abort, and ends as it settles or finds one |
| Limiters.SomeWorkGoesOn | packages/core/src/runtime/toolbelt.ts:254-266 | While any work has yet to end, one that holds a slot has a step to take |
| Limiters.Limiter.Call | packages/core/src/runtime/toolbelt.ts:254-257 | A slot at once where one is free, the end of the queue otherwise |
| Limiters.Limiter.Release | packages/core/src/runtime/toolbelt.ts:261-265 | The slot to the first of the queue, or freed |
| CopyTrees.EveryReachableState | packages/core/src/runtime/toolbelt.ts:284-320 | In every run: an entry has one work in the limiter exactly while it is at an operation; a directory's entries begin once it was read, are all copied before its mode is set, and have all settled before it settles |
| CopyTrees.NeverDeadlocks | packages/core/src/runtime/toolbelt.ts:284-320 | While the copy has not settled, some entry has a step to take: none waits for a slot while holding one |
| CopyTrees.NothingIsLeftRunning | packages/core/src/runtime/toolbelt.ts:305-313 | Once the copy settles, failed or not, no entry is being copied, no slot is held and none waits |
| CopyRuns.AllIsCopied | packages/core/src/runtime/toolbelt.ts:284-320 | A copy that settles without failing has done for every entry of the tree what its kind takes, each operation once and in order: a link read and made, a file copied, a directory made (but the root), read, and, last, given its mode |
| CopyRuns.SettledHasDone | packages/core/src/runtime/toolbelt.ts:290-317 | So has each entry that settles without failing, in any run |
| CopyRuns.CopiesExactly | packages/core/src/runtime/toolbelt.ts:284-320 | With no abort, a copy that settles has not failed if and only if none of its operations did and the tree holds only directories, links and files |
| CopyTrees.StepKeeps | packages/core/src/runtime/toolbelt.ts:284-320 | Every step keeps the invariant, with the limiter's |
| Toolbelts.EveryReachableState | packages/core/src/runtime/toolbelt.ts:205-242 | For any number of installs of any versions, each dying at any step: the path holds nothing, or a toolbelt whose version file says true, its files whole and relocated; one install at a time holds the lock |
| Toolbelts.PathChangesExactly | packages/core/src/runtime/toolbelt.ts:350-351 | The path changes only as the lock's holder moves aside what is not its version, or renames its own whole toolbelt to where nothing is |
| Toolbelts.CompletedIsCurrent | packages/core/src/runtime/toolbelt.ts:221-242 | An install that ends without throwing leaves its whole version at the path and beside it only what it could not remove, whatever others died leaving |
| Toolbelts.Completes | packages/core/src/runtime/toolbelt.ts:205-242 | From any state it can be in, alone and with nothing failing, an install comes to its end with its version whole and nothing beside it |
| Toolbelts.DataRoot.MoveAside | packages/core/src/runtime/toolbelt.ts:348-350 | What is at the path, if anything, is moved aside |
| Toolbelts.DataRoot.RenameIntoPlace | packages/core/src/runtime/toolbelt.ts:351-351 | What was staged comes to be at the path |
| Toolbelts.DataRoot.RemoveTree | packages/core/src/runtime/toolbelt.ts:226-233 | A tree removed, or kept with the rest of it where that fails |
| Toolbelts.DataRoot.Throw | packages/core/src/runtime/toolbelt.ts:235-241 | An install that throws cleans up what it staged and gives the lock back |
| Toolbelts.FoundCurrent | packages/core/src/runtime/toolbelt.ts:214-218 | The unlocked check goes on to look beside the path exactly for its version, which is then whole, and ends there exactly if nothing is beside; it changes nothing |
| Toolbelts.FoundAlone | packages/core/src/runtime/toolbelt.ts:214-218 | With no other's step between, an install ends unlocked if and only if its version is at the path and nothing beside it |
| ToolbeltRuns.EndsExactly | packages/core/src/runtime/toolbelt.ts:205-242 | In any run of any number of them, an install that ends throws if and only if a step of its failed, the wait for the lock among them, and says that it installed if and only if it renamed its copy into place |
| ToolbeltRuns.RenamesMove | packages/core/src/runtime/toolbelt.ts:350-351 | The two renames move whole trees, and leave all else beside the path |
| ToolbeltRuns.RemovesExactly | packages/core/src/runtime/toolbelt.ts:225-233 | A removal leaves what it could not remove, which its install knows of |
| Toolbelts.OthersKeep | packages/core/src/runtime/toolbelt.ts:205-242 | An install without the lock changes nothing at the path or beside it |
| Toolbelts.StepKeeps | packages/core/src/runtime/toolbelt.ts:221-361 | Every step, failure and death keeps the invariant |
| Versions.CompareVersionPrecedence | packages/runtime-dotnet-script/src/paths.ts:52-94 | The sign of what the loops return is the order of the versions: precedence first, then their text |
| Versions.VersionsOrderTotally | packages/runtime-dotnet-script/src/paths.ts:52-94 | On valid versions that is a total order, zero only on equal strings, given a total string order |
| Versions.ComparesNumbers | packages/runtime-dotnet-script/src/paths.ts:43-50 | Stripped lengths and then digits compare unbounded digit strings as integers |
| Versions.RefinesPrecedenceExactly | packages/runtime-dotnet-script/src/paths.ts:52-94 | Any two valid versions of different precedence per section 11 of Semantic Versioning 2.0.0 are ordered so if and only if the string order has the words they first differ at as their characters do; always, where they do not first differ at words |
| Versions.WordsDecide | packages/runtime-dotnet-script/src/paths.ts:72-92 | Any two valid versions that first differ at words are ordered exactly as the string order has those two |
| Versions.GoRoundExactly | packages/runtime-dotnet-script/src/paths.ts:52-94 | Any three texts go round if and only if one is no version and has its place, by its text, the other way between two that are |
| Versions.OtherTextMayCycle | packages/runtime-dotnet-script/src/paths.ts:52-55 | Such are "9", "10" and "5x", where a string order has "10" before "5x" before "9" |
| VersionGrammar.ParsesWritten | packages/runtime-dotnet-script/src/paths.ts:9-37 | What is written as a version, its core, a prerelease past "-" and build metadata past "+", parses to its core and prerelease |
| VersionGrammar.ParsedIsWritten | packages/runtime-dotnet-script/src/paths.ts:9-37 | And what parses is so written |
| Versions.CompareCores | packages/runtime-dotnet-script/src/paths.ts:57-64 | The loop over the cores gives the first difference, the shorter filled up with zeros |
| Versions.ComparePrereleases | packages/runtime-dotnet-script/src/paths.ts:72-92 | The loop over the identifiers: numbers before words, numbers by value, the longer of two alike last |
| LoadOrders.NeededClosure | skills/bayma-platform-ardour/install.ts:235-251 | What is found is the least set with all that the files need and it needs itself, each where provided; a name it throws for is in every such set and provided nowhere |
| LoadOrders.FindNeeds | skills/bayma-platform-ardour/install.ts:240-248 | The loop over one file's needs |
| LoadOrders.CountsOrderLoads | skills/bayma-platform-mltpp/install.ts:157-163 | Sorted by how many others each needs, no library comes before one that it needs, if none needs itself in turn |
| LoadOrders.NeededNeedFewer | skills/bayma-platform-mltpp/install.ts:156-162 | A library needs only libraries that need fewer than it does |

## Left out

- AdvancePids.Namespace.ClimbTo: is followed for any number of turns given, and AdvancePids.Namespace.AdvanceTo and AdvancePids.Namespace.AdvancePidsPast so far where they climb, as a method that ends cannot go on for ever; AdvancePids.ClimbEndsExactly says exactly when turns enough end it.
- AdvancePids.Namespace.MakeProcess: no other process takes a PID during the climb, and each that ends frees its own.
- AdvancePids.Namespace.AdvanceTo: arguments that are no number, and a process that cannot be made though a PID is free.
- PromptScan.PromptCounter.OnText: text is free of ANSI escapes and decoded, and prompts are literals at a line's start; the expression and the streaming decoder are not modelled.
- PromptScan.ReadinessWaiter.constructor: the expected text is not empty, as no probe's is; its timeout is left out.
- ExecMarkers.CollectAll: text is free of ANSI escapes, and no unended line is past the projector's cap.
- ExecMarkers.ParseExecWindow: what a marked line's payload decodes to is a parameter.
- ChannelBytes.AllocateChannelBytes: shares are exact rationals where the source divides floating-point numbers, all far below 2^53.
- ExecTexts.ProjectExecText: any number of channels, of a whole-number limit.
- BoundedText.BoundRuntimeText: results are the UTF-8 of the texts; BoundedText.BunBoundText and the others take well-formed bytes, so what each runtime encodes a lone surrogate to is left out.
- Utf8.Ignoring: skips a byte at a time, where CPython skips what could begin a character at once; both keep the same characters.
- HttpClientRuns.EveryReachableState: timers are events without durations, and an idle timer's pause while the server is saved is that of RunningTimeouts; requests, authorization and the transport are left out, but for when it may initialize a session, and whether once closed is a parameter.
- Publishers.NothingIsLost: a send that fails counts as sent, as the source ignores it.
- Toolbelts.EveryReachableState: the installs share one class, with a method for each operation that a crash may follow; no one else writes at the path, a version's payload always holds the same files, and a directory removed in part is any directory.
- CopyTrees.EveryReachableState: steps are functions on values, as the source's calls keep no state of their own but the limiter's; what an operation on a file does is left out.
- Versions.CompareVersionPrecedence: the string order has digits of one length in their order, as every platform's does.
- LoadOrders.NeededClosure: what a file needs and where a name is first found are maps, in place of ELF files and directories; Ubuntu's packages, chosen by a like worklist in skills/bayma-platform-ardour/pin.ts, are not part of this model.
- HeldStops.HeldStop.Begin: what the sessions are told of a held stop is counted, not modelled.
- The stdio server, which has no held stop, and the hook's socket and its parsing.
- The keep-alive connections of `keepAliveRunning`, and Bun's bounded walk of a cyclic graph.
- Stores, checkpoints, the session manager, process spawning, telemetry, provisioning and downloads: calls into them are outcomes or left out.
