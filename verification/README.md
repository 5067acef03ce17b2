# A verified model of the locks, streams, codecs and stores

This project models, in Dafny, the parts of the repository where a mistake is
hardest to see: promise-chain locks and lanes, byte streams cut at arbitrary
places, the glob and canonical-JSON printers, settle-once promises, and the
versioned stores. `dafny verify dfyconfig.toml` checks all of it.

| module | models |
|---|---|
| `PathLock`, `PathLockInvariant`, `PathLockResults`, `KeyOrder` | `src/core/path-lock.ts`: every promise reaction is a step of a job queue |
| `GlobSyntax`, `GlobRegex`, `GlobMatch`, `RegExp` | `src/core/glob-match.ts`, down to the ECMAScript regular expression it builds |
| `GlobExpansion`, `GlobAlternation` | braces in those globs against their multiplied-out form |
| `OutputBoundary`, `BoundaryVerdicts` | `forwardUntilBoundary` of `src/computer/computer-js-runner.ts` |
| `NativeClient`, `NativeRuns` | `src/computer/computer-native-client.ts` |
| `RunnerSupervisor`, `SupervisorRuns` | one run of `src/computer/computer-js-runner-supervisor.ts` |
| `ActionProgram`, `ProgramLane`, `ProgramRuns` | `run`, the physical lane and exclusive programs of `src/computer/computer-runtime.ts` |
| `BrowserChains` | the promise chains of `src/browser/browser-service.ts` |
| `CanonicalJson`, `JsonReader` | `canonicalize` of `benchmarks/computer-use-flow-performance/canonical.ts` |
| `Positions` | position conversion of `src/code/typescript-language-service.ts` |
| `PorcelainStatus` | `parsePorcelainStatus` of `src/continuity/continuity-git-inspector.ts` |
| `ContinuityStore`, `ContinuityHistory`, `ContinuityResume` | the continuity tables, the resume registry and revalidation |
| `SessionLog` | `src/continuity/session-event-store.ts` |
| `WorkerStore`, `WorkerRuns` | `src/agent/worker-store.ts` |

How the modules are built. Objects whose methods change fields are classes;
each method's contract gives the whole new state as a function of the old one,
and the lemmas are about those functions and about every run of them. Code
that runs when a promise, a timer, a stream or the user's own callback says so
is modelled as events that may come in any order; what the outside world
answers (clocks, native replies, decoded frames, random ids, SQL selections)
is a parameter. Strings are restricted to the basic multilingual plane
without surrogates, so that a `char` is one UTF-16 code unit; bytes are numbers
below 256; clocks are reals.

What is assumed about the outside:

- Operations handed to the path lock end and take no path locks themselves.
- Random ids of requests, sessions and projects are arguments; where a
  collision can occur the code's own check is modelled.
- `localeCompare` is a consistent comparison; different keys may compare equal.
- Printing a finite number is injective except for the sign of zero and uses
  only the characters of JSON numbers.
- A stream calls back its writes in the order they were made, and a boundary is not empty.
- `settled` reactions run in the order in which they became ready (section 9.5
  of ECMA-262).

Where code and documentation disagree, or a natural reading is false, the
model follows the code and the exact condition is proved:

- A final `**` is documented to match everything; the compiled `.*` stops at a
  line terminator (`GlobMatch.FinalStarsDisagree`).
- `**` and braces are documented side by side, but the translator recognises a
  `**` only between slashes and the ends of the glob, not beside a brace or a
  comma: `{a/**,b}` does not match `a/x/y` (`GlobAlternation.BracesCutStars`).
  No glob accepts more than its expansions do. It accepts just as much if it
  has no slash, or if in no expansion (those with a class that has no member
  aside) two single stars make up a segment; for
  globs without a recognised `**` this condition is exact
  (`GlobAlternation.KeptIffNoSplit`). For others it is not necessary, since
  another `**` can cover the loss (`GlobAlternation.CoveredSplit`). An expansion
  is held against what its glob is, so with any slash in the glob against the
  whole path.
- Whether `forwardUntilBoundary` fulfils depends on how the stream was cut:
  exactly when some chunk ends with the boundary (`OutputBoundary.VerdictOnChunks`).
- The text `canonicalize` gives a value is independent of insertion order
  exactly when no two different keys of one object in that value compare equal,
  array indices aside, which `Object.entries` lists first and in ascending order
  however they were inserted (`CanonicalJson.IndependentIffUntied`);
  `localeCompare` calls canonically equivalent strings equal.
- An offset between a CR and its LF, or between a CR and the end of the text,
  has a position that is not accepted back (`Positions.LineColumnToOffset`).

## Model

| member | source | states |
|---|---|---|
| PathLock.PathLocks.WithCanonicalLock | src/core/path-lock.ts:5-13 | a call reads the tail of its key, chains onto it and becomes the new tail |
| PathLock.PathLocks.WithPathLocks | src/core/path-lock.ts:19-26 | duplicate targets are dropped, keys are sorted, and the first is locked at once; no targets means the operation runs at once |
| PathLock.PathLocks.CallOperation | src/core/path-lock.ts:23-25 | a granted lock takes the next key, or calls the user's operation after the last |
| PathLock.PathLocks.CleanUp | src/core/path-lock.ts:10-12 | the map entry is deleted only if it still is this call's promise |
| PathLock.PathLocks.RunReaction | src/core/path-lock.ts:7-12 | each promise reaction, one per turn of the job queue |
| PathLock.PathLocks.FinishOperation | src/core/path-lock.ts:7-8 | the user's operation settles, either way |
| KeyOrder.SortedKeysCorrect | src/core/path-lock.ts:22 | the keys are exactly the targets, each once, ascending |
| PathLockInvariant.ApplyKeeps | src/core/path-lock.ts:5-26 | every submission, promise reaction and finished operation keeps the queues, the nesting of locks and the pending reactions consistent |
| PathLockResults.JobsLockTheirTargets | src/core/path-lock.ts:19-26 | in every run the job of the j-th call locks exactly the targets that call asked for, each once and ascending |
| PathLockResults.OperationsEndOnce | src/core/path-lock.ts:19-26 | in every run a call is over exactly when its own operation ended, which happens once |
| PathLockResults.FirstComeFirstServed | src/core/path-lock.ts:5-13 | in every reachable state a call on a key has begun only if every earlier call on the key is completely over, whether it succeeded or failed |
| PathLockResults.OneRunsPerKey | src/core/path-lock.ts:5-13 | at most one operation runs per canonical key |
| PathLockResults.OperationHoldsKeys | src/core/path-lock.ts:19-26 | in every run, while the operation of a call is under way, the lock of every target the call asked for is held for it |
| PathLockResults.OperationsAreDisjoint | src/core/path-lock.ts:19-26 | in every run, calls whose operations are under way at the same time asked for disjoint targets |
| PathLockResults.MapHoldsOutstanding | src/core/path-lock.ts:3-13 | a key is in the map exactly while some call on it is outstanding, and then with the newest call: the guarded delete never drops a live queue |
| PathLockResults.DeadlockFree | src/core/path-lock.ts:19-26 | a reachable state in which nothing can happen has every job finished and an empty map, for any overlapping target lists |
| PathLockResults.EveryRunEnds | src/core/path-lock.ts:19-26 | without new calls every run is over within a number of steps given by a decreasing measure |
| PathLockResults.EveryJobFinishes | src/core/path-lock.ts:19-26 | from every reachable state the jobs already submitted can all be brought to their end, whatever has happened before |
| GlobSyntax.Translate | src/core/glob-match.ts:14-69 | the loop emits the translation of the glob's tokens and fails exactly on an unclosed brace |
| GlobSyntax.TranslateAt | src/core/glob-match.ts:17-66 | one turn of the loop: what is emitted and how far the index and brace depth move |
| GlobSyntax.ParsesIffClosed | src/core/glob-match.ts:42-55 | a glob has a syntax tree exactly when its brace depth returns to zero |
| GlobRegex.GlobParses | src/core/glob-match.ts:14-69 | the emitted text is a regular expression with the tree of the glob: groups balance and alternation stays inside them |
| GlobRegex.AnchoredParses | src/core/glob-match.ts:77 | the anchors bind the whole pattern |
| GlobRegex.TokenMatches | src/core/glob-match.ts:19-65 | the expression emitted for a token matches a piece of path exactly when the token accepts it |
| GlobRegex.GlobMatches | src/core/glob-match.ts:14-69 | the expression of a glob, followed by anything, matches exactly what the direct matcher accepts |
| GlobMatch.CompileGlob | src/core/glob-match.ts:71-82 | with the white space around the glob and then one leading `./` cut off: compilation succeeds exactly if what is left is legal, closed and has ordered classes, and the matcher accepts exactly the paths it describes, base names for globs without a slash |
| GlobMatch.CutsUnique | src/core/glob-match.ts:72 | what is left after cutting is one glob |
| GlobMatch.WhiteSpaceIgnored | src/core/glob-match.ts:72 | white space around a glob makes no difference |
| GlobMatch.DotSlashIgnored | src/core/glob-match.ts:72 | a leading `./` makes no difference exactly to globs that do not begin with one and, unless blank, not with white space |
| GlobMatch.AgreesWithoutFinalStars | src/core/glob-match.ts:3-6 | a glob that does not end in `**` compiles every `**` the translator recognises to its documented meaning, on every path |
| GlobMatch.OneLineSuffices | src/core/glob-match.ts:24-30 | on paths without line terminators every recognised `**` has its documented meaning |
| GlobMatch.StarsMiss | src/core/glob-match.ts:24-30 | any other glob that describes a path at all misses one it should match |
| GlobMatch.FinalStarsDisagree | src/core/glob-match.ts:24-30 | with the stars as the translator reads them, compiled and documented meaning agree on all paths exactly when the glob does not end in `**` or describes nothing |
| GlobMatch.PlainClassInhabited | src/core/glob-match.ts:56-64 | every class that is not negated and has no descending range has a member |
| GlobMatch.PlainGlobsDescribe | src/core/glob-match.ts:14-69 | a glob each of whose classes has a member describes some path |
| GlobExpansion.ExpansionsUnite | src/core/glob-match.ts:42-55 | on syntax trees a brace group is alternation: a glob accepts what one of its expansions accepts |
| GlobExpansion.TextRestores | src/core/glob-match.ts:17-66 | the tokens of a glob spell it, so an expansion has a text |
| GlobExpansion.ExpansionParses | src/core/glob-match.ts:17-66 | the text of an expansion, translated by itself, has that expansion's tree with stars that meet fused to `**`, and no other change |
| GlobAlternation.NeverTooMuch | src/core/glob-match.ts:3-6 | no glob accepts a path that none of its expansions, read as globs of their own, accepts |
| GlobAlternation.ExpansionLaw | src/core/glob-match.ts:3-6 | a glob without a slash, or none of whose expansions brings two single stars together to a segment, accepts exactly what its expansions do |
| GlobAlternation.CompiledAsPromised | src/core/glob-match.ts:71-82 | if besides it does not end in `**`, the compiled matcher accepts exactly that |
| GlobAlternation.SplitsMiss | src/core/glob-match.ts:21-32 | a glob with a slash, without a recognised `**`, and with two stars brought together in an expansion misses a path which that expansion accepts |
| GlobAlternation.KeptIffNoSplit | src/core/glob-match.ts:21-32 | for globs without a recognised `**`: compiled matcher and expansions agree on all paths exactly when the glob has no slash or no expansion, those with an empty class aside, brings two stars together |
| GlobAlternation.BracesCutStars | src/core/glob-match.ts:21-32 | `{a/**,b}` does not match `a/x/y`, which its expansion `a/**` matches |
| GlobAlternation.CoveredSplit | src/core/glob-match.ts:21-32 | `**/{**,x}` splits stars and still matches every path |
| OutputBoundary.Forwarder.OnData | src/computer/computer-js-runner.ts:59-81 | one chunk: search, forward, keep the tail, fail on trailing bytes |
| OutputBoundary.Forwarder.Write | src/computer/computer-js-runner.ts:35-57 | an empty or late buffer is not written; a throwing write fails the promise |
| OutputBoundary.Forwarder.OnWritten | src/computer/computer-js-runner.ts:39-46 | a write callback settles the promise when it was the last one awaited |
| OutputBoundary.TailSearch | src/computer/computer-js-runner.ts:59-80 | searching the kept tail and the next chunk finds what a search of the whole stream would |
| OutputBoundary.ForwardsUpToBoundary | src/computer/computer-js-runner.ts:16-87 | after any events, errors included, the bytes written are a beginning of the stream that reaches at most its first boundary, and a fulfilled promise means exactly the bytes before the boundary were acknowledged |
| OutputBoundary.WrittenIgnoresChunks | src/computer/computer-js-runner.ts:59-81 | in runs without errors, the end of the stream included, the bytes written depend on the stream alone, not on its chunks |
| OutputBoundary.VerdictOnChunks | src/computer/computer-js-runner.ts:63-74 | in runs without errors, with every write called back, the promise is fulfilled exactly when a boundary occurs and some chunk ends with the first one, and rejected exactly when it occurs and none does or the stream ends without one |
| BoundaryVerdicts.EventDecides | src/computer/computer-js-runner.ts:24-87 | in every run, errors included: an undecided promise is rejected by an event exactly if that is a failed stream or write, an end without a boundary, or bytes after the boundary, and fulfilled exactly if it is none, the boundary was seen and every write has been called back |
| BoundaryVerdicts.ErrorsReject | src/computer/computer-js-runner.ts:24-28 | any such error before the promise is settled rejects it, whatever follows |
| NativeClient.Client.Request | src/computer/computer-native-client.ts:91-139 | every early rejection, the poisoning duplicate id, and the pending entry of a sent request |
| NativeClient.Client.HandleData | src/computer/computer-native-client.ts:149-154 | a chunk is appended to the buffer and drained |
| NativeClient.Client.DrainFrames | src/computer/computer-native-client.ts:164-189 | the framing loop |
| NativeClient.Client.HandleFrame | src/computer/computer-native-client.ts:191-226 | a frame settles the request it names or closes the client |
| NativeClient.Client.FinishClose | src/computer/computer-native-client.ts:232-246 | closing rejects all pending requests in insertion order, once, and reports at most one fatal error |
| NativeClient.SplitJoins | src/computer/computer-native-client.ts:164-189 | every byte stream is the text of some newline-free lines and an unfinished rest |
| NativeClient.JoinSplits | src/computer/computer-native-client.ts:164-189 | and of only those |
| NativeClient.DrainReadsLines | src/computer/computer-native-client.ts:164-189 | draining a buffer is handling its lines one by one, then checking the rest against the limit |
| NativeClient.ChunksJoin | src/computer/computer-native-client.ts:149-189 | two chunks leave the client in the state their concatenation does |
| NativeClient.FramingIgnoresChunks | src/computer/computer-native-client.ts:149-189 | for every chunking of a stream the whole client state is that of splitting at newlines, cutting one CR, and rejecting empty or over-long lines and an over-long rest |
| NativeClient.FramesAreLines | src/computer/computer-native-client.ts:164-189 | the frames handled are the lines without their CR, up to the one that closed the client |
| NativeClient.RunIsSound | src/computer/computer-native-client.ts:91-246 | in every run calls, frames and settlements correspond, pending ids are distinct, and a closed client holds nothing |
| NativeClient.SettlesExactlyOnce | src/computer/computer-native-client.ts:91-246 | each call is pending or settled by exactly one resolve or reject, and settled once the client is closed |
| NativeClient.AnswersReachTheirCall | src/computer/computer-native-client.ts:207-225 | a value reaches only the call whose id is in the frame that carried it |
| NativeClient.FirstErrorSticks | src/computer/computer-native-client.ts:232-246 | once a run has failed, whatever events follow change nothing, except that each new call is rejected with that same first error |
| NativeClient.SettlementsStay | src/computer/computer-native-client.ts:91-246 | no later events of a run take back or replace a settlement |
| NativeRuns.AnswerResolves | src/computer/computer-native-client.ts:207-222 | in every run a line within the bound that decodes to an answer to a pending call resolves that call with its value, and leaves every other call and the client as they were |
| NativeRuns.RefusalRejects | src/computer/computer-native-client.ts:207-225 | a known error in answer to a pending call rejects that call with it and does nothing else |
| NativeRuns.LineCloses | src/computer/computer-native-client.ts:164-226 | a whole line closes the client exactly if it is too long, empty, malformed, names no pending call or carries an unknown error; then every pending call is rejected in order |
| NativeRuns.RestWaits | src/computer/computer-native-client.ts:164-172 | an unfinished line is kept, and closes the client exactly if it is too long already |
| NativeRuns.DataMaySplit | src/computer/computer-native-client.ts:149-154 | data may come in two parts at any place of any run |
| NativeRuns.RequestWaits | src/computer/computer-native-client.ts:91-139 | in every run a call with a good timeout, id and length on an open client waits for its answer |
| NativeRuns.RequestRefused | src/computer/computer-native-client.ts:96-124 | any other is rejected at once, and closes the client exactly if its id is empty or pending |
| NativeRuns.ThrowingWriteCloses | src/computer/computer-native-client.ts:131-137 | a throwing write closes the client and rejects its own call last |
| NativeRuns.FailureCloses | src/computer/computer-native-client.ts:127-162 | a timer, a failing stream and `close` close an open client, each with its own error |
| RunnerSupervisor.Runner.Append | src/computer/computer-js-runner-supervisor.ts:172-181 | output is counted and kept until the byte budget is exceeded |
| RunnerSupervisor.Runner.Succeed | src/computer/computer-js-runner-supervisor.ts:183-225 | a second completion, an over-long or unparsable result fails the run; otherwise the timer is disarmed and the child terminated |
| RunnerSupervisor.Runner.Fail | src/computer/computer-js-runner-supervisor.ts:160-170 | the first error ends the run and terminates the child |
| RunnerSupervisor.Runner.OnMessage | src/computer/computer-js-runner-supervisor.ts:233-254 | any message after completion, a malformed one or a worker exit fails the run |
| RunnerSupervisor.Runner.OnClose | src/computer/computer-js-runner-supervisor.ts:230-232 | a child that closes before completion fails the run |
| RunnerSupervisor.Runner.RunReaction | src/computer/computer-js-runner-supervisor.ts:160-225 | the reactions to the termination, in the order they were attached |
| RunnerSupervisor.Runner.OnStopTimer | src/computer/computer-js-runner-supervisor.ts:313-371 | the phases of termination when the child does not close in time |
| RunnerSupervisor.SettlesAtMostOnce | src/computer/computer-js-runner-supervisor.ts:141-328 | in every run one verdict at most, and one when the run is over; one SIGTERM at most, then one SIGKILL; `onTerminate` at most once |
| RunnerSupervisor.ResolvesWithAllOutput | src/computer/computer-js-runner-supervisor.ts:172-225 | a run is fulfilled only after the child closed, with all output it produced, within the budget; after completion the timer decides nothing |
| RunnerSupervisor.FirstErrorSticks | src/computer/computer-js-runner-supervisor.ts:160-170 | once a run has failed, whatever events follow, that first error still waits or is the one verdict ever given |
| RunnerSupervisor.ClosedChildSettles | src/computer/computer-js-runner-supervisor.ts:160-225 | once the child has closed, a run that is over cannot hang |
| SupervisorRuns.EventFails | src/computer/computer-js-runner-supervisor.ts:160-254 | in every run that has not failed, an event fails it exactly if it breaks the budget, comes too late, is malformed or is a failure of the child, timer or signal, and with that error |
| SupervisorRuns.FulfilledCarries | src/computer/computer-js-runner-supervisor.ts:183-225 | a fulfilled run carries exactly the output its child wrote and the result of its only `complete` message |
| SupervisorRuns.CompletionSettles | src/computer/computer-js-runner-supervisor.ts:205-225 | once the termination is over an accepted completion is fulfilled if the child has closed and rejected otherwise |
| SupervisorRuns.VerdictStays | src/computer/computer-js-runner-supervisor.ts:141-225 | a verdict, once given, stays the only one |
| ActionProgram.Attempt | src/computer/computer-runtime.ts:1080-1108 | one action: why it fails, what it sends or waits, and that neither outlasts the deadline |
| ActionProgram.Retain | src/computer/computer-runtime.ts:1045-1051 | the retained steps are always the last 256 completed ones |
| ActionProgram.Perform | src/computer/computer-runtime.ts:1068-1112 | actions are performed once each, in order, up to the first that fails |
| ActionProgram.Conclude | src/computer/computer-runtime.ts:1114-1138 | the final observation decides between completed and completed-unverified, never the failure of the program |
| ActionProgram.Run | src/computer/computer-runtime.ts:1004-1148 | for every program, clock and failure point: it starts exactly if the runtime is available and the input valid, short enough and allowed so long; every event ends by the start plus the timeout asked for and, except for owners, plus the configured runtime; a step times out only if the native side says so or such a bound is reached; completed waits are waited in full; `failedStepIndex` equals `completedCount` and is the first failing action, retained steps and truncation are exact, a request with an explicit wait gets that wait, up to a minute, and a second more unless the deadline is nearer, and inputs are released last whenever an action could have held them and otherwise only after an abort |
| ActionProgram.DeadlineIsNearest | src/computer/computer-runtime.ts:1021-1032 | the deadline is the nearest of the moments that bound the program |
| ActionProgram.RefusalMeans | src/computer/computer-runtime.ts:1008-1040 | what an input that is not admitted fails with |
| ProgramLane.Lanes.EnterLane | src/computer/computer-runtime.ts:562-567 | a task takes its place behind all earlier ones |
| ProgramLane.Lanes.BeginTask | src/computer/computer-runtime.ts:966-970 | a task starts when all before it have released the lane, unless the runtime is disabled by then |
| ProgramLane.Lanes.AskHelper | src/computer/computer-runtime.ts:1267-1273 | a task that holds the lane sends one request after another |
| ProgramLane.Lanes.LeaveLane | src/computer/computer-runtime.ts:568-572 | the lane is released when the work has settled |
| ProgramLane.Lanes.RunSession | src/computer/computer-runtime.ts:971-977 | a call on a session that accepts no more is rejected, any other queues in the session lane |
| ProgramLane.Lanes.CancelSession | src/computer/computer-runtime.ts:979-982 | cancelling closes and aborts the session |
| ProgramLane.Lanes.FinishWork | src/computer/computer-runtime.ts:994-999 | when the work ends the session is closed and drained |
| ProgramLane.Lanes.StartCall | src/computer/computer-runtime.ts:971-1000 | a call whose turn has come fails when the session is aborted; the drained session releases the inputs |
| ProgramLane.OneRequestInFlight | src/computer/computer-runtime.ts:961-1002 | in every run one request of the lane's tasks at most waits for its reply |
| ProgramLane.RequestsInOrder | src/computer/computer-runtime.ts:961-1002 | of any two requests sent in a run the first is of an earlier task, or of an earlier or the same call of the same program, and a release of inputs comes after all of its program's calls |
| ProgramLane.NothingBetween | src/computer/computer-runtime.ts:559-574 | in every run no other task's request comes between two of the same task |
| ProgramLane.SilentOnceCancelled | src/computer/computer-runtime.ts:971-982 | after a session is cancelled it sends nothing but the release of inputs |
| ProgramLane.ProgramsEndReleased | src/computer/computer-runtime.ts:994-1001 | a program that gave the lane back had released the inputs after all its calls |
| ProgramLane.NeverStuck | src/computer/computer-runtime.ts:961-1002 | while a task holds or waits for the lane some step can be taken: the nested lane never deadlocks |
| ProgramLane.StepDescends | src/computer/computer-runtime.ts:559-574 | every step of the lanes uses up part of a bounded amount of work |
| ProgramLane.RunsEnd | src/computer/computer-runtime.ts:961-1002 | without new tasks and calls every run ends |
| ProgramRuns.LogTellsTheStory | src/computer/computer-runtime.ts:961-1002 | in every run exactly what its events call for is sent, in order: each request a plain task asks for, each call of a session not cancelled before its turn, and the release |
| ProgramRuns.CallsTakeTheirPlace | src/computer/computer-runtime.ts:971-977 | a session accepts calls exactly until it is cancelled or its work returns, and each takes its place behind all earlier ones |
| ProgramRuns.CallIsSent | src/computer/computer-runtime.ts:971-1216 | a call whose turn comes with a request, its session not cancelled by then, sends it exactly once and before the release |
| ProgramRuns.AskedIsSent | src/computer/computer-runtime.ts:1267-1273 | every request a plain task asks for is sent |
| ProgramRuns.ReleaseIsSent | src/computer/computer-runtime.ts:994-999 | when the work has returned and the calls are over, the release is sent |
| BrowserChains.Chains.OnPage | src/browser/browser-service.ts:247-265 | an operation on a page is chained to the page's last one, if its chain is still in the map |
| BrowserChains.Chains.Shared | src/browser/browser-service.ts:234-245 | an operation on shared state is chained to the last one |
| BrowserChains.Chains.StartOperation | src/browser/browser-service.ts:225-229 | a close looks at the page chains when its turn comes |
| BrowserChains.Chains.DeleteChain | src/browser/browser-service.ts:261-263 | a chain is deleted only by the operation it ends in |
| BrowserChains.OperationsAreRequests | src/browser/browser-service.ts:224-265 | in every run the operations are those asked for, on the page asked for and in that order |
| BrowserChains.OneAtATime | src/browser/browser-service.ts:234-265 | operations of one chain run one at a time in the order they were asked for |
| BrowserChains.ChainsAreLive | src/browser/browser-service.ts:260-263 | a page has no chain only when nothing on it is outstanding; otherwise its chain ends in its last operation |
| BrowserChains.CloseWaits | src/browser/browser-service.ts:224-232 | the backend is closed only after every page operation asked for before the close looked is over |
| BrowserChains.PagesAreIndependent | src/browser/browser-service.ts:247-265 | the first unfinished operation of a page can always go on, whatever other pages do |
| BrowserChains.NeverStuck | src/browser/browser-service.ts:224-265 | while any operation is unfinished some step is possible, a draining close included |
| BrowserChains.RunsEnd | src/browser/browser-service.ts:224-265 | without new requests every run ends |
| CanonicalJson.QuoteUnique | benchmarks/computer-use-flow-performance/canonical.ts:32-45 | a quoted string can be read in only one way |
| CanonicalJson.TextsApart | benchmarks/computer-use-flow-performance/canonical.ts:32-45 | no text can be read as the beginning of another's, and equal texts come from values equal up to key order and the sign of zero |
| CanonicalJson.SameTexts | benchmarks/computer-use-flow-performance/canonical.ts:40-44 | when no two keys of one object in a value, array indices aside, compare equal, every value equal to it up to key order has the same text or the same error |
| CanonicalJson.OneTextPerValue | benchmarks/computer-use-flow-performance/canonical.ts:32-45 | when no two keys of one object in one of them, array indices aside, compare equal, two printed values share a text exactly when they are the same value |
| CanonicalJson.TiesShow | benchmarks/computer-use-flow-performance/canonical.ts:40 | any printable value in which two keys of one object that are not array indices compare equal, at whatever depth, has an equal value that a program can hold and that prints otherwise |
| CanonicalJson.IndependentIffUntied | benchmarks/computer-use-flow-performance/canonical.ts:40 | for a printable value: all equal values print alike exactly when no two keys of one object inside it, array indices aside, compare equal |
| CanonicalJson.PrintsJsonOnly | benchmarks/computer-use-flow-performance/canonical.ts:35-42 | printing fails exactly on values that hold a non-finite number or something undefined |
| JsonReader.RoundTrip | benchmarks/computer-use-flow-performance/canonical.ts:32-45 | a JSON reader gives every printed value back, up to key order and the sign of zero, and the keys of each object in the text ascend |
| JsonReader.ValueComesBack | benchmarks/computer-use-flow-performance/canonical.ts:32-45 | and does so whatever text follows the value |
| Positions.OffsetToLineColumn | src/code/typescript-language-service.ts:59-70 | the loop computes line and column of the offset, clamped into the text |
| Positions.LineColumnToOffset | src/code/typescript-language-service.ts:41-57 | an offset is returned exactly when it is the one at that position and not just after its line's trailing CR; the three failures are told apart |
| Positions.EndOfLine | src/code/typescript-language-service.ts:51-55 | the offsets of a line that are rejected are those just after its trailing CR |
| PorcelainStatus.ParsePorcelainStatus | src/continuity/continuity-git-inspector.ts:164-210 | the loop reads the fields in order, and each path list is cut to its smallest `limit` paths with an exact truncation flag |
| PorcelainStatus.BoundedPaths | src/continuity/continuity-git-inspector.ts:156-162 | the paths are the smallest `limit` of the set in ascending order |
| PorcelainStatus.ReadsWhatGitPrints | src/continuity/continuity-git-inspector.ts:171-199 | for every list of well-formed entries exactly their staged, unstaged and untracked paths are recovered, origins of renames and copies not counted |
| PorcelainStatus.ReadsNothingElse | src/continuity/continuity-git-inspector.ts:171-199 | accepted output says what some list of well-formed entries says |
| PorcelainStatus.MeantMembers | src/continuity/continuity-git-inspector.ts:185-191 | which status letters make a path staged, unstaged or untracked |
| ContinuityStore.Store.RegisterProject | src/continuity/continuity-store.ts:211-280 | a registration inserts all three rows or, on a duplicate id, alias or worktree path, none |
| ContinuityStore.Store.RebindProject | src/continuity/continuity-store.ts:358-405 | a rebind with the current version replaces roots and worktree and nothing else |
| ContinuityStore.Store.CheckpointProject | src/continuity/continuity-store.ts:407-462 | a checkpoint with the current version adds the next one |
| ContinuityStore.Store.UpdateOperationalState | src/continuity/continuity-store.ts:464-482 | only the two state columns change |
| ContinuityStore.Store.GetByAlias | src/continuity/continuity-store.ts:282-314 | finds the join of project, worktree and current record, or nothing if there is none |
| ContinuityStore.EveryStoreIsConsistent | src/continuity/continuity-store.ts:211-482 | after any transactions on an empty store alias keys and worktree paths are unique and the records of a project are exactly versions 1 to the current one |
| ContinuityStore.RecordsStay | src/continuity/continuity-store.ts:211-462 | a record once written never changes, rebinds included |
| ContinuityStore.VersionsCountCheckpoints | src/continuity/continuity-store.ts:358-459 | only committed checkpoints move a project's version, each by one |
| ContinuityStore.OneCheckpointWins | src/continuity/continuity-store.ts:412-423 | of checkpoints that expect the same version at most one commits |
| ContinuityStore.AliasFindsCurrent | src/continuity/continuity-store.ts:282-314 | every project is found by its alias, with its current record, and nothing else is |
| ContinuityHistory.TablesTellStories | src/continuity/continuity-store.ts:211-482 | after any transactions the three tables say exactly what a single account of each project says: its alias, roots, worktree and states, times and the list of its records |
| ContinuityHistory.CommitsAsTold | src/continuity/continuity-store.ts:211-482 | a transaction commits exactly if that account allows it: known or new id, free alias and path, latest version expected |
| ContinuityHistory.LastCheckpointIsCurrent | src/continuity/continuity-store.ts:407-462 | the current record is the one its last committed checkpoint was given |
| ContinuityResume.Registry.Register | src/continuity/continuity-resume-registry.ts:28-37 | a lease is moved to the end, and the oldest are evicted first |
| ContinuityResume.Registry.Require | src/continuity/continuity-resume-registry.ts:39-43 | a registered lease gives its context, any other none |
| ContinuityResume.RegistryKeepsLast | src/continuity/continuity-resume-registry.ts:28-37 | after any registrations the registry is the last 256 of all leases in the order they were last registered |
| ContinuityResume.RegistryHoldsRecent | src/continuity/continuity-resume-registry.ts:28-43 | a lease is held, with its latest context, exactly when fewer than 256 other leases were registered after it |
| ContinuityResume.RevalidateResumeContext | src/continuity/project-continuity-service.ts:344-370 | succeeds exactly when the registered context is what the store says now and the lease is for the registered roots |
| ContinuityResume.MatchesUntilCheckpoint | src/continuity/project-continuity-service.ts:270-363 | a context read by a resume still matches exactly when no checkpoint of the project has committed since and path, root and repository are those it read |
| ContinuityResume.ReachableAreValid | src/continuity/continuity-resume-registry.ts:28-37 | what revalidation requires of its registry and store holds after any registrations and transactions |
| ContinuityResume.RevalidatesExactly | src/continuity/project-continuity-service.ts:270-363 | from resume to revalidation, over any registrations and transactions: it succeeds exactly when fewer than 256 other leases were registered since, no checkpoint of the project committed, its place is unchanged and the lease is for its present roots |
| SessionLog.Store.CreateSession | src/continuity/session-event-store.ts:124-138 | a new session starts with event 1 and expects event 2 |
| SessionLog.Store.CloseSession | src/continuity/session-event-store.ts:148-169 | a close with the current revision appends the closing event |
| SessionLog.EveryLogIsSound | src/continuity/session-event-store.ts:124-169 | every log is numbered from 1 without gaps, `next_seq` is one past its end, and it ends in `session.closed` exactly when the session is closed |
| SessionLog.ApplyKeepsSound | src/continuity/session-event-schema.ts:69-71 | the trigger against gaps never fires |
| SessionLog.Store.ListEvents | src/continuity/session-event-store.ts:171-189 | a page is the next events after the cursor, with an exact `hasMore`; the three failures, a session of another project included, are told apart |
| SessionLog.TriggersNumberLogs | src/continuity/session-event-schema.ts:65-71 | whatever statements are attempted on the events table, its triggers alone keep every log numbered from 1 without gaps |
| SessionLog.TriggersOnlyAppend | src/continuity/session-event-schema.ts:65-71 | and keep every log append-only |
| SessionLog.LogsOfAnyLength | src/continuity/session-event-schema.ts:69-71 | logs of every length can arise under the triggers |
| SessionLog.OperationsWrite | src/continuity/session-event-store.ts:124-169 | the store's operations leave the events table as inserts under the triggers do |
| SessionLog.StoreLogsAreShort | src/continuity/session-event-store.ts:124-169 | today's operations write two events a session at most |
| SessionLog.CloseSucceeds | src/continuity/session-event-store.ts:148-169 | after any operations a close succeeds exactly on a living session of its project with revision 1 expected; each refusal is told apart |
| SessionLog.LogsOnlyGrow | src/continuity/session-event-store.ts:124-169 | so after any operations of the store a log keeps its events, and later ones only append |
| SessionLog.PagesReadTheLog | src/continuity/session-event-store.ts:171-189 | for a log of any length that is only appended to between pages, following the cursor with any limits reads every event once and in order |
| SessionLog.PagesSurviveWriters | src/continuity/session-event-schema.ts:65-71 | the same for any statements attempted on the events table between pages: the triggers make the log grow so |
| SessionLog.StorePagesReadTheLog | src/continuity/session-event-store.ts:124-189 | the same for the store's own operations between pages |
| SessionLog.PagesReachTheEnd | src/continuity/session-event-store.ts:183-188 | for such a log of any length, a page without more has reached the end and any other moves the cursor by its whole limit |
| WorkerStore.Store.GetStatus | src/agent/worker-store.ts:272-283 | reading marks all messages of the run read |
| WorkerStore.Store.ChangeWorker | src/agent/worker-store.ts:290-346 | what sending, sleeping and finishing do to a worker, its run and the retired list, and when they are refused |
| WorkerStore.Store.IsRetired | src/agent/worker-store.ts:348-351 | in every sound file, as any operations leave it, says whether the alias is that of one of the last 200 retirements |
| WorkerStore.BoundsHold | src/agent/worker-store.ts:208-346 | after any operations active workers stay within the limit though messages wake sleepers, inboxes stay within 200 and in send order, and a run is parked exactly when all its workers are terminal |
| WorkerStore.RunsEvolve | src/agent/worker-store.ts:290-346 | no operation makes a run it retains forget a message or leave a final state |
| WorkerStore.FinalStatesStay | src/agent/worker-store.ts:318-346 | over any operations a finished worker of a retained run keeps its state and its result |
| WorkerStore.NoUnreadLost | src/agent/worker-store.ts:208-346 | after any operations every message a retained worker ever received is still in its inbox or was shown by a status query |
| WorkerStore.RetiredAreLast | src/agent/worker-store.ts:339-351 | after any operations an alias is in the file's list exactly while it is among the last 200 retirements |
| WorkerRuns.OperationMeans | src/agent/worker-store.ts:290-346 | after any operations: a message, sleep or finish is carried out exactly on a worker that is not terminal, with a text of the right length and room or a read message in the queue; then its state, queue and result are what was asked for, and no other worker is changed |
| WorkerRuns.StatusMeans | src/agent/worker-store.ts:272-283 | a status query leaves every message of its run read and shown, and nothing else changed |
| WorkerRuns.SpawnMeans | src/agent/worker-store.ts:220-270 | spawning adds a run of active workers with empty queues and drops the oldest run beyond the bound |

## Left out

- `canonicalizePath`, `realpath`, digests, HMAC and random ids: functions or arguments; the model starts from canonical paths, lease digests and ids.
- Surrogates, paired or lone: a string holds no character outside the basic multilingual plane, so `?`, columns and the code-unit sort on such text, and the `\udXXX` escapes of JSON.stringify, are not modelled.
- `withPathLock`: one target of `withPathLocks` without sorting.
- The order in which several `canonicalizePath` calls of `withPathLocks` finish: a submitted job is one whose targets are already canonical.
- Back-pressure (`pause`, `resume`, `drain`) in `forwardUntilBoundary`: it changes when chunks arrive, not what is done with them.
- Unicode normalization of aliases and the JSON schemas of the stores: values come in validated.
- Decoding, parsing and validating one native frame: a function of the frame's bytes.
- Starting the child process, RPC calls into the runtime and the pre-spawn refusals of the JS supervisor; a failing RPC is an event.
- When timers fire and the operating system reports a closed child: events that may come at any time, so only safety and progress given such events are proved.
- Validation of single actions (`preparedAction`) and of native results: an action is valid or not, a result flawed or not.
- ContinuityResume.RevalidateResumeContext: the inspection of the worktree's Git identity that follows the comparison is not modelled, because it is a call into Git.
- Limits that are refused when a client or registry is built: they are taken as given.
- ActionProgram.Run: says of a wait that is aborted only that it fails; how the sleep is cut short is not modelled.
- The microtask turns inside `PhysicalActionLane` and the browser chains: a reaction is a step that may be taken at any time after the promise it waits for has settled.
- `screenshot` and the reads outside a session, which do not use the lane.
- Inputs of `canonicalize` that are not JSON-like (functions, dates, sparse arrays), and the signing around it.
- Decoding of Git's output: it is read as text.
- SQLite itself: a transaction is one atomic step over maps with the declared keys; opening, integrity checks and file permissions are not modelled.
- Timestamps other than those of projects and records, and the listing of projects.
- The rollback of a fresh lease when a resume fails, and the audit log.
- Reading legacy worker files, trimming of texts and labels, and concurrent writers of the worker file: calls are sequential.
- Tool registration, HTTP, the bridge and the browser extension.
