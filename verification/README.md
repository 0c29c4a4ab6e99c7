# A verified model of the container runtime's protocols

The runtime is a C program: a manager that clones containers into namespaces, an
orchestrator that keeps a set of services alive, and the bookkeeping around them.
Most of it is system calls.  This project models the parts whose correctness
depends on order, state and arithmetic, and proves what they are for.  A system
call appears as a nondeterministic outcome, and each call of a `container_*`
function from the orchestrator as one atomic step.

| file | models |
|---|---|
| `Handshake.dfy`, `HandshakeInvariant.dfy`, `HandshakeSafety.dfy`, `HandshakeRuns.dfy` | the start-up protocol between manager and child over four pipes, with reference counts on all eight ends, as a transition system over every interleaving and every failure; what every step keeps; the results; runs that show their conditions are needed |
| `TopoSort.dfy` | dependency resolution, Kahn's sort on its three arrays, spec validation |
| `Orchestrator.dfy`, `OrchestratorInvariant.dfy`, `OrchestratorSafety.dfy`, `OrchestratorRuns.dfy` | services, monitor thread, `orch_run`, `orch_down` and manual restarts as a transition system in which the monitor's unlocked work interleaves with everything else; what every step keeps; the results; runs that show their conditions are needed |
| `JsonParser.dfy`, `JsonMachine.dfy`, `JsonRoundTrip.dfy` | the recursive-descent JSON parser: as functions on the remaining text, as the object with a cursor and a bump arena, and against every layout of a tree as text |
| `JsonText.dfy` | `json_escape_copy` on its buffer, and reading strings back |
| `Seccomp.dfy`, `Capabilities.dfy` | the classic-BPF deny filter and its interpreter; capability masks as sets |
| `Scheduler.dfy` | the target table in memory, and the round-robin thread interleaved with the commands that change it |
| `EventLog.dfy`, `EventBus.dfy` | the event ring against the whole history, the log file and its replay |
| `Metrics.dfy` | the latency histogram and its p99 |
| `Registry.dfy` | the linked list of containers, ids and the id counter |
| `PortMaps.dfy`, `Text.dfy` | printing and parsing of published ports; decimal numbers as `printf`, `sscanf` and `strtol` treat them |
| `Base.dfy` | shared helpers |

The transition systems follow one plan: a predicate `Inv`, lemmas that each
program point keeps it, a lemma that it holds throughout every run (`RunKeeps`),
and the results read off it.

Where the code does not do what its comments or its purpose suggest, the code is
modelled as it is and the difference is a theorem:

- The comment at src/namespace.c:386 says that closing the trigger pipe makes the
  child see end of file and exit.  The child holds a copy of that write end, so it
  never does (`HandshakeSafety.ChildNeverSeesTriggerEof`).
- A manager that gives up between `namespace_start_container` and
  `namespace_trigger_exec` leaves two descriptors open
  (`HandshakeSafety.GivingUpEarlyLeaksTwoEnds`, both directions).
- The answer of `namespace_trigger_exec` is wrong exactly when the child was lost
  between the writing of the trigger and its own report, by an outside kill or
  because it could not read the trigger: it then returns 0 although `execvp` did
  not succeed (`HandshakeSafety.AnswerRightExactlyUnlessLost`; runs:
  `HandshakeRuns.OutsideKillLooksLikeSuccess`,
  `HandshakeRuns.UnreadTriggerLooksLikeSuccess`).
- Parent and child are stuck exactly when the parent waits for the child's death and
  the child for a trigger nobody will write (`HandshakeSafety.StuckExactlyWhenHung`); only
  a failing read of the status pipe leads there (`HandshakeSafety.NeverStuck`), and one can
  (`HandshakeRuns.FailedStatusReadHangs`).
- A manual restart can leave a container running after `orch_down`.  It is safe
  exactly when it is not *risky*: the monitor holds no relaunch for the service, and
  no check of its current container that could put it back under the monitor's eyes
  with a relaunch to follow (`OrchestratorSafety.DownLeavesNothingRunning`,
  `OrchestratorRuns.RiskyRestartCanOrphan`).
- `1 << restart_count` is defined wherever a service with a limit of 1 to 31 is to be
  restarted (`OrchestratorSafety.SmallLimitsKeepShiftDefined`); every configuration
  with a restarting service that has no limit, or one above 31, has a run in which it
  is not (`OrchestratorRuns.LargeLimitsOverflowShift`).
- `json_escape_copy` writes a raw quote when one place is left
  (`JsonText.RawQuoteEscapes`); the copy reads back exactly when the escaped text
  fits (`JsonText.EscapeReadInverse`).
- An event of an unknown type, or whose id or detail is `-` or holds a tab or
  newline, does not survive the log (`EventLog.LogRestoresIffClean`, both directions).
- On an architecture it does not know, the filter compares with 0 and kills
  everything else, although the comment there says it allows
  (`Seccomp.FilterDecides` with `arch` 0).
- The bounding-set loop stops at capability 37, so capabilities 38 and up are never
  dropped from the bounding set (`Capabilities.Process.DropBounding`).
- A drain whose second locked section comes too late prints something other than
  the events it was asked for (`EventBus.Bus.DrainFrom`, both directions).

## Model

| member | source | states |
|---|---|---|
| `HandshakeInvariant.RunKeeps` | src/namespace.c:142-441 | Every state of every interleaving of manager, child and an outside killer satisfies the invariant that ties descriptors, pipe contents and both program counters together |
| `HandshakeSafety.ExecOnlyWhenPrepared` | src/namespace.c:142-304 | The child stands at `execvp`, or is past it, only after the id maps were written, `net_setup` returned 0, the whole token with ok='1' arrived, the eight set-up steps were run in order and all succeeded (but a /proc remount may have failed with EINVAL and the loopback with EPERM), ready was sent, and the manager had set RUNNING, forwarded the ports, saved metadata and written the trigger |
| `HandshakeSafety.FailureNamesTheReason` | src/namespace.c:380-391 | A start that fails on the child's status returns the error number of the one set-up result the child does not tolerate, which is the last it ran (10000 more for resource limits), or EPROTO when there is none to name |
| `HandshakeSafety.RunSetsUp` | src/namespace.c:163-272 | In every run the child goes on exactly as long as its set-up results are tolerated, and reports the first that is not |
| `HandshakeSafety.FailedStartCleansUp` | src/namespace.c:346-422 | When a start fails after `clone`, the child is reaped and never called `execvp`, and the parent closed each of the eight ends exactly once |
| `HandshakeSafety.FailedPipesCleanUp` | src/namespace.c:325-422 | When it fails before `clone`, exactly the ends made so far were closed, once each |
| `HandshakeSafety.StartedHoldsTwoEnds` | src/namespace.c:349-399 | On success exactly the trigger's write end and the error pipe's read end are open; the other six were closed once |
| `HandshakeSafety.TriggerReportsExec` | src/namespace.c:426-441 | `namespace_trigger_exec` closes both ends on every path; with no outside kill and no failing read it returns 0 if and only if `execvp` succeeded |
| `HandshakeSafety.AnswerRightExactlyUnlessLost` | src/namespace.c:126-138 | In every run in which no read of the manager fails, the answer agrees with the fate of `execvp` if and only if no outside kill struck an answering child after the trigger was written and no child left without having read a trigger that was there |
| `HandshakeSafety.RunAnswers` | src/namespace.c:281-304 | What the manager reads, or will read, from the error pipe is determined in every run by whether the child was lost that way |
| `HandshakeSafety.GivingUpEarlyLeaksTwoEnds` | src/container.c:1172-1222 | When the manager gives up on a started container the child is reaped, and the two ends are still open if and only if it had not got past saving the metadata |
| `HandshakeSafety.ChildNeverSeesTriggerEof` | src/namespace.c:281-290 | No waiting child can see end of file on the trigger pipe, in any run |
| `HandshakeSafety.StuckExactlyWhenHung` | src/namespace.c:142-441 | In every run, failing reads included, until the caller has its answer: no step of parent, manager or child is possible if and only if the parent waits for the child and the child waits for a trigger with the pipe empty |
| `HandshakeSafety.NeverStuck` | src/namespace.c:142-441 | That never happens in a run in which no read of the parent failed |
| `HandshakeRuns.StartCanSucceed` | src/namespace.c:308-441 | For every token there is a run that ends in success, so the safety results are not about an empty set of runs |
| `HandshakeRuns.OutsideKillLooksLikeSuccess` | src/namespace.c:126-138 | There is a run in which `namespace_trigger_exec` returns 0 although the child was killed before `execvp` |
| `HandshakeRuns.UnreadTriggerLooksLikeSuccess` | src/namespace.c:281-290 | There is a run in which it returns 0 although the child could not read the trigger and exited |
| `HandshakeRuns.FailedStatusReadHangs` | src/namespace.c:378-392 | For every token there is a run in which a failing status read leaves both processes without a further step |
| `TopoSort.Resolve` | src/orchestrator.c:301-307 | A name resolves to the first service of that name, and to nothing exactly when no service has it |
| `TopoSort.FindService` | src/orchestrator.c:301-307 | The scan returns that index, or -1 |
| `TopoSort.CountIndegrees` | src/orchestrator.c:313-317 | In-degrees count the dependency entries that resolve, duplicates included |
| `TopoSort.SeedQueue` | src/orchestrator.c:319-320 | The queue starts with exactly the services without pending dependencies, each once |
| `TopoSort.Decrement` | src/orchestrator.c:325-328 | One service's counter falls by the number of its entries that resolve to the finished service, and it is enqueued once, when the counter reaches zero |
| `TopoSort.Release` | src/orchestrator.c:322-329 | One round of Kahn's loop keeps the queue free of duplicates, dependency-ordered, inside its bounds and equal to the services with counter zero |
| `TopoSort.OrderedIsAcyclic` | src/orchestrator.c:309-331 | A graph with a start-up order has no cycle |
| `TopoSort.StuckIsCyclic` | src/orchestrator.c:309-331 | A set of services each of which depends on one of the set contains a cycle |
| `TopoSort.DrainedQueue` | src/orchestrator.c:330-331 | When the queue runs dry it holds every service if and only if the graph is acyclic |
| `TopoSort.TopologicalSort` | src/orchestrator.c:309-331 | Returns -1 if and only if the resolved graph has a cycle; otherwise a permutation of all services with each dependency in front of its dependents; writes nothing past the service count |
| `TopoSort.Validate` | src/orchestrator.c:333-381 | A spec is accepted if and only if every service has image and command, every dependency names a service, and some start-up order exists |
| `OrchestratorInvariant.RunKeeps` | src/orchestrator.c:383-780 | Every state of every interleaving of monitor, caller and dying containers satisfies the orchestrator's invariant |
| `OrchestratorSafety.DownLeavesNothingRunning` | src/orchestrator.c:654-686 | If no manual restart was risky, then when `orch_down` returns no container that `orch_run`, the monitor or a manual restart launched is running, wherever the monitor was when it began |
| `OrchestratorSafety.CarefulRestartsAreSafe` | src/orchestrator.c:688-750 | A run is free of risk if every call of `orch_restart_service` finds no dangerous item for its service in the monitor's hands |
| `OrchestratorSafety.DependentsGoFirst` | src/orchestrator.c:668-682 | In runs without a risky manual restart `orch_down` reaches a service only when everything that depends on it has no live container left |
| `OrchestratorSafety.HealthAgrees` | src/orchestrator.c:470-493 | In every run, manual restarts included, with f the failure count: the last f entries of the service's record are failed checks and the one before is a pass or a (re)start; RUNNING and HEALTHY mean f is below the retry limit, UNHEALTHY that it is not |
| `OrchestratorSafety.RestartsBounded` | src/orchestrator.c:398-434 | In every run, manual restarts included, the monitor launches a service with limit m > 0 at most m times and a never-restart service not at all; `restart_count` exceeds m by manual restarts only |
| `OrchestratorSafety.RelaunchIsDue` | src/orchestrator.c:495-548 | In runs without a risky manual restart the monitor replaces a container only if that container exited, the policy is always or is on-failure and the code is nonzero, the limit is not used up, and after a delay of min(2^restarts, 30) while restarts <= 30 |
| `OrchestratorSafety.ScanDecides` | src/orchestrator.c:410-435 | For a watched service whose container has exited: a relaunch is asked for if and only if the policy is always, or on-failure with a nonzero code, and the limit is not used up; otherwise it becomes STOPPED after code 0 and FAILED after any other; nothing else changes |
| `OrchestratorSafety.ScanPassesOver` | src/orchestrator.c:398-408 | A service that is not watched, or whose container is unknown, is left alone |
| `OrchestratorSafety.ScanOfRunning` | src/orchestrator.c:437-455 | A running container is checked when a check is due; without a health check its service becomes HEALTHY |
| `OrchestratorSafety.CheckTakesEffect` | src/orchestrator.c:470-493 | A health result counts if and only if the spec is up and the service still has the container that was checked; then a pass makes it HEALTHY with no failures, and a failure adds one and makes it UNHEALTHY from the retry limit on |
| `OrchestratorSafety.HistoryIsTrue` | src/orchestrator.c:515-547 | The counts of launches, manual restarts and starts that the other results speak of go up exactly at those steps |
| `OrchestratorSafety.DependenciesGoFirst` | src/orchestrator.c:559-632 | When `orch_run` launches a service, every service it depends on has been launched or has failed |
| `OrchestratorSafety.MonitorLeavesTerminal` | src/orchestrator.c:383-550 | As long as no manual restart met pending work for its service, no step of the monitor moves a service out of STOPPED or FAILED |
| `OrchestratorSafety.ShiftDefined` | src/orchestrator.c:418-419 | The 32-bit shift is defined if and only if the count is at most 30, and is then the power of two |
| `OrchestratorSafety.SmallLimitsKeepShiftDefined` | src/orchestrator.c:398-434 | Wherever the monitor decides to restart a service with a limit of 1 to 31, the shift it computes is defined |
| `Orchestrator.ClampMaxRestarts` | src/orchestrator.c:222-223 | The limit used is the one in 0..1000 closest to the one given |
| `Orchestrator.ClampRetries` | src/orchestrator.c:239-246 | The number of retries used is the one in 1..100 closest to the one given |
| `Orchestrator.ParsedConfigIsValid` | src/orchestrator.c:211-249 | Whatever numbers a spec holds, its services form a configuration the other results apply to |
| `OrchestratorRuns.LargeLimitsOverflowShift` | src/orchestrator.c:398-434 | In every configuration with a restarting service that has no limit, or one above 31, there is a run without manual restarts that computes an undefined delay for it |
| `OrchestratorRuns.RiskyRestartCanOrphan` | src/orchestrator.c:688-750 | From every reachable state of every configuration in which a manual restart would be risky, that restart can end in a container that is still live when `orch_down` returns |
| `OrchestratorRuns.ManualRestartOrphans` | src/orchestrator.c:688-750 | In every configuration with a restarting service such a state is reachable, so such a run exists |
| `JsonMachine.Parser.Allocate` | src/orchestrator.c:57-67 | Blocks are 8-aligned, pairwise disjoint, inside the 128 KB arena and never moved; refusal exactly when the block does not fit, and then without effect |
| `JsonMachine.Parser.SkipBlanks` | src/orchestrator.c:69-80 | The cursor lands where `Skip` says, which SkipLeaves and GapsBeforeValue determine |
| `JsonMachine.Parser.PeekChar` | src/orchestrator.c:82 | The next significant character, or NUL at the end, without reading outside the text |
| `JsonMachine.Parser.Consume` | src/orchestrator.c:83 | The same, and the cursor moves past it |
| `JsonMachine.Parser.ReadText` | src/orchestrator.c:98-110 | The string loop reads what `Unquote` says, 510 characters at most |
| `JsonMachine.Parser.ReadString` | src/orchestrator.c:93-116 | A string and its arena copy, or failure exactly when the quote is missing or the arena is full |
| `JsonMachine.Parser.MakeNode` | src/orchestrator.c:85-89 | A node exactly when the arena has room for one |
| `JsonMachine.Parser.ParseString` | src/orchestrator.c:118-123 | A string node exactly when the arena has room for node and text and a quote opens the text |
| `JsonMachine.Parser.ParseNumber` | src/orchestrator.c:125-138 | The cursor passes exactly the leading number characters, 63 at most, and they become the node's text |
| `JsonMachine.Parser.PassLiteral` | src/orchestrator.c:187-189 | The cursor jumps past a literal unseen, beyond the end of the text if need be |
| `JsonMachine.Parser.ParseObject` | src/orchestrator.c:140-161 | Agrees with the parser function on every input, a missing brace included; every block handed out earlier stays where it is; success advances the cursor |
| `JsonMachine.Parser.ParseArray` | src/orchestrator.c:163-180 | The same for arrays |
| `JsonMachine.Parser.ParseValue` | src/orchestrator.c:182-193 | The same for values: result, cursor and arena position are those of the parser function, and a non-null value advances the cursor |
| `JsonMachine.Parse` | src/orchestrator.c:252-278 | On every text the parser terminates with the specified tree or failure, and at no moment, also in parses that fail, are more than 240 arrays and objects open |
| `JsonParser.ValueArena` | src/orchestrator.c:182-193 | A parsed value used at least 544 bytes of arena per level of nesting and left the position aligned and inside the arena |
| `JsonParser.NestingBounded` | src/orchestrator.c:57-193 | No parsed tree is nested deeper than 240 levels |
| `JsonParser.DepthCountsLevels` | src/orchestrator.c:140-180 | Depth is what that bound is about: an array or object is deeper than everything in it |
| `JsonRoundTrip.ReadDoc` | src/orchestrator.c:182-193 | A layout of a tree followed by anything that cannot continue it parses to that tree, leaves exactly the rest, and takes exactly its cost in arena bytes; it fails exactly when the arena is too small |
| `JsonRoundTrip.LaidOutTreeParses` | src/orchestrator.c:57-193 | Every text that lays a tree out, with blanks, tabs, line breaks and line comments between tokens in any number and order, and with commas left out or trailing, parses to that tree if and only if its cost fits the arena |
| `JsonRoundTrip.EveryTreeHasALayout` | src/orchestrator.c:57-193 | Every tree with strings of at most 510 representable characters, numbers of at most 63 and at most 64 entries has such a text |
| `JsonRoundTrip.GapsBeforeValue` | src/orchestrator.c:69-80 | White space and comments in front of a value change nothing |
| `JsonRoundTrip.SkipLeaves` | src/orchestrator.c:69-80 | What skipping leaves is a suffix that starts neither with one of the four blanks nor with `//` |
| `JsonRoundTrip.GarbageIsRefused` | src/orchestrator.c:182-193 | A text whose first significant character starts no value is refused |
| `JsonRoundTrip.WordsByFirstLetter` | src/orchestrator.c:187-189 | The three words are known by their first letter, whatever follows it |
| `JsonRoundTrip.BadMembersAreRefused` | src/orchestrator.c:150-155 | A member without a quoted key or without a colon is refused |
| `JsonRoundTrip.EndClosesEverything` | src/orchestrator.c:150-178 | The end of the text, or a NUL, ends arrays and objects |
| `JsonText.EscapeCopy` | src/container.c:91-124 | The buffer holds the bounded copy and a terminator; nothing beyond the given size is written; size 0 writes nothing |
| `JsonText.PutChar` | src/container.c:98-121 | One character is written as its escape, as itself or not at all, depending on the room left |
| `JsonText.EscapesSpelledOut` | src/container.c:98-121 | Quote, backslash, newline, return and tab become a backslash and their letter, other characters from the space on themselves, and nothing else is represented |
| `JsonText.CopyStops` | src/container.c:91-124 | The copy is the escaped form of a beginning of the text and at most one character more, and stops early only with fewer than two places left |
| `JsonText.ReadPlain` | src/orchestrator.c:98-112 | Plain text is read as it stands, up to the limit or the end of the input |
| `JsonText.ReadBackslash` | src/orchestrator.c:99-108 | Behind a backslash n, t and r have their meaning and every other character stands for itself |
| `JsonText.CopyIsWhole` | src/container.c:91-124 | The copy is the whole escaped text if and only if that fits |
| `JsonText.ReadEscaped` | src/orchestrator.c:93-116 | Reading an escaped text up to the closing quote gives back its characters other than those control characters |
| `JsonText.CutDoesNotReadBack` | src/container.c:91-124 | A copy that was cut never reads back |
| `JsonText.EscapeReadInverse` | src/container.c:91-124 | Quoting the copy and reading it gives back the source without its control characters other than newline, return and tab, if and only if the escaped text fits and at most 510 characters come out |
| `JsonText.CallersLeaveRoom` | src/container.c:91-124 | A buffer of more than twice the text is always enough |
| `JsonText.RawQuoteEscapes` | src/eventbus.c:22-51 | With one place left a quote is copied raw and ends the string early |
| `Seccomp.BlocksDecide` | src/security.c:155-157 | A chain of deny blocks refuses exactly the numbers in the list and falls through otherwise, for every list |
| `Seccomp.FilterDecides` | src/security.c:160-238 | For every deny list and every syscall the filter returns: kill (0x80000000) iff the architecture differs, else errno EPERM (0x00050001) iff the number is listed or is `clone` with CLONE_NEWUSER, else allow (0x7fff0000) |
| `Seccomp.FilterAcceptable` | src/security.c:160-238 | For every deny list all jumps go forward and stay inside the program, offsets fit 8 bits, loads are aligned and in range, the last instruction returns |
| `Capabilities.Adding` | src/security.c:99-102 | Setting the bit adds that capability to the set and no other |
| `Capabilities.Dropping` | src/security.c:104-107 | Clearing the bit removes that capability and no other |
| `Capabilities.HalvesMask` | src/security.c:133-138 | Masking the two 32-bit halves separately masks the 64-bit set |
| `Capabilities.MaskHalves` | src/security.c:133-138 | The masked halves hold the intersection with the keep set |
| `Capabilities.SecurityConfig.Add` | src/security.c:99-102 | Numbers outside 0..63 change nothing |
| `Capabilities.SecurityConfig.Drop` | src/security.c:104-107 | Numbers outside 0..63 change nothing |
| `Capabilities.InLost` | src/security.c:118-123 | A capability is lost from the bounding set exactly when it is below the loop's bound, not kept, and not one the kernel refuses to drop |
| `Capabilities.Process.DropBounding` | src/security.c:118-123 | The bounding set loses exactly those capabilities, whichever drops the kernel refuses |
| `Capabilities.Process.ApplyCaps` | src/security.c:111-143 | Privileged processes keep everything; otherwise the bounding set loses those capabilities, and effective and permitted become their intersection with the keep set and inheritable becomes empty, or, on failure, none of the three changes |
| `Scheduler.SchedulerState.constructor` | src/scheduler.c:23-37 | An empty table, disabled |
| `Scheduler.SchedulerState.EnsureCapacity` | src/scheduler.c:56-77 | The array grows without changing the table, or fails without changing it |
| `Scheduler.SchedulerState.PruneDead` | src/scheduler.c:79-94 | In-place compaction keeps exactly the living targets in order and wraps the index |
| `Scheduler.SchedulerState.Add` | src/scheduler.c:222-240 | Success means the target is in the table, once; failure means the array could not grow and nothing changed |
| `Scheduler.SchedulerState.Remove` | src/scheduler.c:242-259 | Swap-remove of exactly that target; -1 exactly when it was not there |
| `Scheduler.SchedulerState.Clear` | src/scheduler.c:261-266 | An empty table with index 0 |
| `Scheduler.SwapRemoveKeepsOthers` | src/scheduler.c:242-259 | Swap-remove loses the removed target and no other, and keeps targets distinct |
| `Scheduler.TableKept` | src/scheduler.c:222-266 | Every operation keeps targets distinct and the index in range; removal removes exactly one element |
| `Scheduler.LivingInOrder` | src/scheduler.c:79-94 | Pruning decides on each target by itself, by whether it is alive, and keeps the order |
| `Scheduler.InactiveTickResumes` | src/scheduler.c:116-130 | A tick that finds scheduling off, or fewer than two live targets, leaves every target running |
| `Scheduler.SwitchingTakesEffect` | src/container.c:1009-1039 | After switching and its refresh, scheduling is on exactly when that was asked for, the running containers are the targets, and none of them is stopped when it is off, all living ones but the first when it is on |
| `Scheduler.RunKeeps` | src/scheduler.c:96-147 | The invariant holds in every interleaving of the thread, the commands and dying processes |
| `Scheduler.DisableResumesAll` | src/container.c:1009-1039 | Once scheduling is off, at whatever point of the thread's tick, the next tick leaves every target running and nothing is stopped afterwards |
| `Scheduler.TraceIsThreadRun` | src/scheduler.c:106-144 | Seen through the table, the thread and the stopped targets, a run with other activity that leaves the targets alone is a run of the thread |
| `Scheduler.RoundStabilises` | src/scheduler.c:106-144 | From any mix of stopped and running targets, whatever commands and processes do meanwhile that leaves the targets alone, after n ticks over n >= 2 live targets exactly the target at the current index runs |
| `Scheduler.ResumesInTurn` | src/scheduler.c:106-144 | The k-th tick of a round of the thread resumes the k-th target after the current one |
| `Scheduler.RoundIsFair` | src/scheduler.c:106-144 | Under the conditions of RoundStabilises, n consecutive ticks resume each of the n targets exactly once |
| `EventBus.MaskIsRemainder` | src/eventbus.c:221-226 | Masking a sequence number with 255 is its remainder by 256 |
| `EventBus.EmitRefines` | src/eventbus.c:221-226 | Writing slot n mod 256 keeps the ring equal to the last min(n, 256) events of the history |
| `EventBus.Bus.constructor` | src/eventbus.c:168-177 | A fresh bus has an empty history |
| `EventBus.Bus.Emit` | src/eventbus.c:200-238 | The history grows by one event numbered by its length, the ring still agrees with it and the log grows by that event's line |
| `EventBus.BusHoldsTheLast` | src/eventbus.c:221-226 | In every state each of the last 256 events stands in slot number mod 256, and numbers follow the order of emission |
| `EventBus.PrintoutIsHistory` | src/eventbus.c:396-401 | The ring slots lo..hi are the history's events lo..hi if and only if at most 256 events have been emitted since lo |
| `EventBus.Bus.PrintRange` | src/eventbus.c:396-401 | The printing loop visits exactly those slots, in order |
| `EventBus.Bus.DrainFrom` | src/eventbus.c:384-404 | With any events emitted between its two locked sections, a drain prints min(new events, 256) events, and these are the last ones before the cursor it returns if and only if none of them was overwritten in between; a cursor that is not behind prints nothing |
| `EventBus.Bus.DrainRepeatedly` | src/eventbus.c:384-404 | The same for each drain of a reader that passes each returned cursor to the next, with any events emitted in between |
| `EventBus.DrainsAreContiguous` | src/eventbus.c:384-404 | Of such drains, if they print in time: an event between the first cursor and the last is in some printout unless the drain it falls to returned a cursor more than 256 past it, and no event is printed twice |
| `EventBus.ReadWindow` | src/eventbus.c:127-145 | The rolling window holds the last 256 events that parse |
| `EventBus.Bus.Refill` | src/eventbus.c:147-161 | Those events go to the slots of their own numbers |
| `EventBus.Bus.Replay` | src/eventbus.c:127-164 | After a replay the bus stands as after emitting the parsed events, and numbering goes on after the last |
| `EventBus.RestartRestores` | src/eventbus.c:168-177 | Re-initialising from the log of any numbered history of clean events restores the total and the ring, so numbers continue without a gap |
| `EventLog.LineRoundTrip` | src/eventbus.c:87-124 | Parsing the line of a clean event gives the event back |
| `EventLog.LineFormat` | src/eventbus.c:228-238 | The line of an event: number, time, type name, id, detail and value with tabs between, a dash for an empty text |
| `EventLog.MalformedLinesAreSkipped` | src/eventbus.c:87-117 | A line with fewer than six fields or an unknown type is no event |
| `EventLog.LineFits` | src/eventbus.c:127-146 | No line is longer than the 512-byte read buffer holds |
| `EventLog.LogRoundTrip` | src/eventbus.c:87-164 | Reading the log of a history of clean events gives the history back |
| `EventLog.ParsedLogIsClean` | src/eventbus.c:87-124 | Whatever the file holds, every event read from it is of a known type, with clean texts |
| `EventLog.LogRestoresIffClean` | src/eventbus.c:87-164 | A log gives its history back if and only if every event is of a known type and every id and detail is free of tabs and newlines and is not `-` |
| `Metrics.BucketPrefix` | src/metrics.c:101-115 | The first n buckets sum to the number of samples below n |
| `Metrics.P99Found` | src/metrics.c:101-115 | The first bucket at which the running count reaches k is the k-th smallest sample, capped at 1999, for every sorted arrangement |
| `Metrics.TargetIsCeiling` | src/metrics.c:101-106 | The integer formula is the ceiling of 0.99 n |
| `Metrics.RecordedIsPlausible` | src/metrics.c:16-35 | No non-empty list of accepted samples can trigger the normaliser's reset |
| `Metrics.BucketsSumToCount` | src/metrics.c:67-86 | The bucket sum is the sample count |
| `Metrics.ExtremesAreExtremes` | src/metrics.c:78-81 | The kept maximum and minimum are samples and bound all samples |
| `Metrics.TotalAddsUp` | src/metrics.c:75-76 | The kept sum is additive and of one sample is that sample |
| `Metrics.Metrics.constructor` | src/metrics.c:37-43 | No samples |
| `Metrics.Metrics.Record` | src/metrics.c:67-86 | Count, sum, extremes and buckets are those of the accepted samples; samples over ten minutes are ignored |
| `Metrics.Metrics.ComputeP99` | src/metrics.c:101-115 | The ceil(0.99 n)-th smallest accepted sample, or 1999 when that is larger; 0 without samples |
| `Metrics.Metrics.Normalize` | src/metrics.c:16-35 | State that came from recorded samples is left as it is; whatever came in, what goes out is plausible or empty |
| `Registry.IdRoundTrip` | src/container.c:310-316 | Scanning a printed id gives its number back, also beyond four digits |
| `Registry.IdFormat` | src/container.c:908 | An id is `container-` and the number in decimal, filled with zeros to four digits |
| `Registry.CreateKeeps` | src/container.c:898-980 | Creation, failed at any stage or not, keeps the counter above all ids and keeps ids distinct |
| `Registry.DropKeeps` | src/container.c:1360-1374 | So does deletion, and deletion rolled back by a failed save |
| `Registry.PruneKeeps` | src/container.c:2669-2698 | So does pruning, which recomputes the counter, whatever the counter was before |
| `Registry.KeptEntries` | src/container.c:2676-2688 | Pruning keeps exactly the running and the paused containers, in order |
| `Registry.RecountIsLeast` | src/container.c:2691-2697 | The counter it computes is the least one above all ids that are left |
| `Registry.RestoreKeeps` | src/container.c:310-316 | Restoring a record keeps the counter above all ids, and leaves ids distinct if and only if they were and the id was not in the list |
| `Registry.HistoryKeepsCounter` | src/container.c:310-316 | In every sequence of these operations from an empty list the counter stays above all ids |
| `Registry.HistoryKeepsIds` | src/container.c:898-980 | In every such sequence that restores no id the list already holds, ids stay pairwise distinct as well |
| `Registry.NewIdIsNew` | src/container.c:898-980 | The id about to be handed out belongs to no container of the list |
| `Registry.BumpCounter` | src/container.c:310-316 | The least counter, not below the old one, that exceeds the id's number |
| `Registry.Manager.Append` | src/container.c:193-201 | The container becomes the last of one acyclic list from head to tail |
| `Registry.Manager.Locate` | src/container.c:203-212 | The walk finds the container and its predecessor, or runs off the end exactly when it is not in the list |
| `Registry.Manager.Remove` | src/container.c:203-224 | Exactly that container leaves the list, the others keep their order, and head and tail still describe it |
| `Registry.Manager.AppendRolledBack` | src/container.c:974-980 | Appending and removing again restores the list |
| `Registry.Manager.CreateContainer` | src/container.c:898-980 | The heap structure after creation is the list and counter of the abstract operation, with the new id as result |
| `Registry.Manager.DeleteContainer` | src/container.c:1335-1374 | The same for deletion: refused when running or paused, put back at the end when the save fails |
| `Registry.Manager.PruneAll` | src/container.c:2669-2698 | The same for pruning: exactly the running and paused containers stay, in order |
| `Registry.Manager.RestoreContainer` | src/container.c:880-881 | The same for one restored record |
| `PortMaps.SerializePortMaps` | src/bridge.c:410-423 | The text of all maps, cut to the buffer |
| `PortMaps.PrintAll` | src/bridge.c:410-423 | The same for any way of printing one map |
| `PortMaps.CollectMaps` | src/bridge.c:425-454 | The token loop collects, in order, the maps in range, up to the limit |
| `PortMaps.ParsePortMaps` | src/bridge.c:425-454 | Parsing is tokenising and collecting; never more maps than asked for |
| `PortMaps.PortMapsRoundTrip` | src/bridge.c:410-454 | Up to eight valid maps need at most 127 characters, so saving never cuts them, and parsing gives exactly them back in order |
| `PortMaps.ParserOutputIsValid` | src/bridge.c:425-454 | Whatever text it is given, the parser returns only maps that meet those conditions |
| `PortMaps.ScanPrintedItem` | src/bridge.c:437-450 | A token `host:container/protocol` is read as that map |
| `PortMaps.NoProtocolIsTcp` | src/bridge.c:437-441 | A token without a protocol means tcp |
| `PortMaps.TokensBetweenCommas` | src/bridge.c:433-434 | Tokens are what stands between commas, empty ones left out |
| `PortMaps.AcceptedTokenByToken` | src/bridge.c:434-453 | Tokens are read one by one, and one that is left out does not stop the rest |
| `PortMaps.AcceptedToken` | src/bridge.c:440-444 | A token counts if and only if it can be read and both ports are in 1..65535 |
| `Text.ScanPrinted` | src/bridge.c:425-454 | Scanning a printed number gives it back and stops right behind it |

## Left out

- `src/filesystem.c`, `src/network.c`, `src/resource.c`, `src/monitor.c`, the veth and iptables part of `src/bridge.c`: system calls; only their success or failure enters, as outcomes of the hand-over's steps.
- `src/webserver.c`, `web/`, `src/main.c`, `src/logger.c`, `src/image.c`, `src/alert.c`, the workloads and scripts: plumbing and display, or properties that are easy next to these.
- Printing, tables and the JSON report builders that truncate.
- A NULL source of `json_escape_copy`, which copies nothing.
- The memory model: the orchestrator's `container_*` calls are atomic, and nothing is claimed about unlocked access to the container list from several threads.
- Pausing together with the scheduler, and starting a paused container: the code promises nothing there.
- The full metadata record: only ids and port maps are modelled.
- Clocks, delays, `atof` and CPU percentages: nondeterministic, or not modelled; numbers in JSON keep their text.
- The width of counters: event numbers, sample counts, millisecond sums, id numbers and JSON cursors are unbounded.
- The hand-over: partial reads of the status record and the error number (they are below PIPE_BUF and written in one call), best-effort steps whose failure is ignored, the log descriptor, SIGPIPE, and the order of consecutive `close` calls, which is left open so that the results hold for every order.
- Container commands given directly while the orchestrator runs; a second `orch_run` in the same process; failing stop and delete calls on containers that exist.
- The kernel's limit on the length of a BPF program, and the concrete list of denied calls: the results hold for every list.
- Concurrent emits may write their log lines out of order, because the line is written outside the lock: the log results are about sequential emits.
- EventBus.Bus.Replay: says nothing about the ring when the numbers in the file are not 0, 1, 2, ..., because such a file is not one this program wrote from an empty log.
- JsonMachine.Parser.ParseNumber: keeps the text of a number; its conversion to a double by `atof` is not modelled.
- OrchestratorSafety.MonitorLeavesTerminal: is stated for runs in which no manual restart met pending work for its service, which include all runs without manual restarts; nothing is said about the others.
- JsonMachine.Parser.Allocate: blocks are addresses and sizes only; nodes are values, so what is stored in a block is not modelled.
- Registry.Manager.DeleteContainer: the container is given by reference; looking it up by id or name is not modelled.
