# A verified model of libtealet's stack slicing and of the archive stripper

libtealet gives C programs coroutines ("tealets") that all share one C stack. A transfer saves only the slice of the
stack that the target is about to overwrite. Half-saved stacks hang on the intrusive list `g_prev` and are grown, chunk
by chunk, on later transfers; whole saved stacks are shared by reference count; when the allocator fails, a stack can be
marked defunct. This project models that engine, the planner that splits a watched stack window between a snapshot and
guarded pages, and the tool that strips time stamps from Windows `.lib` archives. It proves that the engine is
indistinguishable from one in which every tealet owns a private, fully saved stack.

## How the files hang together

- `Base.dfy`: bytes, options, sequence helpers.
- `StackModel.dfy`, `TransferModel.dfy`: what the routines of `src/tealet.c` do to values: saved stacks, the list, the
  allocator and its counters; then tealets, transfers, run, fork, switch, exit, duplicate and delete. A call that
  suspends its caller is a function to the state in which user code goes on, together with the code that the tealet
  now running sees. The allocator is an arbitrary answer to every numbered request.
- `StackStore.dfy`, `Engine.dfy`: the same routines as the library has them: chunks, stacks and tealets are objects with
  fields updated in place, chunks hang on a `next` chain, `g_prev` is an intrusive list whose nodes know the pointer that
  leads to them, the C stack is an array, and the loops are loops. Each method is proved to do to the objects what the
  function of the same name does to their values, and the public ones to keep the invariant. The C assertions of
  `growto`, `grow_list`, `save_state`, `save_restore_cb`, `link` and `unlink` appear as assertions and are proved.
- `StackProofs.dfy`: chunks tile, the list is a staircase, and what `grow_list` does to both.
- `Growth.dfy`: how many requests for memory a growth of the list will make, how it will end, and which stacks it will give
  up, told from the state before it and from the allocator's answers.
- `Safety.dfy`, `Operations.dfy`: the invariant `Safety.Inv` of the states in which user code runs, and that the
  operations keep it.
- `Calls.dfy`: `tealet_switch` and `tealet_exit` as their caller sees them: where control will go (`CourseOf`), what the
  call will leave, whom it will lose (`CallLosses`), and exactly which calls keep the invariant (`CallLegal`) and touch no
  freed tealet (`CallAlive`).
- `Refinement.dfy`, `PrivateStacks.dfy`, `Spawning.dfy`, `Machine.dfy`, `Runs.dfy`: the machine with private stacks, that
  every operation is a step of it, and what follows for whole runs. Which step it is, who is resumed, whether anybody is,
  and who is lost is read off the operation and the state before it (`Machine.Seen`, `Machine.LostBy`).
- `Effects.dfy`, `Answers.dfy`, `Lifecycle.dfy`: what else an operation leaves, told from the operation and the state before
  it: the previous tealet, boundaries, status, origin, frames, the code it answers with and the lock; then what follows for
  whole runs.
- `Samples.dfy`: small states with the runs from `tealet_initialize` that lead to them.
- `Guarantees.dfy`, `Edges.dfy`, `ListEffect.dfy`, `CopyBound.dfy`, `RoundTrip.dfy`, `Accounting.dfy`: NOFAIL, atomicity,
  signals and locks; where the promises stop, exactly; the effect on the list; how much is copied; save, grow, restore;
  the statistics.
- `Integrity.dfy`: the integrity planner.
- `Archive.dfy`, `ArchiveProofs.dfy`, `ArchiveStrip.dfy`, `ArchiveForgets.dfy`, `ArchiveSample.dfy`, `ArchiveFile.dfy`: the
  archive format on values, the round trip, stripping, what a stripped file no longer tells, one library byte for byte,
  and the tool with its file cursor, loops and in-place edits.

## Conventions

Addresses are integers on a descending stack: "near" is the low end, "far" the high end, and `FURTHEST` is a sentinel
above every address. `Edge` of a saved stack is its near end plus what has been saved. `CanSwitch`, `CanCall`, `CanXfer`,
`CanRun` and `CanFork` name what a call may rely on. A switch or exit needs the invariant, a live target, a stack pointer
below the caller's boundary and, if it ends as a panic, that the tealets named by the receiver's frame will be alive; that
it also leaves the invariant behind is equivalent to `Calls.CallLegal`. `Machine.Allowed` are the operations of a run:
legal, and not tearing their target. `Safety.Inv` is met by the state that `tealet_initialize` makes (`Runs.InitialInv`).

## Where the code does not keep the plain promise

Each of these is a property of the code as it is. The model keeps the branch, and a lemma says for all inputs, in terms of
what can be known before the call, when the promise holds. Each state named `...Example` is reached by the run from
`tealet_initialize` that its lemma states.

- A switch takes an unshared, half-saved target off the list before it saves its caller. If the caller may not be given up
  and the request for its memory is refused, the target is half saved and unlisted (`Edges.LostTargetExample`). With k the
  target's place on the list, that happens exactly when the first k requests are granted and the next one is not
  (`Safety.LosesTargetIs`, `Calls.FailureKeepsList`).
- A forced switch to a shared, half-saved target that cannot be grown frees chunks and restores the rest all the same
  (`Edges.TornExample`). With k the target's place on the list, that happens exactly when somebody else than main forces
  the switch and request k is refused (`Refinement.GivenUpIs`), and the target finds what it left exactly when it does not
  happen, or the bytes that were freed still stand on the C stack (`Refinement.SwitchStackResumes`). A target that nobody
  shares, or that is not listed, always finds what it left (`PrivateStacks.UnsharedResumes`).
- A switch or exit that somebody else than main forces, NOFAIL included, loses suspended tealets, which then report DEFUNCT:
  exactly those whose stacks are listed, come before the place where growing the list ends, and are refused memory, and the
  caller if its own request is refused (`Machine.LostBy`, `Calls.TransferRefines`). While the allocator refuses nothing
  nobody is ever lost (`Runs.GenerousLosesNobody`).
- `tealet_run` without START_SWITCH and with a boundary beyond a listed stack's unsaved part breaks the order of the list
  (`Edges.TooFarExample`, exact in `Spawning.RunExact`).
- PANIC delivered to a creator waiting in `tealet_run` or `tealet_fork` is taken for a failed binding, and drops the stack
  pointer of the tealet it waits for (`Edges.PanicExample`, exact in `Edges.PanicToCreator`). Delivered to a tealet that
  never ran, or to a duplicate of one, it always breaks the library (`Edges.UnstartedExample`, `Edges.PanicToUnstarted`).
  Delivered to a duplicate of a tealet suspended in `tealet_switch` it touches the original, which the frame still names
  and which may be gone (`Edges.OrphanExample`). For all frames and all calls, `Calls.CallExact` says exactly when a call
  keeps the invariant and touches nobody who is gone.
- `tealet_set_far` keeps the state legal exactly when main runs, and nothing listed needs the stack below the new boundary,
  or main is suspended, and the boundary does not change (`Operations.SetFarInv`, `Edges.SetFarExample` for both).
- The planner rounds the end of the guarded pages up in 64 bits. When a watched byte that the guard should cover lies on
  the last page of the address space, the end comes out as zero and nothing is guarded (`Integrity.OutOfReachExample`); in
  every other case exactly the bytes that the settings ask for are watched (`Integrity.Watcher.PlanForCurrent`).
- docs/INCREMENTAL_SAVE.md says that what has been saved never shrinks; the code sets it to nothing when a stack is
  marked defunct (`Edges.TornExample`). The model follows the code.
- `readcstr` reads for ever at the end of a file that does not end its last string; the model reports an error there,
  exactly when no zero byte is left (`ArchiveProofs.StringEnds`).
- `fix_coff_null_padding` makes a member longer when its section table is cut short inside a name that holds a zero
  byte (`ArchiveStrip.TornExample`, exact in `ArchiveStrip.StripLength`), and then the stripped library no longer fits
  its headers (`ArchiveStrip.StripKeepsFormat`).

## Model

| member | source | states |
|---|---|---|
| Runs.InitialInv | src/tealet.c:1545-1596 | what `tealet_initialize` makes meets the invariant |
| Runs.RunReaches | src/tealet.c:1545-1596 | a state that allowed operations lead to from the initial one is reached by a run, and is legal |
| Runs.RunSafe | src/tealet.c:1071-1159 | every state of every run of user writes, run, fork, switch, exit, new, duplicate, delete and set_far meets the invariant: staircase, exact list, reference counts, one runner, main never defunct |
| Runs.RunRefines | src/tealet.c:1258-1360 | every run is, step for step, a run of the machine in which each tealet owns a private, fully saved stack; who is resumed, when nobody is, and who is lost follows from the operation and the allocator's answers |
| Runs.ParkedStable | src/tealet.c:1071-1159 | a suspended tealet stays suspended on the same private stack until it is resumed, deleted or lost, whatever else happens |
| Runs.NeverSilentlyWrong | src/tealet.c:920-1014 | told before each step, a suspended tealet runs on exactly its stack, is deleted, is lost and reports DEFUNCT, or keeps its stack |
| Runs.ResumesAsLeft | src/tealet.c:1108-1159 | a tealet that is left, not deleted or lost meanwhile, and resumed later finds every byte from its stack pointer to its boundary as it left it |
| Runs.LostIsRefused | src/tealet.c:1000-1014 | whoever is lost was refused memory, at his own place on the list or as the caller, in a transfer that somebody else than main forced |
| Runs.GenerousLosesNobody | src/tealet.c:1000-1014 | while the allocator refuses nothing, no step loses anybody, forced or not |
| Runs.GenerousNobodyBroken | src/tealet.c:933-941 | in a run whose allocator refuses nothing nobody ever reports DEFUNCT |
| Runs.GenerousParks | src/tealet.c:1071-1159 | in such a run a suspended tealet stays suspended on its stack until it is resumed or deleted |
| Machine.StepInv | src/tealet.c:1648-1992 | every allowed operation keeps the invariant |
| Machine.StepRefines | src/tealet.c:1648-1992 | every allowed operation is the step of the private machine that is foretold for it, and loses exactly the tealets foretold |
| Calls.TransferRefines | src/tealet.c:1804-1889 | a switch or exit, with its NOFAIL retry, resumes the target, or after the retry main with a panic, on its own stack, or nobody; exactly the listed tealets whose requests are refused under force, and a caller refused likewise, are lost |
| PrivateStacks.SwitchStackRefines | src/tealet.c:1258-1360 | one transfer suspends the caller with the bytes it had, and leaves every other suspended stack as it was, but for exactly those whose requests are refused under force |
| Refinement.GrowKeeps | src/tealet.c:1020-1055 | the growth step gives up a tealet if and only if its stack is listed, growing gets to it, the transfer is forced by somebody else than main, and its own request is refused; everybody else keeps his stack |
| Refinement.SwitchStackKeeps | src/tealet.c:1071-1159 | a transfer keeps the meaning of every suspended stack but exactly those |
| Refinement.SwitchStackSuspends | src/tealet.c:1124-1146 | the caller is suspended with exactly the bytes from its stack pointer to its boundary, unless the transfer is forced and the request for them refused; then it reports DEFUNCT |
| Refinement.GivenUpIs | src/tealet.c:1000-1014 | a transfer gives its target up if and only if it is listed and shared, somebody else than main forces the transfer, and the request at its place on the list is refused |
| Refinement.SwitchStackResumes | src/tealet.c:1020-1055 | the target finds what it left if and only if it is not given up, or the bytes thrown away still stand on the C stack |
| PrivateStacks.UnsharedResumes | src/tealet.c:1020-1055 | a target that nobody shares, or that is not listed, finds what it left even in a forced transfer |
| Refinement.SharedRestore | src/tealet.c:1150-1159 | restoring one holder of a shared stack leaves the others their stack |
| Refinement.RestoreOthers | src/tealet.c:838-848 | restoring one stack overwrites nothing that another suspended stack has not saved |
| Spawning.StartNowMoves | src/tealet.c:1648-1702 | START_SWITCH suspends the creator on its stack and begins the new tealet |
| Spawning.StartLaterMoves | src/tealet.c:1648-1702 | START_DEFAULT leaves the creator running and the new tealet suspended on its fresh stack |
| Spawning.StartNowStays | src/tealet.c:1688-1695 | a START_SWITCH that fails changes no stack |
| Spawning.StartLaterStays | src/tealet.c:1774-1783 | a START_DEFAULT that fails changes no stack |
| StackProofs.RestoreChunksIsPatch | src/tealet.c:838-848 | restoring a chain writes exactly the saved range and nothing else |
| StackProofs.TiledAt | src/tealet.c:806-836 | every chunk begins where the ones before it end |
| StackProofs.GrownKeeps | src/tealet.c:806-836 | growing keeps the tiling and the meaning of a stack |
| StackProofs.GrowToEffect | src/tealet.c:967-1015 | growing up to a limit grows, fails where that is allowed, or gives up where it is not |
| Growth.GrowListGivesUp | src/tealet.c:1020-1055 | `grow_list` leaves every stack as it was, longer, or given up, and gives up exactly the listed stacks, main's excepted, whose requests are made and refused where failing is not allowed |
| StackProofs.GrowListPrunes | src/tealet.c:1020-1055 | `grow_list` drops a prefix of the list: what ends at or before the limit or was given up |
| StackProofs.GrowListReaches | src/tealet.c:1020-1055 | when `grow_list` fails, and what it guarantees about the target and the rest when it does not |
| StackProofs.GrowListKeeps | src/tealet.c:1020-1055 | the staircase survives; on success nothing listed needs the stack below the limit |
| Safety.GrowStep | src/tealet.c:1083-1106 | the growth step of a transfer keeps every part of the invariant but the target's place on the list |
| Safety.SaveStateSafe | src/tealet.c:1071-1148 | saving leaves a state ready for the target, or a legal one when it fails, the lost target excepted |
| Safety.RestoreSolid | src/tealet.c:1150-1159 | restoring gives back the stack, drops its reference and leaves a legal state |
| Safety.SwitchStackSafe | src/tealet.c:1258-1360 | a transfer leaves the target, or the caller, running in a legal state |
| Growth.GrowListEnds | src/tealet.c:1020-1055 | growing the list fails exactly when a request is refused for a stack that may not be given up, and makes as many requests as the listed stacks that need the C stack below the limit, an unshared target excepted |
| Growth.GrowListTorn | src/tealet.c:1000-1014 | after a growth that succeeds, a listed target has been given up exactly when it is shared and the request at its place on the list was refused |
| Safety.LosesTargetIs | src/tealet.c:1124-1131 | a transfer loses its target exactly when the requests for the stacks before it are granted and the next one, for the caller, is not |
| Calls.CallCourse | src/tealet.c:1804-1889 | a call goes where its course foretells: to the target, with NOFAIL to main as a panic, or nowhere; the receiver runs in a legal state, and who is alive and who holds a saved stack is as foretold |
| Calls.CallExact | src/tealet.c:1804-1953 | a call keeps the invariant if and only if it does not lose its target and does not mislead the frame that receives its panic, and touches nobody who is gone if and only if what that frame names stays alive; both told before the call |
| Calls.SwitchExact | src/tealet.c:1855-1889 | `tealet_switch` keeps the invariant if and only if the call is legal |
| Calls.ExitExact | src/tealet.c:1899-1953 | `tealet_exit` keeps the invariant if and only if the call is legal |
| Calls.PanicFits | src/tealet.c:1688-1693 | a panic leaves a legal state if and only if its receiver's frame declares nobody else to be running and undoes no binding that holds a stack |
| Operations.RunInv | src/tealet.c:1648-1702 | `tealet_run` keeps the invariant |
| Operations.ForkInv | src/tealet.c:1712-1794 | `tealet_fork` keeps the invariant |
| Operations.NewInv | src/tealet.c:1598-1617 | `tealet_new` keeps the invariant |
| Operations.DuplicateInv | src/tealet.c:1955-1979 | `tealet_duplicate` keeps the invariant, reference counts included |
| Operations.DeleteInv | src/tealet.c:1981-1992 | `tealet_delete` keeps the invariant, also when it frees a stack in mid-list |
| Operations.CutStaircase | src/tealet.c:901-918 | freeing a listed stack leaves a staircase |
| Operations.SetFarInv | src/tealet.c:2148-2158 | `tealet_set_far` keeps the invariant if and only if main runs and nothing listed needs the stack below the new boundary, or main is suspended and keeps the boundary it has |
| Operations.WriteInv | src/tealet.c:1071-1106 | user code may write anywhere below its own boundary |
| Guarantees.UnboundedRunsAlone | src/tealet.c:1089-1106 | while an unbounded stack runs, the list is empty and nothing is half saved |
| Calls.ToMainNeverFails | src/tealet.c:1007-1014 | a forced transfer to main never fails for lack of memory |
| Guarantees.NofailTotal | src/tealet.c:1873-1885 | with NOFAIL no allocator behaviour leads to ERR_MEM or ERR_DEFUNCT |
| Guarantees.NofailCalls | src/tealet.c:1936-1948 | the same for the calls of switch and exit |
| Guarantees.FailureAtomic | src/tealet.c:1318-1337 | a transfer that runs out of memory changes nothing visible, and nothing about its caller but the frame it leaves; one that somebody else than main forces loses exactly whom its growth step gave up |
| Calls.FailureKeepsList | src/tealet.c:1124-1131 | the list of an attempt that runs out of memory stays exact if and only if the target was not lost, by its place on the list and the allocator's answers |
| Guarantees.StartNowAtomic | src/tealet.c:1688-1695 | a failed START_SWITCH changes nothing visible and leaves the tealet NEW |
| Guarantees.StartLaterAtomic | src/tealet.c:1774-1783 | so does a failed START_DEFAULT, whatever boundary it asked for |
| Guarantees.OneRunner | src/tealet.c:2024-2033 | exactly the running tealet is ACTIVE without a saved stack |
| Guarantees.OnlyActiveResumes | src/tealet.c:1804-1853 | every switch or exit that takes place restores an active, suspended tealet, and never just saves |
| Guarantees.PanicExact | src/tealet.c:1824-1845 | ERR_PANIC is seen exactly by the receiver of the attempt that asked for it |
| Guarantees.SignalsClear | src/tealet.c:1067-1112 | whenever user code runs, every one-shot signal is clear on every tealet |
| Guarantees.LockHandOff | src/tealet.c:1366-1378 | the lock is held through every transfer and released once by whoever goes on, wherever the receiver was suspended |
| Guarantees.StartLocks | src/tealet.c:1448-1464 | the same for run and fork |
| Effects.SaveBindings | src/tealet.c:1108-1123 | saving forgets previous exactly when it frees an exiting caller that is previous, and marks a caller that exits as exited, and nothing else |
| Effects.StepEffects | src/tealet.c:1258-1360 | after every operation the previous tealet, every tealet's boundary, origin, bound and exited bit, and the frame of whoever was suspended, bound or copied are those foretold from the operation and the state before it; all other frames stay |
| Effects.CallEffects | src/tealet.c:1804-1889 | for any switch or exit: previous is the caller after a transfer or a switch to itself, nobody when the caller was freed, and otherwise as before; no binding changes, but that a caller that exits has exited |
| Effects.NowEffects | src/tealet.c:1679-1697 | for any START_SWITCH: the tealet is bound as asked or NEW again, previous is the creator or as before, and nobody else's binding changes |
| Effects.LaterEffects | src/tealet.c:1764-1772 | for any START_DEFAULT, whatever its boundary: the same, and previous is as before |
| Answers.AttemptAnswers | src/tealet.c:1804-1853 | each code of an attempt is seen in exactly one case: INVAL for an unbound or exited target, an exit to oneself or a call from elsewhere, INTEGRITY for a changed byte, DEFUNCT, MEM, and Ok or PANIC when it arrives, a switch to itself included; a defunct target is remembered to be |
| Answers.CallAnswers | src/tealet.c:1870-1885 | the same for a whole call: NOFAIL turns MEM and DEFUNCT into a panic of main, or into the refusal of the outside |
| Answers.PublicAnswers | src/tealet.c:1855-1953 | `tealet_switch` and `tealet_exit` answer with the code of the transfer |
| Answers.RunAnswers | src/tealet.c:1648-1702 | which code `tealet_run` answers: INVAL for a tealet that is not NEW or a call from elsewhere, INTEGRITY, MEM, or Ok exactly when the tealet starts |
| Answers.ForkAnswers | src/tealet.c:1712-1794 | the same for `tealet_fork`, and UNFORKABLE for a parent without a boundary |
| Answers.SetFarAnswers | src/tealet.c:2148-2158 | only main has a boundary to set |
| Answers.StepLocks | src/tealet.c:1366-1378 | every operation takes the lock once and releases it once; a run or fork refused at once, and set_far, do not touch it |
| Lifecycle.StepStatus | src/tealet.c:2024-2033 | the status of every tealet after every operation: NEW when its binding failed or was undone, ACTIVE when started or resumed, EXITED when it exits, DEFUNCT when lost, a copy's that of its original, and otherwise as before |
| Lifecycle.RunBirth | src/tealet.c:1648-1702 | a run that answers Ok leaves an ACTIVE tealet with the boundary asked for, not forked and not of main's lineage |
| Lifecycle.ForkBirth | src/tealet.c:1743-1749 | a fork that answers Ok leaves an ACTIVE child that is forked, bounded as its parent, and of main's lineage if and only if its parent is |
| Lifecycle.CopyBirth | src/tealet.c:1955-1979 | a duplicate has the status, boundary and origin of its original |
| Lifecycle.NewBirth | src/tealet.c:1598-1617 | a new tealet is NEW |
| Lifecycle.StepOrigin | src/tealet.c:2013-2022 | no operation changes the origin of a tealet that stays bound, nor its boundary, unless it is main's |
| Lifecycle.OriginKept | src/tealet.c:2013-2022 | so over a whole run a tealet keeps the origin it was bound with for as long as it stays bound |
| Lifecycle.RunLineage | src/tealet.c:1555-1559 | in every state of every run main is of its own lineage and not forked, and whoever else is of it was forked |
| Lifecycle.StepPrev | src/tealet.c:755-767 | every operation makes whoever gives up control the previous tealet, and forgets a previous tealet that it frees |
| Lifecycle.PrevIsLast | src/tealet.c:2003-2006 | over a whole run, the previous tealet is whoever was the last to give up control, or nobody if and only if that tealet has been freed since |
| Lifecycle.PrevIsNobody | src/tealet.c:1555-1559 | and nobody as long as nobody has given up control |
| Spawning.RunFarExact | src/tealet.c:1635-1639 | START_DEFAULT with a boundary hint keeps the invariant if and only if it does not go through or no listed stack needs what lies below the boundary |
| Spawning.RunExact | src/tealet.c:1648-1702 | `tealet_run` keeps the invariant if and only if the call is legal |
| Edges.PanicToCreator | src/tealet.c:1688-1693 | a call that ends as a panic in the creator that waits for its caller keeps the invariant if and only if the caller exits or cannot be saved |
| Edges.PanicToUnstarted | src/tealet.c:1417-1421 | a call that ends as a panic in a tealet that never ran, or in a duplicate of one, always breaks the invariant |
| Edges.LostTargetExample | src/tealet.c:1124-1131 | a run to a state in which `tealet_switch` returns ERR_MEM and has lost its target |
| Edges.TooFarExample | src/tealet.c:1683-1685 | a run to a state in which a boundary hint breaks the order of the list |
| Edges.PanicExample | src/tealet.c:1688-1693 | a run to a state in which PANIC drops the stack pointer of its caller |
| Edges.UnstartedExample | src/tealet.c:1417-1421 | runs to states in which PANIC reaches a tealet that never ran, and its duplicate |
| Edges.OrphanExample | src/tealet.c:1839-1841 | a run to a state in which PANIC reaches a duplicate whose original is gone |
| Edges.TornExample | src/tealet.c:1001-1014 | a run to a state in which a shared target is restored after its chunks were freed, and its saved part shrinks |
| Edges.SetFarExample | src/tealet.c:2148-2158 | runs to states in which moving main's boundary breaks the invariant while main runs, and while it is suspended |
| Edges.SizesExample | src/tealet.c:2080-2125 | a run to a state with a shared, half-saved stack of two chunks, and all sizes that `tealet_get_stats` gives there |
| ListEffect.ToListedTarget | docs/INCREMENTAL_SAVE.md:20-35 | any transfer to a listed target, forced or not, leaves exactly the older stacks, untouched; each newer one is fully saved or given up, by the answer to its request; the caller is saved in full, unless it exits or is given up |
| ListEffect.OffListGrowth | src/tealet.c:967-1055 | growth for an unlisted target, forced or not, drops exactly the stacks that end at or before its boundary, and the next one if it needs memory and is refused; each is fully saved or given up, by the answer to its request |
| ListEffect.ToUnlistedTarget | docs/INCREMENTAL_SAVE.md:20-35 | any transfer to an unlisted target drops exactly that prefix, and pushes the caller exactly when it is saved and ends beyond the target's boundary; an exit pushes nothing |
| CopyBound.OrderedTotal | src/tealet.c:806-836 | copied ranges that follow each other add up to at most the span they lie in |
| CopyBound.GrowListCopies | src/tealet.c:1020-1055 | what one growth of the list copies are disjoint ranges in order |
| CopyBound.TransferCopies | src/tealet.c:948-1055 | a transfer copies no address twice and, to a bounded target, at most max(0, far - sp) bytes |
| RoundTrip.GrowAllHolds | src/tealet.c:806-836 | after any sequence of grows the chunks hold what was there at suspension |
| RoundTrip.RoundTrips | src/tealet.c:773-848 | save, any grows, restore puts back exactly the bytes of suspension and touches nothing else |
| Accounting.StepLedger | src/tealet.c:217-232 | every operation keeps the counters equal to the sums over the live blocks |
| Accounting.RunLedgers | src/tealet.c:217-232 | so they are equal in every state of every run from `tealet_initialize` |
| Accounting.ByTealetIsByStack | src/tealet.c:2049-2129 | summing over tealets is summing over stacks, each as often as it is held |
| Accounting.NaiveExact | src/tealet.c:2088-2111 | the naive size is the expanded size without the headers of extra chunks, and with every byte that a bounded stack has not saved up to its boundary |
| Accounting.ExpandedAtMostNaive | src/tealet.c:2049-2129 | the expanded size is at most the naive size and one chunk header per extra chunk, and exactly that when nothing is left unsaved |
| Accounting.StackBytesAtMostExpanded | src/tealet.c:2049-2129 | stack_bytes is at most the expanded size, and equal exactly when no stack is shared |
| StackStore.Stack.Append | src/tealet.c:826-834 | a new chunk goes to the end of the chain, which stays well linked |
| StackStore.Stack.Restore | src/tealet.c:838-848 | the loop over the chunks copies each back to its own address |
| StackStore.Stack.ExpandedSize | src/tealet.c:2113-2123 | the loop over the chunks adds up all blocks of a stack |
| StackStore.Stack.EffectiveFar | src/tealet.c:2089-2106 | the farthest end of a chunk is the end of the saved bytes |
| StackStore.CopyBack | src/tealet.c:838-848 | memcpy onto the C stack |
| StackStore.Store.Charge | src/tealet.c:773-785 | a block is asked for and counted, or refused and not counted |
| StackStore.Store.StackNew | src/tealet.c:773-804 | does what `StackModel.StackNew` does |
| StackStore.Store.StackGrow | src/tealet.c:806-836 | does what `StackModel.GrowStack` does |
| StackStore.Store.StackRestore | src/tealet.c:838-848 | does what `StackModel.Restore` does |
| StackStore.Store.StackDup | src/tealet.c:850-853 | does what `StackModel.Dup` does |
| StackStore.Store.StackLink | src/tealet.c:855-865 | puts a stack at the head, with the pointer slots of both neighbours right |
| StackStore.Store.Bypass | src/tealet.c:867-878 | the pointer moves of unlink at head, middle and tail; the stack keeps its own `next` |
| StackStore.Store.StackUnlink | src/tealet.c:867-878 | cuts the stack out of the list and nothing else |
| StackStore.Store.ChunkDecref | src/tealet.c:880-899 | frees a run of unshared chunks, each counted once |
| StackStore.Store.StackDecref | src/tealet.c:901-918 | does what `StackModel.Decref` does: unlinked and freed at the last reference only |
| StackStore.Store.StackDefunct | src/tealet.c:920-931 | does what `StackModel.Defunct` does |
| StackStore.Store.StackSaveTo | src/tealet.c:948-965 | does what `StackModel.SaveTo` does |
| StackStore.Store.StackGrowTo | src/tealet.c:967-1015 | does what `StackModel.GrowTo` does, inside the C stack, and its assertions hold |
| StackStore.Store.WalkOn | src/tealet.c:1048-1053 | after a visit that is not to the target, the rest of the list can be walked although a stale `next` is followed |
| StackStore.Store.StackGrowList | src/tealet.c:1020-1055 | the loop terminates and does what `StackModel.GrowList` does |
| Engine.Domain.constructor | src/tealet.c:1545-1596 | `tealet_initialize` makes an initial state with correct counters |
| Engine.Domain.FreeTealet | src/tealet.c:755-767 | does what `TransferModel.FreeT` does |
| Engine.Domain.IsDefunct | src/tealet.c:933-941 | answers and remembers whether a tealet is defunct |
| Engine.Domain.SaveState | src/tealet.c:1071-1148 | does what `TransferModel.SaveState` does, and its assertions hold; what that leaves of the caller and of previous is in `Effects.SaveBindings` |
| Engine.Domain.RestoreState | src/tealet.c:1150-1159 | does what `TransferModel.RestoreState` does |
| Engine.Domain.SaveCallback | src/tealet.c:1165-1184 | the callback before the change of stack pointer answers with the target's near end or keeps the pointer |
| Engine.Domain.RestoreCallback | src/tealet.c:1185-1195 | the callback after it restores exactly when the first one asked for it |
| Engine.Domain.StackmanSwitch | stackman/stackman/stackman_switch.h:57-68 | save, change the stack pointer, restore |
| Engine.Domain.Refuse | src/tealet.c:1276-1315 | the reasons to refuse a transfer, in the order of the code, with PANIC consumed |
| Engine.Domain.SwitchStack | src/tealet.c:1258-1360 | does what `TransferModel.SwitchStack` does |
| Engine.Domain.XferInner | src/tealet.c:1804-1853 | does what `TransferModel.XferInner` does |
| Engine.Domain.Transfer | src/tealet.c:1870-1885 | the attempts of switch and exit, with the NOFAIL retry |
| Engine.Domain.Switch | src/tealet.c:1855-1889 | does what `TransferModel.Switch` does, and keeps the invariant if and only if the call is legal |
| Engine.Domain.PanicFrame | src/tealet.c:1688-1693 | what the frame of a receiver does about a panic: clears the signals of its call, or undoes a binding |
| Engine.Domain.Receive | src/tealet.c:1866-1888 | does what `TransferModel.Receive` does, and releases the lock |
| Engine.Domain.Exit | src/tealet.c:1899-1953 | does what `TransferModel.Exit` does, and keeps the invariant if and only if the call is legal; who is previous then is in `Lifecycle.StepPrev` |
| Engine.Domain.PickInitialFar | src/tealet.c:1635-1639 | a hint can only move the boundary out |
| Engine.Domain.StartNow | src/tealet.c:1388-1478 | the START_SWITCH side of `tealet_initialstub`, for run and fork |
| Engine.Domain.StartLater | src/tealet.c:1388-1478 | the START_DEFAULT side, with the new tealet standing in for its creator |
| Engine.Domain.Run | src/tealet.c:1648-1702 | picks the boundary, does what `TransferModel.Run` does, and keeps the invariant if and only if the call is legal |
| Engine.Domain.Fork | src/tealet.c:1712-1794 | does what `TransferModel.Fork` does and keeps the invariant; how the child is born is in `Lifecycle.ForkBirth` |
| Engine.Domain.New | src/tealet.c:1598-1617 | does what `TransferModel.New` does and keeps the invariant |
| Engine.Domain.Duplicate | src/tealet.c:1955-1979 | does what `TransferModel.Duplicate` does and keeps the invariant |
| Engine.Domain.Delete | src/tealet.c:1981-1992 | does what `TransferModel.Delete` does and keeps the invariant |
| Engine.Domain.SetFar | src/tealet.c:2148-2158 | does what `TransferModel.SetFar` does, and keeps the invariant if and only if the boundary fits |
| Engine.Domain.SizesOf | src/tealet.c:2080-2125 | what one tealet adds to the expanded and the naive size, which `Accounting.NaiveExact` relates |
| Engine.Domain.GetStats | src/tealet.c:2049-2129 | the walk over all tealets computes the sums that `Accounting.NaiveExact` and `Accounting.StackBytesAtMostExpanded` speak of |
| Engine.Domain.UserWrite | src/tealet.c:1071-1106 | a store by user code below its boundary keeps the invariant |
| Integrity.CanonFixes | src/tealet.c:695-738 | exactly the settings that meet the invariants are left alone, and canonicalizing twice is once |
| Integrity.CanonIs | src/tealet.c:695-738 | canonical settings are the most that may be had of what was asked for; an access mode or policy that there is not becomes NOACCESS and ASSERT |
| Integrity.Config.Canonicalize | src/tealet.c:695-738 | the stepwise clean-up computes the canonical settings |
| Integrity.AndNotRounds | src/tealet.c:407-417 | clearing the bits below a power of two rounds down to a multiple of it |
| Integrity.MaskRoundsUp | src/tealet.c:407-417 | adding the mask and clearing its bits finds the first page boundary |
| Integrity.MaskRounds | src/tealet.c:407-417 | in 64 bits it finds that boundary, or zero exactly when that is the end of the address space |
| Integrity.WindowIs | src/tealet.c:338-378 | the clamped window holds exactly the addresses asked for: so many from the boundary on, below the limit when there is one, and none of an unbounded stack or with integrity off |
| Integrity.PlanWatches | src/tealet.c:323-470 | exactly those are watched: with a snapshot alone all of them; with a guard the snapshot holds those before the first page boundary, and exactly the pages with a watched byte on them are guarded from there on |
| Integrity.OutOfReachExample | src/tealet.c:407-417 | settings and a boundary for which the end of the guarded pages wraps around |
| Integrity.PlanSplits | src/tealet.c:323-470 | snapshot and guarded pages are disjoint, cover the window, overshoot it by less than a page, and the snapshot is shorter than a page |
| Integrity.GuardsPages | src/tealet.c:411-457 | only whole pages are guarded |
| Integrity.NothingEscapes | src/tealet.c:323-470 | while guarded pages keep their contents, every change in the window shows in the snapshot |
| Integrity.RequiredFits | src/tealet.c:538-556 | the preallocated workspace holds the snapshot of every window |
| Integrity.RequiredTight | src/tealet.c:538-556 | and no smaller one would |
| Integrity.Watcher.EnsureCapacity | src/tealet.c:562-587 | the workspace only grows, and a refused allocation changes nothing |
| Integrity.Watcher.ConfigureSet | src/tealet.c:2195-2236 | settings are committed, canonical, only with a workspace that fits them; otherwise nothing changes |
| Integrity.Watcher.SplitAtPage | src/tealet.c:406-457 | the mask arithmetic computes the split at the first page boundary; nothing is guarded when the end wraps around |
| Integrity.Watcher.PlanForCurrent | src/tealet.c:338-470 | the plan watches exactly what the settings ask for if and only if no byte left to the guard lies on the last page of the address space or past it; if one does, nothing is guarded |
| Integrity.Watcher.Capture | src/tealet.c:592-613 | the watched bytes are copied |
| Integrity.Watcher.Verify | src/tealet.c:622-646 | a mismatch is reported if and only if a captured byte has changed, by the configured policy |
| ArchiveProofs.LiteralIs | stackman/tools/strip-lib.py:147-148 | the size fields that are accepted are the usual decimal numbers, and rows of zeros |
| ArchiveProofs.HeaderBack | stackman/tools/strip-lib.py:131-176 | a header that is written is read back, whatever follows |
| ArchiveProofs.HeaderImage | stackman/tools/strip-lib.py:131-160 | whatever is read as a header could have been written |
| ArchiveProofs.FirstBack | stackman/tools/strip-lib.py:179-200 | the first linker member is read back |
| ArchiveProofs.SecondBack | stackman/tools/strip-lib.py:203-232 | the second linker member is read back |
| ArchiveProofs.StringEnds | stackman/tools/strip-lib.py:235-242 | a string is read if and only if a zero byte ends it |
| ArchiveProofs.StringsBack | stackman/tools/strip-lib.py:235-247 | strings that hold no zero byte are read back |
| ArchiveProofs.LongnamesBack | stackman/tools/strip-lib.py:75-79 | so are the long names, whose last one may run past the member |
| ArchiveProofs.LibImage | stackman/tools/strip-lib.py:32-97 | whatever `read_lib` accepts can be represented |
| ArchiveProofs.RoundTrip | stackman/tools/strip-lib.py:32-114 | reading what `write_lib` wrote gives the same library if and only if the format can represent it |
| ArchiveProofs.ReadAgain | stackman/tools/strip-lib.py:32-114 | a library that was read reads back from its written form |
| ArchiveStrip.StripLength | stackman/tools/strip-lib.py:267-309 | stripping keeps the length of a member if and only if its section table is not torn |
| ArchiveStrip.StripAt | stackman/tools/strip-lib.py:267-309 | exactly which bytes of a member stripping changes |
| ArchiveStrip.StripTwice | stackman/tools/strip-lib.py:267-309 | stripping a stripped member changes nothing |
| ArchiveStrip.StampsForgotten | stackman/tools/strip-lib.py:267-274 | two members get the same bytes exactly when they agree outside their time stamps |
| ArchiveStrip.StripLibTwice | stackman/tools/strip-lib.py:117-128 | stripping a library is idempotent |
| ArchiveStrip.StripKeepsFormat | stackman/tools/strip-lib.py:117-128 | a stripped library round-trips if and only if its members still fit their headers |
| ArchiveStrip.WholeTablesFit | stackman/tools/strip-lib.py:277-309 | they fit, with their old lengths, when no section table is torn |
| ArchiveStrip.FittingTable | stackman/tools/strip-lib.py:282-288 | a section table that fits its member is not torn |
| ArchiveStrip.NothingMoves | stackman/tools/strip-lib.py:100-114 | every member stays at its offset in the file, so that the linker members stay right |
| ArchiveStrip.TornExample | stackman/tools/strip-lib.py:291-309 | the smallest member that stripping makes longer |
| ArchiveForgets.DateBytes | stackman/tools/strip-lib.py:118-119 | in every stripped header the twelve bytes of the date are "-1" and ten spaces, and every other byte is as before |
| ArchiveForgets.NamesForgotten | stackman/tools/strip-lib.py:291-301 | two names are padded to the same bytes if and only if they differ at most behind a zero byte |
| ArchiveForgets.MembersForgotten | stackman/tools/strip-lib.py:267-309 | two members of one length are stripped to the same bytes if and only if they differ at most in their time stamps and in the padding of section names |
| ArchiveForgets.LibsForgotten | stackman/tools/strip-lib.py:117-128 | libraries that differ at most in dates, time stamps and padding are stripped to the same library, and, without torn tables, only they are |
| ArchiveForgets.ToolForgets | stackman/tools/strip-lib.py:18-29 | two accepted files become the same output file when they differ at most so, and, without torn tables, only then |
| ArchiveSample.ByteOrders | stackman/tools/strip-lib.py:179-219 | which byte of an integer counts most in each linker member |
| ArchiveSample.Whitespace | stackman/tools/strip-lib.py:142-147 | which bytes are stripped from the text of a field |
| ArchiveSample.SampleReads | stackman/tools/strip-lib.py:32-97 | a library byte for byte, and the fields it is read to |
| ArchiveSample.LongnamesRead | stackman/tools/strip-lib.py:68-82 | a member named "//" byte for byte, and the long names it is read to |
| ArchiveSample.SampleStripped | stackman/tools/strip-lib.py:18-29 | and the file that the tool writes for it: two dirty section names, a stamp and three dates replaced, nothing else |
| ArchiveFile.HeaderRead | stackman/tools/strip-lib.py:131-160 | moves the cursor over a header as the parser does |
| ArchiveFile.HeaderWrite | stackman/tools/strip-lib.py:162-176 | appends a header |
| ArchiveFile.FirstRead | stackman/tools/strip-lib.py:179-191 | the loops over offsets and strings parse the first linker member |
| ArchiveFile.FirstWrite | stackman/tools/strip-lib.py:194-200 | appends the first linker member |
| ArchiveFile.SecondRead | stackman/tools/strip-lib.py:203-219 | the loops parse the second linker member |
| ArchiveFile.SecondWrite | stackman/tools/strip-lib.py:222-232 | appends the second linker member |
| ArchiveFile.StringRead | stackman/tools/strip-lib.py:235-242 | reads to the first zero byte |
| ArchiveFile.ReadOptionalNewline | stackman/tools/strip-lib.py:250-256 | consumes a newline or nothing |
| ArchiveFile.LongnamesRead | stackman/tools/strip-lib.py:75-79 | the loop over the long names |
| ArchiveFile.MembersRead | stackman/tools/strip-lib.py:86-97 | the loop over headers and members, with a header that may have been read already |
| ArchiveFile.LibRead | stackman/tools/strip-lib.py:32-97 | accepts exactly what the parser accepts and builds that library |
| ArchiveFile.LibWrite | stackman/tools/strip-lib.py:100-114 | writes the bytes of the library |
| ArchiveFile.StampStrip | stackman/tools/strip-lib.py:267-274 | zeroes the time stamp, or fails on a member too short for one |
| ArchiveFile.PaddingFix | stackman/tools/strip-lib.py:277-309 | cutting, padding and joining the section headers computes the fixed member |
| ArchiveFile.StripTimestamp | stackman/tools/strip-lib.py:117-128 | edits the library in place to its stripped form, with the bytes of `ArchiveForgets.DateBytes` and `ArchiveStrip.StripAt` |
| ArchiveFile.Tool | stackman/tools/strip-lib.py:18-29 | the output file holds the stripped library; which files give the same output is in `ArchiveForgets.ToolForgets` |
| ArchiveFile.ToolTwice | stackman/tools/strip-lib.py:18-29 | feeding the tool its own output changes nothing |

## Left out

- Assembly, register saving and `stackman_switch` itself: only its two callbacks around the change of the stack pointer.
- The result of the caller-stack probe (src/tealet.c:1217-1251), of `mprotect` and of the integrity comparison inside a
  transfer: each call takes them as arbitrary answers.
- Memory protection as an effect: `tealet_guard_protect_current` and its opposite.
- Ascending stacks: the branch is not live in this build.
- Deferred exit (`TEALET_EXIT_DEFER`) and the argument `g_arg` that transfers carry.
- Frames of library functions inside the saved bytes: saved bytes are opaque, except for the tag of the place at which a
  suspended tealet goes on.
- The peak counters, `g_counter` and `g_blocks_allocated_total`.
- The order of the circular list of tealets: the model has the set of them.
- What the user function of a tealet does: arbitrary writes below its boundary and arbitrary calls at any stack pointer.
- `tealet_get_stacksize`, user pointer, extra payload, `tealet_extras.c`, `stack_diff`, the debug helpers, `tealet_finalize`.
- The prefix copy of config structs of other sizes; `configure_get` and `configure_check_stack`.
- The size word of `tealet_alloc`: blocks of tealets all have the size `tsize`.
- Command line, verbose printing and Python's `eval` of the size field (decimal literals instead) in the archive tool.
- ArchiveFile.StringRead: ends with an error where the original never returns.
