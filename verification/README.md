# The Thrax runtime and its analyses, in Dafny

Thrax programs run on a machine that keeps its continuation as data: a stack of
frames that an effect operation cuts a slice from and that a resumption puts back.
The native runtime does this over reference-counted memory, shares values between
threads, runs a work-stealing pool and optimistic transactions, and the compiler
computes analyses that let it skip steps. This project models that runtime and those
analyses, and proves what they keep.

`dafny verify dfyconfig.toml` checks everything. Nothing in it runs Thrax.

## How the modules fit together

**Counted memory and continuations** (`Objects`, `Kinds`, `Runtime`, `Continuations`,
`Slots`, `Ordering`, `Delivery`, `Copying`, `Applying`, `Cleanups`, `Reuse`). `Objects`
says what it means for every count to be exact: each equals the counted references in the
heap plus the roots, where an edge from a value to itself is weak and is not counted.
`Runtime.Machine` is the mutable state of the native runtime: heap, dead worklist and
continuation stack, with the references in flight as the ghost multiset `held`. Every
operation keeps `Inv`: counts exact, every reference of the right kind, no resumption
naming a slice that was moved out, and every cell in a reuse token emptied.

**The reified machine** (`Reified`, `Reifying`, `Moving`, `Ownership`, `Unowned`,
`Retaining`, `Agreeing`, `Parting`, `Dividing`, `Skipping`, `Abandoning`, `Spoiling`).
The same machine as a step function over values, run in four modes: resumes move or
copy, and clauses that cannot resume skip the capture or make it. `Reifying` says what
its steps do, place by place. `Ownership.Counts` answers its two questions (does anything
but boundaries own this slice, does this call alone hold the resumption) as exact counts
do, by reachability. The theorems compare whole runs, each machine deciding by its own
counts.

**Sharing, the pool and transactions** (`Levels`, `Sharing`, `Racing`, `Rings`, `Pool`,
`PoolSafety`, `PoolWaking`, `PoolMail`, `PoolKnots`, `Stm`). Interleavings of atomic
steps: a step is one atomic access or one section under a lock.

**Analyses of the intermediate representation** (`Ir`, `Currying`, `Direct`,
`Signatures`, `Evidence`, `Unboxed`, `Fusion`, `Spelling`, `Driver`, `Stepping`,
`Fusing`, `Stale`, `Evaluated`). `Ir` evaluates code with a bound on the depth of calls,
as far as it runs without the continuation; theorems hold at every bound. `Driver` is the
whole machine over the same code: prompts, cleanups, captured slices, moving and copying
resumes, let by let or with chains of built-ins run as one call; `Stepping` says what its
steps do, place by place. `Fusing` compares whole runs of the two, each deciding by its
own counts, and `Evaluated` ties the evaluator to the machine. `Spelling` and `Evidence`
say which calls and which integers the analyses find.

**Tensors** (`Shapes`, `Tensors`, `Views`, `Stacking`, `Building`, `Dots`, `Matrices`)
and **sequence patterns** (`Patterns`, `Splitting`, `Desugaring`).

## Model

| member | source | states |
|---|---|---|
| Runtime.Machine.Release | crates/ccg/src/runtime.c:550-599 | Drops one reference, in place. The counts are exact before and after; the caller gives up just that reference; what was destroyed is listed in `log`, each object once, freed or left with an unchanged payload. Inside a drain a dying value is only enqueued; an activation or a slice is taken apart at once. Terminates on every graph, cycles included. |
| Runtime.Machine.Drain | crates/ccg/src/runtime.c:589-599 | The worklist loop: ends with an empty list, exact counts, and nothing destroyed twice; terminates because each turn frees an object. |
| Runtime.Machine.Destroy | crates/ccg/src/runtime.c:1972-2024 | Destroying a value whose count is zero releases exactly what it held: each counted child once, and an edge to itself not at all. |
| Runtime.Machine.KFrameRelease | crates/ccg/src/runtime.c:2250-2293 | Releasing a popped or discarded frame gives up exactly what the frame holds; a boundary gives up its boundary count as well as its reference, and a slice nobody owns releases the frames still in it. |
| Objects.ReleaseFreesTheLeast | crates/ccg/src/runtime.c:1972-2022 | For every graph with weak self edges: what a release destroyed is safe (nothing left refers to it), enough (everything left unreferenced is in it), and contained in every other set that is enough. So nothing referenced is freed and nothing whose count reached zero survives. |
| Objects.SelfIsWeak | crates/ccg/src/runtime.c:1972-2013 | What a value counts: each other value as often as it is a field, and itself never. |
| Objects.SlotsCount | crates/ccg/src/runtime.c:2237-2245 | What an activation counts: its closure, and whatever is in its slots. |
| Kinds.SliceCounts | crates/ccg/src/runtime.c:218-236 | In every reachable state a slice's `rc` is the resumption cells naming it plus `nbound`, and `nbound` is the boundary frames naming it on the stack and inside other slices (references in flight are accounted for separately). |
| Continuations.FindClause | crates/ccg/src/runtime.c:3250-3270 | The clause an operation runs: the nearest prompt above the base with a clause for it, and the first such clause of that prompt; none only if there is none. A clause is for an operation of its name, unless both name effects and these differ. |
| Continuations.Capture | crates/ccg/src/runtime.c:3290-3308 | Capturing moves the frames from the prompt up, the prompt included, into a fresh slice with `rc` 2 and `nbound` 1, unused; a boundary takes their place; no other count changes and the invariant is kept. |
| Continuations.Abandon | crates/ccg/src/runtime.c:3274-3289 | For a clause that cannot resume: the same frames are released at once, exactly, and their cleanups stay in one frame, or none when there are none. |
| Continuations.Move | crates/ccg/src/runtime.c:3318-3332 | A resume that holds the only resumption moves the frames back: stack grown by exactly the slice, the emptied slice left to its boundaries, the spent resumption freed, and still no resumption names an emptied slice. |
| Continuations.SegmentCleanups | crates/ccg/src/runtime.c:2418-2432 | The cleanups gathered are exactly the `Defer` frames' cleanups in slice order, one reference taken on each. |
| Continuations.DefersInOrder | crates/ccg/src/runtime.c:2418-2432 | Those are the cleanups of every `Defer` frame, each once, at increasing places of the slice. |
| Copying.SegmentCopy | crates/ccg/src/runtime.c:2354-2416 | A resume that may not be the last pushes a copy: frame for frame the slice, every return frame on a private activation that holds what the original holds, but for a fresh box in exactly the slots returned into that held one, each its own; the boundaries counted once more on their slices, the original slice untouched and the counts exact. |
| Copying.CopyKeepsSharing | crates/ccg/src/runtime.c:2317-2337 | Two return frames of the copy share an activation if and only if the originals did. |
| Copying.CopyOwnsBoxes | crates/ccg/src/runtime.c:2363-2374 | A box returned into is in the copy a fresh, empty one, and two return frames have one box there if and only if they return into one slot of one activation. |
| Copying.CopyIsExact | crates/ccg/src/runtime.c:2297-2315 | Where the slice returns into no box, each copied activation holds exactly what its original holds. |
| Slots.PutSlot | crates/ccg/src/runtime.c:2557-2574 | Writing a slot changes that slot and nothing else; the reference that was there comes to the caller. |
| Slots.BackPatch | crates/ccg/src/runtime.c:2578-2587 | Patching a recursive-let box: its old contents are released, it reads as the value, a child that is the box itself becomes the weak edge, and the counts are exact. Premise: the value is not a thunk over that very box (`PatchCounts` shows why). |
| Slots.PatchCounts | crates/ccg/src/runtime.c:2044-2122 | The patch keeps the counts exact if and only if the value is not a thunk over the box it is stored in. |
| Delivery.DoRet | crates/ccg/src/runtime.c:2803-2908 | Handing a value to the stack, as a whole: the frames that do not move control settle one by one, each as its tag says. At a boundary whose slice was never resumed and that no resumption names, on the heap or in flight, the cleanups of its `Defer` frames are queued over the value in slice order and unit is in flight, whatever the number of its boundaries; past every other the value goes on unchanged. Then the run is finished or the top frame takes the value. A stop names the frame that could not take it. Frames below the base are untouched and counts stay exact. |
| Delivery.InUseExactly | crates/ccg/src/runtime.c:2857-2865 | The test of the counts is that question: a slice is found in use if and only if it was resumed, some resumption cell names it, or a reference to it is in flight. |
| Delivery.DeliveryLands | crates/ccg/src/runtime.c:2803-2908 | Where the value lands: alone in slot 0 of a prompt's value clause; saved below a cleanup that is entered on nothing; in the return frame's slot, or into the box there. |
| Delivery.EnterClo | crates/ccg/src/runtime.c:2781-2799 | Entering a closure: a fresh activation with argument `i` in slot `i`, every later slot empty, and a reference on each argument; it fails exactly when the callee is no closure of existing code with as many slots as arguments. |
| Applying.DoApply | crates/ccg/src/runtime.c:3195-3348 | Applying a closure, a built-in, an operation or a resumption: the closure's code is entered on the argument; a built-in hands on the runtime's answer or a longer partial application; the nearest clause runs below its prompt; or the slice is spliced (moved exactly when this call holds the only way to resume it, copied otherwise) and the argument delivered to it. Code entered finds the argument in slot 0, and a clause in slot 1 the resumption or unit, also once the call has given up its own references. A stop has its reason stated. Counts stay exact, and "resumed a continuation that was moved out" is never reached. |
| Applying.ApplicationLands | crates/ccg/src/runtime.c:3290-3316 | A performed operation's clause has the argument in slot 0, and in slot 1 unit if it cannot resume, otherwise the resumption of the fresh slice that holds the frames from the prompt up; a called closure has its argument in slot 0; every other slot is empty. |
| Applying.LastOperandAnswers | crates/ccg/src/runtime.c:3208-3250 | A built-in or foreign function of arity `n` that has been given `k` operands hands on the answer if and only if `k + 1 == n`, and otherwise a fresh one holding one operand more. |
| Applying.NthIsAnswered | crates/ccg/src/runtime.c:2912-2940 | Applied again and again from no operands, it holds before application `i` the `i` arguments so far, in order, and the `n`-th application and none before it is answered. |
| Applying.Splice | crates/ccg/src/runtime.c:3318-3340 | What a resume puts on the stack, and that there is always something to put: a resumption never names a slice whose frames are gone. |
| Cleanups.CleanupsStartAtMostOnce | crates/ccg/src/runtime.c:2842-2904 | Over any run of the operations above in which no slice is copied, no cleanup is started more often than it was installed. |
| Cleanups.UnwindsInnermostFirst | crates/ccg/src/runtime.c:2420-2432 | Queued cleanups are entered innermost first, each once, and then the saved value is in flight above the frames below, whatever the cleanups returned. |
| Cleanups.AbandonedUnwinds | crates/ccg/src/runtime.c:2857-2904 | When the boundary of an abandoned slice is reached, captured or not, its cleanups start innermost first, and if each returns normally the value that reached the boundary is delivered below it. |
| Cleanups.ForsakenUnwinds | crates/ccg/src/runtime.c:2857-2904 | At the boundary of a slice that nobody resumed and nobody can: the cleanups of its `Defer` frames are entered, each once, the last frame's first, and then the value that reached the boundary is in flight below it. |
| Reuse.Unpack | crates/ccg/src/runtime.c:2619-2651 | Unpacking the scrutinee of a case where it dies. Binder `i`, where it is read, holds field `i`; the scrutinee's slot is empty; the token slot holds the emptied cell if the scrutinee was held by that slot alone and is no field of itself, and is empty otherwise; every other slot is as it was. Every value still held denotes the same tree, counts stay exact; a fault exactly on a shape mismatch or a slot out of range. Premise: the compiler's split of slots into value slots and token slots. |
| Reuse.VariantAt | crates/ccg/src/runtime.c:2657-2680 | A constructor that may rebuild into the parked cell: the result denotes the constructor on its operands, every other value is as before, counts stay exact, the token is used up, and "reuse of a cell with live fields" is not reached. Nothing is assumed of the parked cell; the machine's invariant provides it. |
| Reuse.TokensAreEmptied | crates/ccg/src/runtime.c:2604-2622 | In every state of the machine a cell a token slot names has no field left, and no value slot and no field names it. |
| Moving.MovingIsCopying | crates/interpreter/src/machine.rs:1401-1416 | Whatever the counts say, as long as they say the same to both: the machine that moves a slice held alone and the one that always copies apply the same things in the same order and end alike. Premise: suspended code of an activation does not read a slot other code of it writes. |
| Reifying.OperationLands | crates/interpreter/src/machine.rs:1346-1398 | Of the machine these theorems are about: an operation runs the first clause for it of the nearest prompt that has one, on the argument and then the resumption of a slice of exactly the frames from that prompt up; where the capture is skipped those frames leave their cleanups, in order, and nothing else. |
| Reifying.BoundaryLands | crates/interpreter/src/machine.rs:1619-1642 | A boundary whose slice was resumed or is owned is passed by; past any other the slice's cleanups are queued over the value in order. |
| Reifying.ResumePutsBack | crates/interpreter/src/machine.rs:1406-1416 | A resume puts back the slice frame for frame, its own or on private activations equal to the originals, and changes no other slice. |
| Reifying.NamesAreWithin | crates/interpreter/src/machine.rs:1373-1392 | What a value names for the counts: the resumptions in it, at any depth. |
| Reifying.FrameHolds | crates/interpreter/src/machine.rs:1463-1530 | What a frame of the stack holds for the counts: its clauses, cleanups and saved value, and a boundary nothing. |
| Unowned.UnownedStays | crates/interpreter/src/machine.rs:1373-1392 | What no live value names, no step comes to name. Premises: programs make no resumptions of their own, and built-ins answer with nothing they were given before. |
| Unowned.MovedStays | crates/interpreter/src/machine.rs:1401-1416 | No value ever names a slice that was moved out. |
| Unowned.NoneResumed | crates/interpreter/src/machine.rs:1401-1416 | So none is resumed. |
| Retaining.OwnedAlike | crates/interpreter/src/machine.rs:1463-1530 | At a boundary the two machines' counts agree if and only if the slice is not named only by what some moved slice used to hold (a copy keeps the original alive, a move does not). |
| Retaining.StepFaithful | crates/interpreter/src/machine.rs:1445-1530 | The relation between the two machines' names is kept by every step. Premise: an activation that waits both in a moved slice and elsewhere keeps the resumptions its slots name (`Dividing` shows that it is needed). |
| Agreeing.MovingIsCopyingByCounts | crates/ccg/src/runtime.c:3318-3340 | Each machine deciding by its own counts: when a run that moves ends, the run that copies ends seen alike, as long as no boundary with a cleanup at stake is met whose slice is named only by what moved slices held. Premises: that of `Retaining.StepFaithful` at every step, without which it is false (`Dividing.CopyingRunsMovingSkips`); built-ins answer with nothing they were given before. |
| Agreeing.CopyingIsMovingByCounts | crates/ccg/src/runtime.c:3318-3340 | And the other way round, on the same premises. |
| Agreeing.PartExactlyThere | crates/ccg/src/runtime.c:2857-2865 | On the same premises: both machines come to the same boundaries with the same cleanups at stake, and there they decide alike if and only if that condition holds. |
| Agreeing.BareLetsGo | crates/ccg/src/runtime.c:3318-3340 | A guard a caller can check: if no slice that is moved holds a resumption or a boundary, every boundary lets go. |
| Parting.MovingRunsCopyingSkips | crates/ccg/src/runtime.c:2857-2865 | A program, run from an empty stack with exact counts, on which moving runs a cleanup and copying does not. |
| Parting.ExampleIsClear | crates/ccg/src/runtime.c:2857-2865 | That run meets every premise up to the boundary where the condition fails. |
| Dividing.CopyingRunsMovingSkips | crates/ccg/src/runtime.c:2317-2337 | The other way an activation can tell: a program, run from an empty stack, on which copying runs a cleanup and moving does not. The activation waits in the moved slice and in another at once, and there takes up a resumption. |
| Dividing.CountsDiffer | crates/ccg/src/runtime.c:2857-2865 | Where they part: the slice is owned in the machine that moves and not in the one that copies, though the boundary is one that lets go of whatever moved slices held. |
| Dividing.OnlySteadyFails | crates/ccg/src/runtime.c:2317-2337 | Up to there every premise of the comparison holds, and the one that fails is that the shared activation keeps the resumptions its slots name. |
| Skipping.StepMatched | crates/interpreter/src/machine.rs:1373-1392 | Step for step, capturing the slice of a clause that cannot resume is keeping its cleanups, if the boundaries are found owned alike. |
| Abandoning.StrippedIsSkipped | crates/interpreter/src/machine.rs:1425-1432 | Exactly what the skipping machine's counts say: what the capturing machine's would if its abandoned slices held nothing but their cleanups. |
| Abandoning.DeadUnowned | crates/ccg/src/runtime.c:2857-2865 | The counts find every abandoned slice abandoned. |
| Abandoning.CapturingIsSkippingByCounts | crates/ccg/src/runtime.c:3274-3308 | From any start without continuation, each machine by its own counts: when the run that captures ends, the run that skips ends seen alike, as long as no boundary with a cleanup at stake is owned only through what an abandoned slice holds. |
| Abandoning.SkippingIsCapturingByCounts | crates/ccg/src/runtime.c:3274-3308 | And the other way round. |
| Abandoning.PartExactlyThere | crates/ccg/src/runtime.c:2857-2904 | Both come to the same live boundaries with the same cleanups at stake, and there decide alike if and only if that condition holds. |
| Abandoning.BareUnspoiled | crates/ccg/src/runtime.c:3274-3289 | A guard a caller can check: if no slice abandoned by such a clause names another, no boundary is spoiled. |
| Spoiling.SkippingRunsCapturingDoesNot | crates/ccg/src/runtime.c:3274-3308 | A program, run from an empty stack with exact counts, on which skipping runs a cleanup and capturing does not. |
| Spoiling.LosingIsClean | crates/ccg/src/runtime.c:2857-2865 | That run meets the condition up to the boundary where it fails. |
| Stm.RunsAreSerializable | crates/ccg/src/runtime.c:4120-4279 | In every interleaving of any transactions, rollbacks and repeated writes included, replaying the committed ones one after the other in commit order from the empty store leaves exactly the store. Premise: no variable a running transaction has read is lapped (written a non-zero multiple of 2^64 times since). |
| Stm.CommitIsAtomic | crates/ccg/src/runtime.c:4211-4234 | A commit that answers true is one run of its transaction alone on the store at commit time: it sees the same values, and leaves the same store; it answers true exactly when all it read is current; answering false it changes nothing. |
| Stm.PublishMeansLatest | crates/ccg/src/runtime.c:4217-4230 | Publishing leaves each variable with the latest write to it and its version advanced by the number of writes. |
| Stm.LatestIsLast | crates/ccg/src/runtime.c:4179-4193 | The latest write is the last entry of the log for the variable. |
| Stm.ValidationIsExact | crates/ccg/src/runtime.c:4211-4217 | Without laps, validation answers true if and only if nothing read has been written since. |
| Stm.FewWritesNeverLap | crates/ccg/src/runtime.c:4211-4217 | Fewer than 2^64 writes in between lap nothing, so the premise is met by every run one can wait for. |
| Stm.ValidationIsDeceived | crates/ccg/src/runtime.c:4211-4217 | With the 64-bit version as it is: validation accepts a log that is out of date if and only if every entry that is out of date has been lapped. |
| Stm.WrapBreaksValidation | crates/ccg/src/runtime.c:4211-4217 | Such a log exists: 2^64 writes between the read and the commit. |
| Stm.Log.Read | crates/ccg/src/runtime.c:4179-4193 | A read finds the transaction's own latest write, by walking its log backwards, or else the committed value, whose version is logged. |
| Stm.Log.Rollback | crates/ccg/src/runtime.c:4271-4279 | Undoing to a mark drops exactly the writes after it and keeps the reads; a mark that is negative or past the end is refused and changes nothing. |
| Stm.Log.Commit | crates/ccg/src/runtime.c:4217-4234 | The loop over the log does what the machine's commit step does, and empties the log. |
| Levels.ReleaseCounts | crates/ccg/src/runtime.c:484-548 | The signed counts are the plain ones: a release finds the last reference exactly when the plain count is one, and never on an immortal cell. |
| Levels.RaisingKeepsCounts | crates/ccg/src/runtime.c:3448-3512 | Raising a cell keeps the magnitude of its count, except that a local cell made immortal has count zero and the table's reference. |
| Levels.WalkEnds | crates/ccg/src/runtime.c:3448-3512 | When the marking walk has nothing left to visit, exactly the reachable cells that were below the level have been raised, and levels are closed under reachability again. |
| Levels.MarkedReach | crates/ccg/src/runtime.c:3448-3512 | Everything the root reaches is at least at the level; no level fell and no payload changed. |
| Levels.PublishIsClosed | crates/ccg/src/runtime.c:3608-3617 | A write into a cell keeps levels closed if and only if every child written is as shared as the cell is by then. |
| Levels.PublishAfterMark | crates/ccg/src/runtime.c:3608-3617 | Forcing a shared slot: if the slot's level has not risen since it was read, the write keeps levels closed; in any case several threads never come to reach what one thread counts alone. |
| Levels.PublishRaces | crates/ccg/src/runtime.c:3608-3617 | It can rise in between: then an immortal cell comes to name one that is only shared. (`Racing.RaceArises` is a run to such a state.) |
| Racing.RaceArises | crates/ccg/src/runtime.c:3592-3621 | A run of two threads to that state, by claims, marking and publishing: one has read its slot's level and marked its value to match; the other forces an immortal slot to a value that reaches the first slot, which is immortal then; and what the first is about to write is not. |
| Sharing.Heap.Release | crates/ccg/src/runtime.c:550-599 | Over signed counts and levels, release destroys exactly what plain counts say, and changes no level. |
| Sharing.Heap.MarkLevel | crates/ccg/src/runtime.c:3448-3552 | The marking loop, without recursion: terminates on cyclic values, raises exactly what `Levels.Marked` says, changes no payload and no held reference, and records each cell that became immortal. (Data values; the case of a captured continuation is left out.) |
| Sharing.Heap.VecUpdate | crates/ccg/src/runtime.c:1608-1645 | A push or a set in place only when the caller gave up the only reference; otherwise the old vector is unchanged and a fresh one is made. The new element is at the end, or at its index, and every other where it was; levels stay closed. Premise: a vector is not its own element. |
| Sharing.Heap.StealPayload | crates/ccg/src/runtime.c:2158-2173 | Patching by moving happens exactly when the value is uniquely local, the box local, and neither is a child of it; the payload moves, the husk is freed, counts and levels stay right. |
| Sharing.Heap.PatchBox | crates/ccg/src/runtime.c:2175-2187 | Patching a box others can reach: the value is first raised to the box's level, then copied in; counts exact, levels closed. |
| Sharing.Heap.Claim | crates/ccg/src/runtime.c:3580-3590 | Of the threads trying to force a slot one wins, and nothing else changes. |
| Sharing.Heap.Publish | crates/ccg/src/runtime.c:3592-3621 | Publishing the forced value: slot and value read alike, levels stay closed, the slot's closure and the caller's reference go exactly once. |
| Sharing.Heap.Withdraw | crates/ccg/src/runtime.c:3603-3607 | A slot whose closure answers with the slot itself: the claim is given back, with the reference on the answer; nothing is freed that the count does not free, and no other slot or level changes. |
| Sharing.UniqueUnobserved | crates/ccg/src/runtime.c:527-548 | When the only reference is the caller's, no other value has the cell for a child: writing it in place is not observed. |
| Sharing.PublishLeavesNoOrphan | crates/ccg/src/runtime.c:3614-3617 | After publishing, every slot being forced has a thread forcing it if and only if the value was not itself a slot somebody is forcing. |
| Sharing.OrphanArises | crates/ccg/src/runtime.c:3614-3617 | A run that leaves such an orphan. |
| Rings.Deque.Push | crates/ccg/src/runtime.c:3658-3672 | Pushing on a growing ring appends to the sequence it holds, growth and wrap-around included. |
| Rings.Deque.Take | crates/ccg/src/runtime.c:3674-3680 | The owner takes the newest, a thief the oldest, and nothing is lost or doubled. |
| Rings.Queue.Send | crates/ccg/src/runtime.c:4020-4031 | Sending appends, growth included. |
| Rings.Queue.Receive | crates/ccg/src/runtime.c:4042-4059 | Receiving takes the oldest, or nothing when the channel is empty. |
| PoolWaking.EveryRun | crates/ccg/src/runtime.c:3652-3822 | In every interleaving of any number of workers: a thread asleep, or about to be, while what it waits for has happened or work is queued, has a broadcast coming; `g_queued` is the queued entries minus uncounted pushes plus uncounted takes; the io counter is exact; every closure is entered exactly once if its state is no longer pending and never before; and no pending entry is lost. |
| PoolSafety.JoinWaitsForAll | crates/ccg/src/runtime.c:3861-3874 | Joining the io queue returns only when everything spawned on it is done. |
| PoolMail.MailIsKept | crates/ccg/src/runtime.c:4020-4059 | Over every run what is in a channel is what was sent to it less what was received from it. |
| PoolWaking.AsleepMeansIdle | crates/ccg/src/runtime.c:3721-3740 | When every thread sleeps, the queues are empty, nothing is pending, and nothing a sleeper waits for has happened. |
| PoolWaking.BuriedForever | crates/ccg/src/runtime.c:3788-3822 | What lies on a stack beneath its own waiter never finishes, however the run goes on. |
| PoolKnots.BuriedIsKnot | crates/ccg/src/runtime.c:3788-3822 | A task beneath its own waiter is a knot of one thread, so both ways to hang are one. |
| PoolWaking.AcyclicYetBuried | crates/ccg/src/runtime.c:3797-3822 | It comes to that in a run whose waits are all for something spawned earlier. |
| PoolKnots.KnottedForever | crates/ccg/src/runtime.c:3797-3822 | A knot (each thread waiting for something that lies under what another of them runs or waits on) never loosens. |
| PoolKnots.StuckExactly | crates/ccg/src/runtime.c:3797-3822 | In every run that has come to sleep with nobody waiting for mail: somebody waits for a result if and only if there is a knot. |
| PoolKnots.KnotsNeedHelping | crates/ccg/src/runtime.c:3811-3815 | When everything waits only for what was spawned earlier, a knot needs a waiter that helped: something it waits for lies under other work its thread took up. |
| PoolKnots.KnotWithoutBurial | crates/ccg/src/runtime.c:3797-3822 | A pool can be knotted with nothing beneath its own waiter: two threads, four spawned closures. |
| Currying.FindKnown | crates/ccg/src/gen.rs:87-120 | The loop finds the whole chain of closures a curried global returns, each built by applying the one before, with the arguments its captures hold; it finds one exactly when the global is a one-argument closure literal. |
| Currying.ChainGoesOn | crates/ccg/src/gen.rs:87-120 | A chain goes on exactly where the code returns a closure literal of one argument whose every capture is an argument so far, and its record says which argument each capture is. |
| Currying.SeesThrough | crates/ccg/src/gen.rs:97-120 | Applying such a function one argument at a time yields the innermost closure over exactly the arguments its record selects, or reads an emptied slot. |
| Currying.EntersInnermost | crates/interpreter/src/machine.rs:1266-1290 | The last application enters the innermost code with those captures and the last argument in slot 0. |
| Currying.EnvNamesEarlier | crates/ccg/src/gen.rs:104-117 | Every capture is an earlier argument. |
| Direct.DirectSafe | crates/ccg/src/gen.rs:1171-1189 | The loop that drops functions until none fails ends with a consistent set that contains every consistent set. |
| Direct.LeftOutForCause | crates/ccg/src/gen.rs:1171-1222 | A known function is left out of that set only for a cause in its code: a handler, a cleanup, or a call of something unknown, of a known function outside the set, or of a foreign function of several operands. |
| Direct.CallChain | crates/ccg/src/gen.rs:1874-1930 | The loop gathers a chain of lets, each applying the partial application bound by the one before to one more operand, into the one call it makes, exactly when it reaches the callee's arity. |
| Spelling.SpelledIsFound | crates/ccg/src/gen.rs:1874-1930 | Every call spelled as a chain of lets, with drops anywhere in between and the last application bound or in tail position, is found with its operands, slots and drops in order. |
| Spelling.FoundIsSpelled | crates/ccg/src/gen.rs:1874-1930 | And whatever is found is so spelled. |
| Direct.MembersNeverSuspend | crates/ccg/src/gen.rs:1191-1222 | A run entered at the inner code of any member, in any activation, never installs a handler or a cleanup and never applies an operation or a resumption. (Forcing a lazy value is an answer of the environment.) |
| Signatures.FindSignatures | crates/ccg/src/gen.rs:1224-1267 | The two loops end with the least integer arguments and, for those, the greatest integer results. |
| Signatures.EvidenceGrows | crates/ccg/src/gen.rs:1269-1380 | The walk's evidence for arguments grows with the integer arguments assumed, and does not depend on what functions are said to return or on which slots hold integers. |
| Evidence.UnboxedForUse | crates/ccg/src/gen.rs:1224-1267 | In the assignment the loops find, an argument is unboxed if and only if the body uses it as an integer: an integer operand of an intrinsic, an unboxed argument of a call, or what a case on integers looks at. |
| Evidence.EvidenceIsUse | crates/ccg/src/gen.rs:1269-1380 | The walk's evidence for an argument is exactly those uses of it, read from the record or from slot 0 while no let has taken that. |
| Evidence.DoubtedForCause | crates/ccg/src/gen.rs:1269-1380 | The walk doubts a result only for a value somewhere in the code that is no literal, no unboxed argument, no slot known to hold an integer, and no call known to yield one; there it still knows of every slot it knew of that no let takes. |
| Evidence.LetLearns | crates/ccg/src/gen.rs:1321-1340 | A let makes its slot known to hold an integer exactly when its right side, or the call it begins, yields one, and changes no other. |
| Unboxed.IntRetReturnsInt | crates/ccg/src/gen.rs:1272-1380 | A function said to return integers, given integers where its signature says so, returns an integer if it returns. Premises: a non-integer at an integer position is stuck, and slots bound in a let's right side are not read by its body. |
| Fusing.FusedEndsAlike | crates/interpreter/src/machine.rs:1134-1217 | Handlers, cleanups, operations and resumptions included: whenever the let-by-let machine finishes with a value, without reading an emptied slot, the machine that runs saturated chains as one call finishes with the same value and has asked the runtime the same questions, if the counts of the two say the same where it matters (a boundary with cleanups, a resume). |
| Fusing.PartExactlyThere | crates/interpreter/src/machine.rs:1401-1530 | Until they part they come to the same boundaries and resumes, on the same stack and slices and having asked the same; and there their counts say the same, where it matters, if and only if the slice is not owned only through what the fused machine's slots have kept. |
| Fusing.ChainIsExact | crates/interpreter/src/machine.rs:1196-1217 | A chain run as one call leaves exactly the machine its lets leave if and only if it leaves nothing in the chain's slots, but for the one its result goes to. |
| Fusing.TidyLeavesSpare | crates/interpreter/src/machine.rs:1134-1217 | That can be looked at before the chain is run: evaluating operands and dropping only empties slots. |
| Fusing.TidyEndsAlike | crates/interpreter/src/machine.rs:836-1043 | The guard: if before each chain its slots but the result's are empty or hold nothing that names a slice, the fused machine ends as the let-by-let machine does, whatever is installed, performed, resumed and abandoned. |
| Stale.FusingSkipsACleanup | crates/interpreter/src/machine.rs:1134-1217 | A program, run from an empty stack, on which the let-by-let machine runs a cleanup and the fused one never does: a chain's slot holds a live resumption that the first partial application would have overwritten. |
| Stale.SlotNotTidy | crates/interpreter/src/machine.rs:1134-1217 | The guard fails there, before that chain. |
| Fusion.FindChain | crates/interpreter/src/machine.rs:1134-1194 | The loop gathers the chain of lets that saturates one built-in of at most four operands that does not force them, with the drops on the way; it finds none when an operand reads a slot of the chain. |
| Spelling.FusesExactly | crates/interpreter/src/machine.rs:1134-1194 | A let runs fused if and only if it begins a spelled call of a built-in of at most four operands that does not force them, none of which reads a slot of the call. |
| Evaluated.EvalRuns | crates/interpreter/src/machine.rs:836-1043 | The evaluator of expressions and the machine agree: what the one answers for code, in some number of calls deep, the machine comes to on the same stack, with the same slots, having asked as many questions. |
| Stepping.CaseGoesOn | crates/interpreter/src/machine.rs:879-906 | A case goes on in the first alternative for the value's constructor, binder `i` that is read then holding field `i`; in the first for its literal; or, exactly when no alternative is for it, in the default. Only the scrutinee's and the token's slot are emptied, when it dies. |
| Stepping.CaseEvaluates | crates/interpreter/src/machine.rs:879-906 | And so for the evaluator. |
| Stepping.SlotReads | crates/interpreter/src/machine.rs:579-607 | Reading a slot or captured field yields what is there; the last use leaves exactly that one empty. |
| Stepping.LiteralReads | crates/interpreter/src/machine.rs:608-636 | A literal is itself, and a closure holds what its captures read, in order. |
| Stepping.GlobalReads | crates/interpreter/src/machine.rs:518-572 | A global is a closure or foreign function it only names, the runtime's answer, a built-in without operands, or the operation declared, effect and all. |
| Stepping.OperandsInOrder | crates/interpreter/src/machine.rs:1196-1200 | Operands are read in order, each in the activation the ones before leave. |
| Stepping.BuildHolds | crates/interpreter/src/machine.rs:993-1001 | A construction holds what its operands read, in order. |
| Stepping.HandlerInstalls | crates/interpreter/src/machine.rs:1002-1025 | A handler installs its clauses in order, each for its effect and operation and as often usable as it says, with the value its operand read, and the value clause after them. |
| Stepping.LetInstalls | crates/interpreter/src/machine.rs:845-867 | A let's right side, and a cleanup's body, run above a frame for it. |
| Stepping.CallLands | crates/interpreter/src/machine.rs:1266-1290 | A closure is entered in a fresh activation: the argument in slot 0, the other slots empty, and its record in order. |
| Stepping.LastOperandAsks | crates/interpreter/src/machine.rs:1292-1310 | A built-in or foreign function asks the runtime with its last operand, and before that only holds one more. |
| Stepping.OperationLands | crates/interpreter/src/machine.rs:1346-1398 | An operation runs the first clause for it of the nearest prompt that has one, the argument in slot 0 and in slot 1 the resumption of the frames from that prompt up, or unit where the clause cannot resume and only the cleanups stay. |
| Stepping.UnhandledFaults | crates/interpreter/src/machine.rs:1346-1364 | If no prompt has one, it is a fault. |
| Stepping.ReturnLands | crates/interpreter/src/machine.rs:1569-1642 | What becomes of a value by the frame on top, slot by slot. |
| Stepping.BoundaryLands | crates/interpreter/src/machine.rs:1619-1642 | A boundary whose slice was resumed or is owned is passed by; past any other the slice's cleanups are queued in order over the value. |
| Stepping.ResumePutsBack | crates/interpreter/src/machine.rs:1406-1416 | A resume puts back the slice frame for frame, its own or on private activations equal to the originals. |
| Stepping.NamesAreWithin | crates/interpreter/src/machine.rs:1373-1392 | What a value names for the counts: the resumptions in it, at any depth. |
| Stepping.FrameHolds | crates/interpreter/src/machine.rs:1463-1530 | What a frame of the stack holds for the counts, and that a boundary holds nothing. |
| Evaluated.AnswersFused | crates/interpreter/src/machine.rs:1134-1217 | So whatever the evaluator answers on its own both machines end with, having asked the same questions, with no premise on slots. |
| Shapes.StepOdometer | crates/ccg/src/runtime.c:1330-1333 | The odometer steps an index to the next in row-major order, in place. |
| Shapes.RankInverse | crates/ccg/src/runtime.c:1276-1283 | Row-major order numbers the indices of a shape, each once. |
| Tensors.Gather | crates/ccg/src/runtime.c:1313-1336 | Reads the view's elements in row-major order into the buffer and touches nothing else; it faults exactly when some in-shape index lies outside the buffer. |
| Tensors.RebuildIsSame | crates/ccg/src/runtime.c:1338-1346 | Rebuilding a tensor from its gathered elements gives the tensor. |
| Tensors.Equal | crates/ccg/src/runtime.c:1378-1395 | Equality compares shapes and then every index of the views, whatever their strides. |
| Tensors.SameGathers | crates/ccg/src/runtime.c:1378-1395 | Two tensors of one shape are equal exactly when they gather to the same elements. |
| Views.TransposedAt | crates/ccg/src/runtime.c:1806-1817 | A transpose stays inside its buffer and holds at an index what the tensor holds at the reversed one. |
| Views.Transpose | crates/ccg/src/runtime.c:1806-1817 | The loop that reverses shape and strides makes that transpose. |
| Views.TransposeUndoesItself | crates/ccg/src/runtime.c:1806-1817 | Transposing twice is doing nothing. |
| Views.SlicedAt | crates/ccg/src/runtime.c:1818-1844 | A slice stays inside and holds the elements from its start on; it starts at the lower bound, or the axis' end if that is less, and ends at the upper bound, but not before the start nor past the end; no other axis changes. |
| Views.SliceOfSlice | crates/ccg/src/runtime.c:1818-1844 | A slice of a slice is one slice. |
| Views.SlicesCommute | crates/ccg/src/runtime.c:1818-1844 | Slices along different axes commute. |
| Views.SliceOfTranspose | crates/ccg/src/runtime.c:1806-1844 | Slicing a transpose is transposing a slice of the opposite axis. |
| Views.FixedAt | crates/ccg/src/runtime.c:1845-1864 | Fixing an axis leaves a view inside the buffer with the index put back, or the element. |
| Views.IndexAxis | crates/ccg/src/runtime.c:1845-1864 | The loop that leaves an axis out makes that view, and faults exactly on a non-tensor, a bad axis, an empty axis or a non-integer. |
| Views.IndexFixesFirst | crates/ccg/src/runtime.c:1917-1924 | Indexing fixes the first axis at the index modulo its length, and faults exactly on a non-tensor, a scalar, an empty axis or a non-integer. |
| Views.WrapsModulo | crates/ccg/src/runtime.c:1306-1311 | The truncating remainder with its correction is the place congruent to the index. |
| Stacking.JoinedAt | crates/ccg/src/runtime.c:1898-1916 | A concatenation stays inside and holds the first tensor's rows, then the second's. |
| Stacking.SlicesOfJoined | crates/ccg/src/runtime.c:1898-1916 | Slicing a concatenation where it was joined gives back both tensors. |
| Stacking.JoinOfSlices | crates/ccg/src/runtime.c:1898-1916 | Cutting a tensor in two and joining the parts gives it back. |
| Stacking.StackedAt | crates/ccg/src/runtime.c:1348-1376 | A stack stays inside and holds at `[i] + idx` what its `i`-th tensor holds at `idx`. |
| Stacking.IndexOfStacked | crates/ccg/src/runtime.c:1917-1924 | Indexing a stack gives back what was stacked there. |
| Building.AllInside | crates/ccg/src/runtime.c:1806-1924 | Whatever is built from scalars by stacking, joining, transposing, slicing and indexing, in any number and order, keeps every index of its shape inside its buffer. |
| Dots.CheckCovers | crates/ccg/src/runtime.c:3044-3049 | The single bounds check holds if and only if every access of the loop is inside both buffers, the wrapping right operand included. |
| Dots.DotInts | crates/ccg/src/runtime.c:3036-3062 | The unboxed loop computes, and faults, as the generic left fold of the 64-bit intrinsics does, for all strided lanes; it gives up only on a lane that is not of integers. |
| Dots.DotLanes | crates/ccg/src/runtime.c:3099-3117 | Kernel or generic loop, the result is the dot. |
| Dots.DotTensors | crates/ccg/src/runtime.c:3119-3135 | The dot of two tensors is the dot of their leading lanes, and there is none exactly when one is no tensor or that dot faults. |
| Dots.LeadingLaneIndexes | crates/ccg/src/runtime.c:3119-3127 | A leading lane reads at an index, taken modulo its length, what indexing the tensor there gives. |
| Dots.FoldOfInts | crates/ccg/src/runtime.c:3052-3062 | The fold over integers is the sum of products wrapped once to 64 bits. |
| Dots.FoldCalls | crates/ccg/src/runtime.c:3108-3116 | The fold over other operators calls, at each place, the multiplication on the two elements and then the addition on the sum so far and the product, in that order. |
| Matrices.Matmul | crates/ccg/src/runtime.c:3137-3175 | Every cell `(i, j)` is the dot of row `i` and column `j` of whatever views the operands are; no result exactly when an operand is no matrix, a cell faults, or cells that are tensors do not stack; no rows give the vector of shape `[0]`. |
| Matrices.ScalarsAt | crates/ccg/src/runtime.c:3137-3175 | A product whose cells are scalars holds cell `(i, j)` at `[i, j]`, inside its buffer. |
| Matrices.TensorsAt | crates/ccg/src/runtime.c:3137-3175 | And one whose cells are tensors of a shape holds under `[i, j]` the whole of that cell. |
| Matrices.IntegerCell | crates/ccg/src/runtime.c:3137-3175 | A cell of an integer product is the sum of products modulo 2^64, the column read again from its top when it is shorter than the row; it faults exactly when the column is empty and the row is not. |
| Matrices.TransposedCell | crates/ccg/src/runtime.c:3137-3175 | The transpose of an integer product is the product of the transposes the other way round. |
| Patterns.MergedFits | crates/frontend/src/parser.rs:2755-2783 | Merging neighbouring pieces keeps the length and what is matched, bindings included. |
| Patterns.MergedIsPieces | crates/frontend/src/parser.rs:2755-2783 | Merging leaves no two neighbours of one kind. |
| Patterns.ConcatPattern | crates/frontend/src/parser.rs:2718-2751 | The parser's joining of two patterns is `Joined`, whose meaning `Splitting.JoinedFits` states. |
| Splitting.OnlyCut | crates/frontend/src/parser.rs:2715-2742 | Two chains of which one is fixed both match at one place at most: where the fixed one's length says. |
| Splitting.JoinedFits | crates/frontend/src/parser.rs:2703-2751 | `left ++ right` matches a sequence with some bindings if and only if some split of it matches both sides with them; nothing else is matched. |
| Desugaring.Desugar | crates/frontend/src/desugar.rs:1484-1591 | The two loops that nest the strips build the core pattern, and neither `expect` nor the impossible case is reached on a normal pattern. |
| Desugaring.DesugaredMatches | crates/frontend/src/desugar.rs:1484-1591 | The nested strips match exactly what the pattern does, with the same bindings. |
| Desugaring.StripsMeanSource | crates/frontend/src/parser.rs:2705-2783 | End to end: the parser accepts a pattern if and only if it has no two parts of unknown length side by side, and then its strips match exactly what the source means, splits and bindings included. |

## Findings

Where a promise of the source turned out not to hold on every input: the input, and
exactly when it does hold.

| finding | failing input | exactly when it holds |
|---|---|---|
| Moving a slice nobody else can resume is not always seen as copying it would be (`crates/ccg/src/runtime.c:3318-3340`): the copy leaves the original slice with what it holds until its boundary goes, and that can own another slice. | `Parting.MovingRunsCopyingSkips`: under two handlers and a cleanup, operation 1 is performed; its clause performs operation 0 holding the resumption, and the clause for that resumes. Reached from an empty stack with exact counts; every other premise holds (`ExampleIsClear`). | `Agreeing.PartExactlyThere`: the two decide alike at a boundary if and only if its slice is not named only by what moved slices held. Without cleanups at stake nothing is seen either way. Sufficient, and checked at the resume: no moved slice holds a resumption or a boundary (`BareLetsGo`). |
| The other way round (`crates/ccg/src/runtime.c:3318-3340` with `2317-2337`): an activation that waits in the moved slice and elsewhere too stays one activation when the slice is moved, and becomes two when it is copied. | `Dividing.CopyingRunsMovingSkips`: such an activation takes up a resumption in one of its waits; where the slice was moved, the other wait owns it too. Reached from an empty stack; every other premise holds (`OnlySteadyFails`). | As long as such an activation keeps the resumptions its slots name, exactly as in the row above. |
| Skipping the capture for a clause that cannot resume is not always seen as capturing would be (`crates/ccg/src/runtime.c:3274-3308`): the captured slice is kept until its boundary, and can own another slice. | `Spoiling.SkippingRunsCapturingDoesNot`: a clause hands its resumption to a second clause, which performs a never-resuming operation from a frame that holds it; the handler of that resumes it. Reached from an empty stack with exact counts. | `Abandoning.PartExactlyThere`: alike at a boundary if and only if its slice is not owned only through what abandoned slices hold besides their cleanups. Sufficient, and checked at the perform: the abandoned slice names no other (`BareUnspoiled`). |
| "A pool whose every thread awaits cannot deadlock" (`crates/ccg/src/runtime.c:3797-3799`). | `PoolWaking.AcyclicYetBuried`: two threads, three spawned closures, waits only for earlier ones; helping runs one that waits for what lies beneath it. `PoolKnots.KnotWithoutBurial`: two threads, four closures, and nothing beneath its own waiter. | `PoolKnots.StuckExactly`: in a sleeping pool with nobody waiting for mail, somebody is stuck waiting for a result if and only if there is a knot; and knots with downward waits come only from helping (`KnotsNeedHelping`). |
| Forcing a shared slot keeps everything an immortal value reaches immortal (`crates/ccg/src/runtime.c:3608-3617`). | `Racing.RaceArises`: between the reading of the slot's level and the writing of its value, another thread forces an immortal slot to a value that reaches this one; marking that value immortal raises the slot, and not the value about to be written (`Levels.PublishRaces`). | `Levels.PublishAfterMark`: whenever the slot's level is still at most what was read; and of any write, `Levels.PublishIsClosed`: if and only if every child written is as shared as the cell. |
| After a forced slot is published, every blackhole has a thread forcing it (`crates/ccg/src/runtime.c:3614-3617`). | `Sharing.OrphanArises`: the forced value is a slot another thread is forcing; the copy is a blackhole nobody fills. | `Sharing.PublishLeavesNoOrphan`: if and only if the forced value is not itself being forced. |
| A commit that answers true has validated what it read (`crates/ccg/src/runtime.c:4211-4217`). | `Stm.WrapBreaksValidation`: 2^64 writes between the read and the commit. | `Stm.ValidationIsDeceived`: deceived if and only if every entry that is out of date is lapped by a multiple of 2^64. |
| Running a saturated chain of built-ins as one call is running its lets (`crates/interpreter/src/machine.rs:1134-1217`): the fused machine never writes the partial applications, and so keeps what their slots held. | `Stale.FusingSkipsACleanup`: the first partial application is bound over a live resumption, which keeps its slice owned in the fused machine alone. The compiler is to keep clear of it: `crates/frontend/src/ir/ownership.rs:375-400` drops a value that is read no more, which empties a slot before it is used again. | `Fusing.PartExactlyThere`: alike at a boundary or resume if and only if the slice is not owned only through what those slots kept. One chain is exact if and only if it leaves nothing there (`ChainIsExact`). Sufficient, and checked before the chain: its slots are empty or hold what names no slice (`TidyEndsAlike`). |

## Left out

Not part of the model:

- Foreign functions, `@extern` wrappers, struct layouts, `host.*`, `capi.rs`, `thraxstd.c`.
- Floating-point kernels (`DOT_F64`, `DOT_F32`) and how reals are printed.
- The text `gen.rs` emits; only what its analyses decide is modelled.
- Type inference, interface resolution, match compilation, closure conversion, and the
  ownership and borrow passes; what is needed of them is a premise where it is used.
- The string scanners (`lex_string`, `build_string`).
- Patterns on sized tensors; list patterns whose sequence view is a user type (a view is
  the sequence itself here).
- Captured continuations shared between threads (`runtime.c:3514-3549`), and futures,
  channels and variables as shareable values.
- Weak memory: an atomic access or a section under a lock is one step.
- Liveness and fairness of the pool, its start and shutdown, one-shot helping
  (`runtime.c:3827-3836`), and the wait of a retried transaction (`runtime.c:4236-4269`).
- What a running transaction may see before it fails to commit.
- Waiting on a blackhole (`runtime.c:3595-3598`).

The counted memory (`Objects` to `Reuse`) is the build without threads:

- Arguments lent without a reference (`frame_lent`) are not modelled; every slot owns.
- A freed object keeps its address, which is not handed out again; counts are unbounded
  naturals; capacities of vectors and allocation failure are not modelled.
- The table of shared constants (`is_constant`) is not modelled.
- Reuse.Unpack: assumes what the compiler's slot layout gives, that the scrutinee's and
  the binders' slots are value slots and the token slot a token slot. A parked cell has
  a shape of its own in the model, which no code reads.
- Reuse.VariantAt: assumes the token slot is one the compiler laid out; a token out of range,
  which the code faults on, is not modelled. Operands are temporaries or in other slots,
  as the code reads them from there.
- Delivery.EnterClo: a slot that takes an argument is never a token slot.
- Slots.BackPatch: a thunk over the box it is stored in is excluded: copying it skips the
  edge as a weak one and destroying it releases it, so the counts are kept if and only if
  the value is no such thunk (`Slots.PatchCounts`). The delivery stops there
  (`Delivery.SelfThunk`) and nowhere else; no well-typed program builds one, as a `delay`
  on the let's own box has the type of what it delays. `Sharing.Heap.PatchBox` and
  `Sharing.Heap.Publish` exclude it too.
- Applying.DoApply: what a built-in or foreign function with all its operands answers is a
  parameter, a value already in the heap; what it does to the heap meanwhile is not part
  of the step (`Sharing.Heap.VecUpdate` is one that updates in place). Unit is a parameter.
- Delivery.DoRet: the boundary's frame is released before its cleanups are pushed, and a
  spent resumption before the delivery; the code does both after. The steps between do
  not depend on the order.
- Sharing.Heap.VecUpdate: a vector that is its own element is left out.

The reified machine (`Reified` to `Spoiling`):

- Boxes of recursive lets are left out: a copied slice gets a box of its own while a
  closure already built keeps the old one.
- Moving.MovingIsCopying: the answers about ownership are supplied, the same to both
  machines; `Agreeing` has each machine find its own.
- Agreeing.MovingIsCopyingByCounts: premises, what code suspended in an activation reads is
  not written by other code of that activation meanwhile (the compiler gives a handled
  body slots of its own); an activation that a moved slice and other code both wait in
  neither takes up a resumption nor lets go of one afterwards, without which it is false
  (`Dividing`); and a built-in answers with nothing it was given in an earlier call.
- Ownership is by reachability, which is what exact counts come to in a graph without
  cycles of resumptions.
- A clause that cannot resume has its unread resumption dropped on entry.

Elsewhere:

- Stm.RunsAreSerializable: premise, no variable a running transaction has read is
  written a multiple of 2^64 times before it commits; values are not counted there, and
  work taken up in the middle of a transaction uses no transactions of its own.
- Pool.Step: a push is taken only while the ring has fewer than 2^64 entries.
- Sharing.PublishLeavesNoOrphan: marking and copying are one step; the race between them
  is `Levels.PublishRaces`.
- Fusing.FusedEndsAlike: lets of recursive bindings are left out (their boxes), reading an
  emptied slot ends the run, and forcing lazy values and calling built-ins are answers of
  the environment, the same for both machines. Ownership is by reachability there too.
- Currying.FindKnown: premise, closures nest to a finite depth, as compiled code does.
- Unboxed.IntRetReturnsInt: premises, a non-integer where an integer is expected stops
  the run, and the slots bound in a let's right side are not read by its body.
- Dots.DotInts: 64-bit addition and multiplication wrap, signed and unsigned alike.
