# Verification of the TL2 transactional memory, its benchmark and its examples

The repository holds a software transactional memory in the style of TL2 (`394984/`), the coarse-lock
reference library it must be indistinguishable from (`reference/`), a benchmark that runs a bank workload on
both (`grading/`), and small synchronisation examples (`sync-examples/`). This project models them in Dafny
and proves what they are for: committed read-write transactions are serializable, every single read is of some
committed state since the transaction began, money is neither made nor lost under any interleaving, segments are
freed exactly once, the benchmark's counter check never fails, and its barriers, rounds and ring buffers neither
race nor hang. Several reads of a read-only transaction come from one snapshot only under a condition, which is
proved exactly; without it the benchmark's long transaction does report violations, and it is proved exactly when.

## How the model is built

* **Concurrency is a transition system.** `Tl2` cuts the library into one step per atomic access: each load
  of a lock word, the exchange, the clock increment, each one-word copy, each `setVersion` and each half of
  `unlock`. Any number of transactions interleave. `Barrier`, `Sync`, `Ring` and `CondvarRing` do the same for the
  benchmark and the examples, and `CheckWorld` puts workers in the text of `check` on one memory of `Tl2` and one
  `Barrier`. A run is a sequence of states and the labels between them, and the theorems hold of every state of
  every run.
* **Sequential code keeps its own form.** `Tl2Code` is `tm.cpp` as classes and loops over lock words, the
  clock, the read set and the write set; `Reference` is the doubly linked allocation list on the heap;
  `BankCode` is the loops of the bank workload. Their methods are tied to functions of the old state, and
  theorems are proved about those functions. In `BankCode` each access also moves a machine of `BankBodies`
  (ghost field `st`), and `CodeRuns` builds, for every outcome the contracts of `Tl2Code` allow, the run of `Tl2`
  that has it, so that code and machines cannot drift apart.
* **History variables.** `owner` (who set a lock bit), `commits` (what was decided at each write version),
  `heap` and `freed` record what happened; no step depends on them. `StateAt(commits, v)` folds the write
  sets of the commits up to version `v`.
* **Lock words are 64-bit.** `LockWord` gives the bit operations on raw words, with their truncations, and
  the decoded pair of version and lock bit that the protocol reasons about.

## What the theorems assume, and exactly where the code stops without it

A run is *tame* when its write sets are stripe-injective and its versions fit (`Tl2.Tame`). Each hypothesis has
its exact boundary, proved in both directions.

1. *Stripe-injective write sets*: no two words of one write set are equal modulo 10000. Write-back calls
   `setVersion`, which also unlocks, after each word, so of two colliding words the first one releases the
   stripe of the second. All short runs that write within a set of words are serializable if and only if no two
   of those words share a stripe (`Boundaries.SafeIffStripeInjective`). Collisions between transactions, and
   between reads and writes, stay allowed. A write set in a window of fewer than 10000 bytes always satisfies
   it; `init` does with up to 1247 accounts. `alloc_tx` and `short_tx` write at most four words, which may lie in
   different segments, so for them injectivity is an assumption about the run, or about where the bank lies
   (`BankSafety.LongTxNeverFailsOnStripes`).
2. *Versions that fit*: the mask in `unlock` is 32 bits wide, so an abort gives a word back exactly when its
   version is below 2^31 (`LockWord.UnlockRestoresIff`). A tame run is one in which no abort gives back a later
   version and the clock stays below 2^63. In terms of the clock alone, all runs with stripe-injective write sets
   whose clock never passes a bound are serializable if and only if the bound is below 2^31
   (`ClockBoundary.ClockSafeIff`): at 2^31 an abort can hide a commit from a validation that is under way.
3. *Calm reads*, for snapshots of several reads only: post-validation loads the version and then, separately,
   the lock bit. A read is calm if both loads met the same version, as one load of the word would. Committed
   read-write transactions need no such assumption, because commit validates again, and neither does a
   transaction that reads memory once. That is all: transactions that read at most `n` times, within a given set
   of words, see one committed state in every tame run if and only if `n` is at most 1 or the set is empty
   (`Boundaries.SnapshotSafeIff`): reading one word twice is enough to fail. For those that read no word twice, as
   the benchmark's do, it is if and only if `n` is at most 1 or all the words lie on one stripe
   (`StripeBoundary.SnapshotSafeOnceIff`).

The code does not ensure the third one, and it matters. For every bank whose accounts are granted money there is a
tame run of the workload in which a transfer releases an account between the two loads that validate the read of it
by `long_tx`, which then commits and reports a violation. If and only if accounts are granted nothing, no run does
(`LongTxBoundary.LongTxSafeIff`). The counter check is not affected: its read-only transactions read one word
(`CheckRuns.CheckNeverFails`).

When nobody touched the clock since a transaction began, `tm_end` skips validation (`394984/tm.cpp:159-160`).
That accepts more than the loop would: the two agree exactly when nobody else holds a stripe that was read
(`Serializability.ShortcutAgreesIff`), and in a tame run somebody may, being about to overwrite the word with a
later version (`Boundaries.ShortcutSkipsLockTest`). It is sound all the same (`Serializability.ShortcutSound`).

## Model

| member | source | states |
|---|---|---|
| LockWord.LockOnDecoded | 394984/data-structures.cpp:42-56 | `lock` succeeds exactly when the word is free, still has the loaded version, and the weak exchange does not fail spuriously; then it sets the bit and keeps the version; otherwise nothing changes |
| LockWord.UnlockOnDecoded | 394984/data-structures.cpp:59-63 | `unlock` clears the bit and truncates the version to 31 bits |
| LockWord.UnlockRestoresIff | 394984/data-structures.cpp:59-63 | lock then unlock gives the word back if and only if its version is below 2^31 |
| LockWord.SetVersionRoundTripIff | 394984/data-structures.cpp:65-76 | a version stored by `setVersion` is returned by `getVersion` if and only if it is below 2^63 |
| Tl2Invariant.RunInv | 394984/tm.cpp:114-320 | the inductive invariant over locks, clock, memory, logs and program counters holds in every state of every tame run |
| Serializability.Serializable | 394984/tm.cpp:127-200 | in every tame run, replaying the committed read-write transactions one at a time in write-version order reproduces every value they read and, whenever nobody is writing back, the memory |
| Serializability.SerialOrderIsCommits | 394984/tm.cpp:157-199 | the serial order holds every committed read-write transaction exactly once, with its whole log, and nothing that does not commit |
| Serializability.RealTimeOrder | 394984/tm.cpp:114-200 | a transaction begun after another one committed, read-only or not, has a snapshot that contains it and all it may have read, and takes a later version |
| Serializability.BufferedIsInPlace | 394984/tm.cpp:263-272 | serving reads from the write set and applying it at the end is execution in place: read-own-write and last write wins |
| Serializability.ValidationSound | 394984/tm.cpp:160-176 | if a transaction committed, nobody committed a write to a word it read between its snapshot and its own version, also when words share stripes |
| Serializability.ShortcutSound | 394984/tm.cpp:157-160 | when the clock did not move since begin, all version tests of the skipped loop would pass, every read is valid, and other holders of read stripes take later versions |
| Serializability.ShortcutAgreesIff | 394984/tm.cpp:157-176 | in a tame run the shortcut decides as the skipped loop if and only if nobody else holds a stripe that was read |
| Serializability.CalmReadsSnapshot | 394984/tm.cpp:210-286 | opacity read by read: in a tame run every calm read from memory, in any kind of transaction, returned the value at the transaction's begin |
| Serializability.Opaque | 394984/tm.cpp:210-286 | opacity for whole transactions: if all reads were calm they come from one snapshot, on which the log executes in place |
| SingleReads.ReadIsFresh | 394984/tm.cpp:210-286 | in every tame run any accepted read, calm or not, returned the word as of some committed state no older than the begin and no newer than the read |
| SingleReads.SeenForEver | 394984/tm.cpp:181-189 | the committed state that explains a read is never changed by a later decision |
| SingleReads.OneReadIsASnapshot | 394984/tm.cpp:210-286 | a transaction that reads memory at most once saw one committed state, without assuming calm |
| Boundaries.SnapshotSafeIff | 394984/tm.cpp:239-240 | transactions reading at most n times within a set of words see one committed state in every tame run if and only if n is at most 1 or the set is empty; the same for committed read-only transactions alone |
| StripeReads.StripeIsASnapshot | 394984/tm.cpp:210-286 | in every tame run, what a transaction has read on any one stripe, no word twice, is one committed state since its begin, without assuming calm |
| StripeReads.UncalmIsLast | 394984/tm.cpp:226-240 | after a read that was not calm a transaction reads nothing more on that stripe |
| StripeBoundary.TwoStripesBreakSnapshots | 394984/tm.cpp:239-240 | for any two words on different stripes there is a tame run in which a read-only transaction reads each once and commits values that no committed state explains |
| StripeBoundary.SnapshotSafeOnceIff | 394984/tm.cpp:239-240 | transactions reading at most n times, no word twice, within a set of words see one committed state in every tame run if and only if n is at most 1 or all the words share a stripe; the same for committed read-only transactions alone |
| Serializability.CalmIffVersionWithin | 394984/tm.cpp:274-281 | what makes an accepted read calm, both directions |
| Serializability.UncalmNeverCommits | 394984/tm.cpp:160-176 | a read-write transaction with a read that was not calm fails validation |
| Serializability.LockInvariant | 394984/tm.cpp:139-189 | a lock bit is set iff exactly one committing transaction holds the stripe; versions stay within the clock and below the holder's write version |
| Serializability.OnlyHolderReleases | 394984/data-structures.cpp:42-76 | a step changes a locked word only if the mover holds it; versions never decrease |
| Serializability.UndecidedIsInvisible | 394984/tm.cpp:139-176 | before it decides to commit, a transaction changes no shared word, no version and not the region's list; releasing a stripe restores the word it found |
| SegmentOwnership.AbortedLeavesNothing | 394984/tm.cpp:143-174 | after an abort there is no commit and no lock of the transaction, and each segment it allocated was freed exactly once |
| SegmentOwnership.FinishedPlaces | 394984/tm.cpp:191-199 | the segments of a committed transaction are in the region's list, those of an aborted one are freed |
| Serializability.WindowIsInjective | 394984/data-structures.hpp:22 | a write set within fewer than NUM_LOCKS bytes never shares a stripe |
| Boundaries.CollisionBreaksSerializability | 394984/tm.cpp:181-189 | any two words on one stripe, written by one transaction, can be read half old and half new by a transaction that commits |
| Boundaries.SafeIffStripeInjective | 394984/tm.cpp:181-189 | all runs writing within a set of words are serializable if and only if no two of the words share a stripe |
| Boundaries.SeparateLoadsBreakSnapshots | 394984/tm.cpp:239-240 | for every word there is a tame run in which a read-only transaction reads it twice and commits values that no committed state explains |
| Boundaries.ShortcutSkipsLockTest | 394984/tm.cpp:160-167 | for every word there is a tame run in which the shortcut accepts a read of it that the skipped loop would reject |
| ClockBoundary.TruncationBreaksSerializability | 394984/data-structures.cpp:59-63 | a run with injective write sets whose clock just reaches 2^31 and that is not serializable |
| ClockBoundary.ClockSafeIff | 394984/data-structures.cpp:59-63 | all runs with injective write sets and a clock up to a bound are serializable if and only if the bound is below 2^31 |
| SegmentOwnership.SegmentInOnePlace | 394984/data-structures.cpp:8-29 | in every run an allocated segment is in exactly one of: one transaction's list, the region's list, the freed set; freed at most once; segments do not overlap |
| SegmentOwnership.DestroyFreesAll | 394984/tm.cpp:75-80 | after `tm_destroy` with no running transaction every allocated segment was freed exactly once |
| Snapshots.InvariantInEverySnapshot | 394984/tm.cpp:127-200 | whatever every committed transaction keeps when run alone holds of every version of the memory in every tame run |
| Snapshots.SeesInvariant | 394984/tm.cpp:210-286 | a transaction that read once, or only calmly, is a run on such a version |
| Snapshots.CommitAllocatesFresh | 394984/tm.cpp:329-346 | what a commit allocated is new to the snapshot before it |
| Tl2Code.Transaction.Delete | 394984/data-structures.cpp:8-14 | the destructor frees every listed segment, once and in order |
| Tl2Code.MemoryRegion.TryLock | 394984/data-structures.cpp:42-56 | takes the stripe exactly when it is free and the exchange does not fail spuriously, changing no other word |
| Tl2Code.MemoryRegion.TmBegin | 394984/tm.cpp:114-120 | a new transaction with the clock's value and empty sets |
| Tl2Code.MemoryRegion.TmRead | 394984/tm.cpp:210-288 | succeeds iff every stripe read is free and no newer than the snapshot; the k-th word returned is that of memory under the write set at `source + k * align`; the read set grows by exactly the words not in the write set; frees the transaction's segments on failure |
| Tl2Code.MemoryRegion.TmWrite | 394984/tm.cpp:298-320 | the write set holds the k-th word at `target + k * align`, and every other word as before |
| Tl2Code.MemoryRegion.TmAlloc | 394984/tm.cpp:329-346 | lists the new segment, each of whose words is then 0 while every other word keeps its value, or changes nothing when there is no memory |
| Tl2Code.MemoryRegion.LockWriteSet | 394984/tm.cpp:139-152 | locks all stripes of the write set, colliding words sharing one, or stops at a word whose stripe is held by another one or whose exchange failed spuriously |
| Tl2Code.MemoryRegion.ValidateReads | 394984/tm.cpp:160-176 | passes iff every word read has a stripe that is owned or free and no newer than the snapshot |
| Tl2Code.MemoryRegion.WriteBack | 394984/tm.cpp:181-189 | lays the write set over memory and publishes the write version on its stripes, whatever the order |
| Tl2Code.MemoryRegion.TmEnd | 394984/tm.cpp:127-200 | every outcome with its effect on memory, clock, lock words and segment lists; without spurious failures it commits exactly under the stated condition |
| CodeRuns.EndIsARun | 394984/tm.cpp:127-200 | every outcome the contract of tm_end allows is a run of the transition system with that same effect |
| CodeRuns.ReadIsARun | 394984/tm.cpp:210-288 | a read of n words succeeds in a run of the transition system exactly when the contract of tm_read says so, its k-th read being of `a + k * align` with the contract's value, and otherwise aborts |
| Tl2Code.MemoryRegion.TmDestroy | 394984/data-structures.cpp:18-29 | frees the region's segments and then the first one |
| Tl2Code.AbortRestores | 394984/tm.cpp:143-174 | below version 2^31 all lock words after an abort are those before it |
| Solo.RunTl2 | 394984/tm.cpp:114-346 | alone from a quiescent state any sequence of calls commits, with the answers and the memory of in-place execution, stripe collisions within the write set included; the state is quiescent again |
| SoloRuns.SoloCommits | 394984/tm.cpp:114-200 | in the transition system: from any reachable state without locked stripes a transaction running alone, without spurious exchange failures, is never on an abort path and has a next step until it committed |
| SoloRuns.CommitsInTime | 394984/tm.cpp:127-200 | and then it commits after exactly 4n + 3 steps of tm_end, n being the number of words it writes, or one step if it is read-only |
| Progress.Progressive | 394984/tm.cpp:127-288 | in every tame run a transaction gives up only if, since it began, another one has held the stripe of a word that it had read, written or was reading, or the weak exchange failed spuriously |
| Solo.RunReference | reference/tm.c:155-186 | the reference library gives those same answers and that same memory |
| Solo.OverlappingWrites | 394984/tm.cpp:309-318 | of overlapping multi-word writes the last one wins word by word |
| Reference.Region.TmAlloc | reference/tm.c:165-186 | the new node is first, each word of its segment is 0 while every other word keeps its value, and the list stays doubly linked |
| Reference.Region.TmFree | reference/tm.c:188-198 | unlinks exactly the node given, keeps the order of the others and both directions of links |
| Reference.Region.TmDestroy | reference/tm.c:86-99 | terminates having freed each listed segment once, in order, and the first segment |
| Reference.Conserved | reference/tm.c:165-198 | what was allocated is live or was freed, as multisets |
| Reference.ServeAll | reference/tm.c:165-198 | after any sequence of allocations and valid frees, following `next` visits exactly the live segments, once each |
| Reference.Lifetime | reference/tm.c:86-198 | when the region is destroyed every segment it ever allocated has been freed exactly once |
| Bank.FieldsTile | grading/workload.hpp:97-133 | the fields of a segment fill the memory allocated for it word by word, and no two share a word |
| BankUpdates.TransferKeeps | grading/workload.hpp:265-272 | a transfer moves exactly one unit, keeps the money invariant and the list of accounts, also when both accounts are one |
| BankUpdates.RemoveAccountKeeps | grading/workload.hpp:197-202 | removing an account moves its money into the segment's parity |
| BankUpdates.RemoveSegmentKeeps | grading/workload.hpp:203-209 | removing the last account of the last segment unlinks it and moves the money to its predecessor |
| BankUpdates.AddAccountKeeps | grading/workload.hpp:210-213 | adding an account in place keeps the invariant |
| BankUpdates.AddSegmentKeeps | grading/workload.hpp:214-218 | linking a new segment with one account keeps the invariant |
| BankInvariant.LongRun | grading/workload.hpp:161-182 | long_tx on any memory with the invariant writes nothing, finds no inconsistency and counts every account |
| BankAlloc.AllocKeeps | grading/workload.hpp:186-226 | every outcome of alloc_tx restores the invariant with exactly the last account gone, if there are more than the trigger and more than two, and otherwise one new account holding the grant; the other balances stay |
| BankAlloc.AllocNeverUnlinksStart | grading/workload.hpp:203-209 | the deallocation branch is never taken with a null predecessor |
| BankShort.ShortCompletes | grading/workload.hpp:232-275 | short_tx finds exactly the two accounts asked for: true iff both exist, exactly one unit moves if they do and the sender has one, and otherwise memory is unchanged |
| BankShort.ShortKeeps | grading/workload.hpp:232-275 | short_tx keeps the invariant and the accounts |
| BankInit.InitKeeps | grading/workload.hpp:280-286 | init by any number of workers leaves one full segment, its count being that of its slots and each holding the initial balance; no other word changes |
| BankSafety.BankInEverySnapshot | grading/workload.hpp:161-286 | end to end: in every tame run of the workload the money invariant holds in every snapshot |
| BankSafety.InitCheckSucceeds | grading/workload.hpp:280-294 | in every tame run, while workers initialise, the second transaction of init, which reads one account, finds the initial balance, calm or not |
| BankSafety.LongTxNeverFails | grading/workload.hpp:161-182 | end to end: in every tame run of the workload a long_tx whose reads were calm returns true and the exact number of accounts |
| BankSafety.LongTxNeverFailsOnStripes | grading/workload.hpp:161-182 | the same for short runs whose written words lie on distinct stripes, or within one window of 10000 bytes |
| ZeroGrant.LongTxWithoutMoney | grading/workload.hpp:161-182 | in a bank without money long_tx returns true in every tame run of the workload, whatever versions its words were read at |
| LongTxBoundary.LongTxReportsViolation | grading/workload.hpp:161-182 | for every bank with money there is a tame run of the workload in which a read-only long_tx commits and returns false |
| LongTxBoundary.InitThenViolation | grading/workload.hpp:280-294 | the same with the bank filled by init, for up to 1247 accounts in the first segment |
| LongTxBoundary.LongTxSafeIff | grading/workload.hpp:161-182 | every completed long_tx of every tame run of the workload returns true if and only if accounts are granted nothing; the same for committed read-only ones, and for banks filled by init |
| BankSafety.ShortTxExact | grading/workload.hpp:232-275 | end to end: in every tame run a committed short_tx is the transfer on the bank just before its version, and its result is the truth |
| BankCode.LongTx | grading/workload.hpp:161-182 | on any list that ends the loop terminates, follows the machine of long_tx, and answers true iff no balance is negative and balances and parities add up to the grant times the count; with the invariant it answers true |
| BankCode.AllocTx | grading/workload.hpp:186-226 | the loop terminates, follows the machine of alloc_tx, and keeps the invariant with one account more or less |
| BankCode.ShortTx | grading/workload.hpp:232-275 | the loop terminates, follows the machine of short_tx, and is the exact transfer |
| BankCode.Init | grading/workload.hpp:280-286 | the loop fills the first segment |
| Barrier.NobodyLeavesEarly | grading/common.hpp:317-333 | nobody leaves its k-th sync before all entered their k-th; threads are never more than one call apart |
| Barrier.NeverStuck | grading/common.hpp:317-333 | no reachable state has all threads spinning in vain |
| Barrier.LateLeaversAreSafe | grading/common.hpp:326-332 | a thread slow to leave a round blocks the next one from completing and is always released |
| Sync.Verdict | grading/grading.cpp:85-98 | when the master reads the status: `Fail` iff some worker reported an error, its message is one of theirs, everybody ran exactly once, the counter is 0; the unreachable branch is never taken |
| Sync.AbortIsKept | grading/grading.cpp:102-138 | no step overwrites `Abort` by anything but `Fail` |
| Sync.NobodyRunsAhead | grading/grading.cpp:102-122 | no worker is a round ahead, nor runs a round the master did not plan |
| Sync.NeverStuck | grading/grading.cpp:72-138 | until all is over some thread makes a step that changes something, error and exception paths included |
| SyncRuns.VerdictOnEvents | grading/grading.cpp:85-138 | over the events of any run: when the master reads the status it is `Fail` iff some worker's workload returned an error or threw in this round, the message is then the one of such a worker, and everybody has finished |
| SyncRuns.FinishesOnce | grading/grading.cpp:163-182 | nobody's workload ends twice in a round |
| SyncRuns.JoinsAfterAllRounds | grading/grading.cpp:204-240 | the master joins only after all planned rounds or after a round that failed |
| SyncRuns.EveryRoundIsRun | grading/grading.cpp:163-240 | when all is over and no round failed, every worker has worked in every planned round |
| SyncRuns.NoRoundAfterFailure | grading/grading.cpp:204-240 | once the master has read `Fail` no other round begins |
| SyncRuns.ThrowingIsLast | grading/grading.cpp:181-187 | a worker whose workload threw reports it and works in no later round |
| SyncRuns.ComesToRest | grading/grading.cpp:72-138 | in every run only so many steps change anything, so that with NeverStuck all is over in the end |
| CounterCheck.ThreeSyncs | grading/workload.hpp:328-388 | every control path of check, error paths included, performs exactly three syncs |
| CheckPaths.EveryPathEnds | grading/workload.hpp:328-388 | whatever the answers, check has returned after at most 2 * 100 + 7 syncs and transactions |
| CheckPaths.ReportsWrongAnswers | grading/workload.hpp:341-385 | check returns an error iff one of the answers it tested was wrong: the initial value, a decrement above the last read, the final zero |
| CounterCheck.CheckSucceeds | grading/workload.hpp:328-388 | with transactions in one step and last reads that may be old: for any number of workers no check fails, the counter is positive and at most the last read before each decrement, and 0 after the last barrier |
| CounterCheck.NeverGrows | grading/workload.hpp:358-377 | once initialised the counter never grows |
| CounterRuns.CounterAt | grading/workload.hpp:361-371 | in every tame run the counter at each version is its initial value less the decrements so far |
| CounterRuns.NeverAboveLastRead | grading/workload.hpp:353-371 | in every tame run no transaction finds the counter above what a read-only transaction had read before it began, calm or not, and each decrement finds it positive |
| CounterRuns.FinallyZero | grading/workload.hpp:381-385 | in every tame run a read whose snapshot holds all decrements returns 0 |
| CheckWorld.TransactsIff | grading/workload.hpp:341-381 | a worker has a transaction exactly where check goes by what memory answers, or initialises the counter |
| CheckWorld.StepFollows | grading/workload.hpp:336-385 | each transaction of a worker keeps to its text in check, access by access |
| CheckRuns.RunGood | grading/workload.hpp:328-388 | the invariant of memory, barrier and workers together, in which each decided transaction is a step of CounterCheck |
| CheckRuns.CheckNeverFails | grading/workload.hpp:328-388 | end to end, any number of workers, every interleaving of all their accesses to memory and barrier, aborts retried, calm or not: no check reports an error |
| CheckRuns.CounterEndsAtZero | grading/workload.hpp:379-385 | once some worker is past the last barrier the counter in memory is 0 |
| CheckRuns.NeverBelowZero | grading/workload.hpp:361-371 | every committed decrement found the counter positive, so that it never wraps around |
| CheckProgress.SomeTurnChanges | grading/workload.hpp:328-388 | until every worker has returned some turn changes the world, without counting on spurious failures |
| CheckProgress.WorkIsBounded | grading/workload.hpp:328-388 | only so many turns of a worker change anything, plus 41 for each transaction it had to try again |
| CheckProgress.RestsInSuccess | grading/workload.hpp:328-388 | when no turn changes anything any more, every worker has returned without an error |
| CheckRivals.UnrivalledSucceeds | grading/transactional.hpp:611-620 | a worker whose transactions meet no rival tries each of them once, and after a bounded number of turns not spent waiting it has returned without an error |
| CheckRivals.LoneWorkerSucceeds | grading/workload.hpp:328-388 | one worker alone never retries and returns without an error after a bounded number of turns |
| Ring.FirstInFirstOut | sync-examples/procon3.c:32-63 | at most a buffer full of items is in flight; what is consumed is what was produced, character by character |
| Ring.NeverStuck | sync-examples/procon3.c:32-63 | one side can always go on until all is consumed |
| Ring.GoesOnIff | sync-examples/procon3.c:36-61 | the producer goes on exactly when fewer than a buffer full of items is in flight, the consumer exactly when one is |
| Ring.ComesToRest | sync-examples/procon3.c:32-63 | only so many accesses change anything, so that with NeverStuck everything is consumed in the end |
| CondvarRing.FirstInFirstOut | sync-examples/procon4.c:36-74 | the same bounds and contents under the mutex, with mutual exclusion |
| CondvarRing.NoLostWakeUp | sync-examples/procon4.c:36-74 | producer and consumer never both sleep; a thread sleeps although it may go on only while the other is about to wake it |
| CondvarRing.NeverStuck | sync-examples/procon4.c:36-74 | some thread can go on without counting on spurious wake-ups |
| CondvarRing.GoesOnIff | sync-examples/procon4.c:40-72 | a thread that tests its condition goes on exactly when there is room, or an item, and otherwise sleeps |
| CondvarRing.ComesToRest | sync-examples/procon4.c:36-74 | only so many accesses change anything, apart from what spurious wake-ups cost |

## Left out

- Weak memory orders, torn word copies and data races: every access is sequentially consistent and every aligned one-word copy is one step.
- Multi-word reads and writes in `Tl2` are sequences of one-word calls; `Tl2Code`, `CodeRuns` and `Solo` have the multi-word loops.
- Tl2Code.MemoryRegion.TmRead: one caller at a time, so the branch in which post-validation fails is unreachable there; `Tl2` has it.
- Tl2Code.MemoryRegion.TryLock: nothing happens between the load and the exchange, for the same reason; `LockWord.LockOnDecoded` and `Tl2` allow it.
- Solo.RunTl2: without spurious failures of the weak exchange; the clock is below 2^63 - 1.
- Serializability.CalmReadsSnapshot: needs the read to be calm, as do Serializability.Opaque and BankSafety.LongTxNeverFails of all reads, because without that it is false of the code for two reads or more; exactly when it is true is `Boundaries.SnapshotSafeIff` and `StripeBoundary.SnapshotSafeOnceIff`.
- Serializability.Opaque: see the line above; for a single read there is `SingleReads.OneReadIsASnapshot`.
- BankSafety.LongTxNeverFails: needs calm reads and a tame run, because without calm reads it is false of the code unless there is no money (`LongTxBoundary.LongTxSafeIff`); it is about runs whose commits up to some version are initialisations and after it bank transactions, as the rounds of the benchmark arrange.
- CounterCheck.CheckSucceeds: takes each transaction as one step; `CheckRuns.CheckNeverFails` has the check access by access, barrier included.
- Unaligned accesses, writes and allocations in read-only transactions: excluded by the interface.
- Reuse of addresses by the system allocator after an abort freed them, in the concurrent model: new segments are apart from all earlier ones.
- Allocation failures of `tm_create`, `tm_begin` and, in `Tl2`, `tm_alloc`.
- `tm_free` of the TL2 library, which does nothing; the bank's `next.free()` is the read and the write of the pointer around it.
- The exceptions of `grading/transactional.hpp`; its retry loop is in `CheckWorld` alone.
- CheckProgress.WorkIsBounded: counts a worker's retries, because the code promises no bound on them under contention; `CheckRivals.UnrivalledSucceeds` has none, and `Progress.Progressive` says who causes one. Fair scheduling is not promised either.
- 64-bit wrap-around of balances, counts and sums in the bank: integers are unbounded there. The counter check has the wrap-around of its decrement.
- BankBodies evaluates the operands of `+` left to right, which C++ leaves open; the accesses concerned are reads.
- Barrier and Sync counters are unbounded; the number of threads is below 2^32.
- Timeouts, the clock, loading of libraries, random choices, thread creation and reports: random values and allocator answers are parameters.
- The mutex and shared-lock wrappers, the memory of `struct segment_node` itself and the coarse lock of the reference library.
- `Latch` is its flag: raising and a successful wait are one step each, as the mutex makes them.
- `submit.py`, `playground/`, `testing/` and the counter and election examples.
