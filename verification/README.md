# Verified model of the concurrency core, the diagnostics cache and the configuration merge

Dafny models, with proofs, of the algorithms the language server's concurrency and bookkeeping rest on. Each module
follows one component:

- `ConcurrentTable` and the `Concurrent*` proofs: the optimistic insertion, lookup and erasure of the concurrent hash
  table, and walks over all its elements, between two rehashes, as an interleaving of atomic steps of any number of
  threads with program counters. The transition relation is `ConcurrentTable.Step`; a run (`ConcurrentRuns.IsRun`)
  starts in any quiescent table whose elements satisfy the sequential invariant. `ConcurrentSteps` sorts the steps by
  what they change; `ConcurrentSafety`, `ConcurrentUniqueness` and `ConcurrentSizes` say what each kind keeps;
  `ConcurrentRuns` puts the invariant together. `ConcurrentEffects` says when keys come and go, and
  `ConcurrentOperations` that every finished operation takes effect at one moment. `ConcurrentProgress`: what every
  thread can do next. `ConcurrentAlone`: an undisturbed operation finishes, with the sequential result. `ConcurrentWalks`:
  which elements a walk calls its function on. `ConcurrentMetadata`: what bytes, counters and loads record of a run.
  `ConcurrentBulk`: bulk visits among other threads. `ConcurrentHandover` connects a run with the sequential table at both ends, and `ConcurrentPhases`
  follows histories of runs with rehashes between them.
- `TableLayout`, `TableCore`, `HashTable`: the sequential open-addressing table as arrays updated in place, refining a
  set of elements with distinct keys. `BulkVisit`: visiting many keys at once against visiting them one by one.
- `Keys`, `Probing`: what both tables share: hashing and key equality; probe sequences and overflow bits along them. The
  concurrent theorems hold for every `Probing.Regular` mapping of hashes to groups; `Probing.ActualIsRegular` shows that
  the mapping in use is one.
- `Prober`, `SizePolicy`, `Group15`, `Mulx`: the bit and arithmetic kernels of that table. `GroupRefinement`: the groups
  of the table, with numbers for bytes, are what the bit layouts of `Group15` stand for.
- `RwSpinlock`, `AccessLocks`: the one-word reader/writer lock, and the two-level locking built on such locks.
- `ThreadPool`, `Blocks`: the worker/wait/detach protocol of the thread pool, and its splitting of index ranges.
- `DiagClient`: the cache of diagnostics per document against the editor's view of it.
- `Config`: layering up to three configuration files.
- `Counting`, `Runs`, `Wrappers`: sums over sequences, induction along runs, and optional values.

`dafny verify dfyconfig.toml` checks everything.

## Assumptions

- Interleavings are sequentially consistent; each atomic load, store or read-modify-write is one step. Reading the 16
  metadata bytes of a group for a match is one step.
- Hash and key equality are abstract: equality is an equivalence and equal keys hash equally, to 64-bit values.
- The maximum load factor is exactly 7/8 and the growth quotients are exact.
- The insertion counter does not wrap between one thread's reading and its incrementing it; it is unbounded here.
- What the condition of an erasure by key says of the element it meets is part of the operation (`Op.Erase(accepts)`); an
  erasure without a condition accepts.
- A walk over all elements may end after any of them and, where it holds group locks exclusively, may erase any of them.
- Visitor functions do not re-enter a table and do not change keys. What a visitor does may depend on all it saw before.
- Sizes are unbounded integers; `SizePolicy.WithinWord` shows that up to 2^60 elements they fit 64 bits. The word of the
  spin lock, the group words and the multiplication have their real widths.
- In `RwSpinlock` a caller is one use of the lock, and callers release only what they hold. In `AccessLocks` locks are
  granted as `RwSpinlock` proves, and tables are numbered by address.
- The thread pool has one `wait` caller at a time and at least one thread; a condition variable may wake spuriously.
- The diagnostics client is the only publisher, and a publish replaces the editor's earlier list for the document, as in
  the "PublishDiagnostics Notification" section of the Language Server Protocol 3.17 specification.
- Configuration files arrive as validated objects with distinct keys, or as skipped; the defaults are a parameter.

## Where code and expectation differ

- The pool's `pause` and `purge` notify nobody. A waiter asleep while no worker is running then misses that its
  condition has become true: `ThreadPool.WakeUpMissedIff` is the exact condition and `ThreadPool.PurgeLosesWakeUp` a run.
- The documented merge (arrays appended, scalars overwritten) has an exception for fields unknown to the schema: a
  non-array after an array makes layering throw. `Config.LayerAll` gives the exact condition,
  `Config.UnknownFieldFails` an example.
- The two layouts of `group15` differ on `is_sentinel` for a slot other than the last that holds 1, which never happens;
  `Group15.InterleavedGroup.IsSentinel` says exactly when they agree.
- `blocks` divides by the requested number of blocks, so its constructor requires one block at least for a non-empty
  range; `detach_loop` always passes one.

## Model

| member | source | states |
|---|---|---|
| `ConcurrentRuns.NoDuplicateKeys` | external/boost_concurrent.hpp:12057-12099 | In every interleaving of inserts, visits, erases and walks over all elements, no two committed elements have equal keys, in any state. |
| `ConcurrentUniqueness.CheckedInsertIsFresh` | external/boost_concurrent.hpp:12082-12088 | If some element equal to the key is in the table when an insertion is about to check the counter, the counter has moved since it was read: an insertion that passes the check has no equal key beside it. |
| `ConcurrentUniqueness.MissRulesOut` | external/boost_concurrent.hpp:11677-11716 | When a lookup gives up (clear overflow bit or all groups probed), no equal element older than the counter value it read remains anywhere in the table. |
| `ConcurrentUniqueness.ProbeSees` | external/boost_concurrent.hpp:11687-11689 | The reduced-hash match made without a lock leaves out no equal element that was in the group before the lookup began. |
| `ConcurrentUniqueness.CompareSees` | external/boost_concurrent.hpp:11690-11704 | A matched slot that compares unequal under the group lock holds no older equal element. |
| `ConcurrentUniqueness.InsertKeepsDistinct` | external/boost_concurrent.hpp:12074-12095 | Each step of slot reservation, counter check, construction and withdrawal keeps keys distinct, promised but unconstructed elements included. |
| `ConcurrentUniqueness.ScanKeepsReachable` | external/boost_concurrent.hpp:12078-12094 | Marking a full group before moving on keeps the overflow invariant: every group passed on the way to an element carries its bit. |
| `ConcurrentSafety.ComparedSlotIsSettled` | external/boost_concurrent.hpp:11690-11699 | A thread comparing keys under a group lock meets only free or fully constructed slots. |
| `ConcurrentRuns.NoUnconstructedRead` | external/boost_concurrent.hpp:11690-11699 | The same in every state of every run: no lookup reads an element under construction or destroyed, nor the sentinel. |
| `ConcurrentSafety.ExclusiveUpdate` | external/boost_concurrent.hpp:11529-11542 | A step that takes a grantable group lock keeps every other thread out of that group, unless both share it. |
| `ConcurrentSafety.StepKeepsExclusion` | external/boost_concurrent.hpp:11529-11542 | Every step of every thread keeps groups exclusive: a lock is taken only when it can be granted, and held no more exclusively than taken. |
| `ConcurrentRuns.SweepMeetsElements` | external/boost_concurrent.hpp:12132-12152 | In every state of every run, each slot a walk still has to come to in the group it has locked holds a constructed element, so its function never sees anything else. |
| `ConcurrentRuns.LoadInEveryState` | external/boost_concurrent.hpp:12016-12035 | In every state live elements plus granted size reservations, those being withdrawn included until they are given back, stay within the maximum load, which stays within the capacity; and there are at least as many free slots as granted insertions still looking for one. |
| `ConcurrentSizes.LoadIsRespected` | external/boost_concurrent.hpp:12016-12035 | The invariant behind it: elements and reservations, from the grant until the element is constructed or the size given back, fit the maximum load although load and size are changed in separate steps. |
| `ConcurrentSizes.CountersArePositive` | external/boost_concurrent.hpp:10009-10018 | No decrement of the maximum load or of the size underflows. |
| `ConcurrentSizes.FreeSlotsSuffice` | external/boost_concurrent.hpp:12074-12095 | There are at least as many free slots as threads whose size reservation was granted and that still look for a slot: no two of them depend on the same one. |
| `ConcurrentSizes.ReserveKeepsSized` | external/boost_concurrent.hpp:12016-12035 | Claiming, testing and giving back size keep the accounting of claims, occupied slots and loads. |
| `ConcurrentSizes.EraseKeepsSized` | external/boost_concurrent.hpp:10009-10018 | Lowering the load, resetting the metadata and lowering the size, one at a time, keep it too. |
| `ConcurrentRuns.StepKeepsInv` | external/boost_concurrent.hpp:12057-12099 | Every step of every thread keeps the joint invariant: lock exclusion, slots in hand, reachability, what lookups have seen, distinct keys, sizes, sentinel. |
| `ConcurrentRuns.RunInv` | external/boost_concurrent.hpp:12057-12099 | The invariant holds in every state of every run from a quiescent table. |
| `ConcurrentEffects.InsertTakesEffect` | external/boost_concurrent.hpp:12082-12092 | The counter-check step of a successful insertion is where it takes effect: its key was absent just before and is the only one that becomes present. |
| `ConcurrentEffects.EraseTakesEffect` | external/boost_concurrent.hpp:11286-11303 | The comparison step of a successful erasure takes exactly the keys equal to its own from the table, one of which was present. |
| `ConcurrentEffects.SweepTakesEffect` | external/boost_concurrent.hpp:11305-11319 | A walk that has an element erased takes exactly the keys equal to that element's from the table. |
| `ConcurrentEffects.OtherStepsKeepElements` | external/boost_concurrent.hpp:12057-12099 | All other steps leave every slot's element, and the set of present keys, as they were. |
| `ConcurrentEffects.HitIsPresent` | external/boost_concurrent.hpp:11695-11702 | A visit or insertion that reports an equal key does so in a state in which that key is present, and reports 1 or 0 accordingly. |
| `ConcurrentEffects.MissWasAbsent` | external/boost_concurrent.hpp:11677-11716 | A lookup that reports no equal key had a moment, between its start and its end, at which the key was absent. |
| `ConcurrentOperations.OperationIsAtomic` | external/boost_concurrent.hpp:12057-12099 | Every finished insertion, visit and erasure of every run: one that reports success took effect, in exactly one of its steps, by adding its key, absent until then, or removing it; any other changed nothing and was answered by a moment since its start: a visit or insertion met its key while present; a visit or erasure that reports 0 had its key absent, unless its condition declined the element it met; an insertion told that the table is full had its key absent. An erasure that declines nothing never reports 0 for having met its key. |
| `ConcurrentAlone.AloneAnswers` | external/boost_concurrent.hpp:12057-12099 | An operation no other thread disturbs, from a state in which all threads are done, has exactly the sequential result: an insertion 1, 0 or -1 as its key is absent with room left, present, or absent with the maximum load reached; a visit and an accepting erasure 1 exactly if the key is present. |
| `ConcurrentAlone.AloneFinishes` | external/boost_concurrent.hpp:12057-12099 | A thread alone comes to the end of its operation: it is never sent back to the start, and there is a path of its own steps to the end. |
| `ConcurrentAlone.AnyOperationRuns` | external/boost_concurrent.hpp:11281-11303 | Whenever all threads are done, the run can be continued by any insertion, visit or erasure of any key, carried out to its end, with that result. |
| `ConcurrentProgress.NobodyIsStuck` | external/boost_concurrent.hpp:11677-11716 | In every state of every run a thread inside an operation whose lock, if it asks for one, can be granted has a next step. |
| `ConcurrentProgress.SomeoneCanStep` | external/boost_concurrent.hpp:11529-11542 | No deadlock on group locks: while some thread is inside an operation, one of those has a next step. |
| `ConcurrentProgress.GrantedIff` | external/boost_concurrent.hpp:11529-11542 | A group lock can be granted exactly when no other thread is in the group, or all are and want to be there shared. |
| `ConcurrentProgress.LookupGoesOnIff` | external/boost_concurrent.hpp:11705-11716 | A lookup goes on to the next group exactly if the one passed is marked for its hash and not all groups have been probed. |
| `ConcurrentProgress.LockIsKept` | external/boost_concurrent.hpp:11529-11542 | In every step of every run a thread takes the group lock it asked for, in that mode, keeps it in that mode, or releases it. |
| `ConcurrentProgress.WalkCanObey` | external/boost_concurrent.hpp:11305-11319 | Whatever the function of a walk decides on the next element (go on, stop, erase under an exclusive lock), the walk can do. |
| `ConcurrentWalks.WalkMissesNothing` | external/boost_concurrent.hpp:12134-12152 | A walk that comes to its end has called its function on every slot that held an element until then, whatever other threads did meanwhile; one ended early by its function, on every such slot up to the one it was ended at. |
| `ConcurrentWalks.CalledAtMostOnce` | external/boost_concurrent.hpp:12134-12152 | No slot is called twice in one walk, and each call meets a constructed element. |
| `ConcurrentWalks.SteadySlotIsCalled` | external/boost_concurrent.hpp:12134-12152 | A slot that is not changed before the walk comes to it is called exactly if it holds an element. |
| `ConcurrentMetadata.CountersCountChecks` | external/boost_concurrent.hpp:12082-12085 | In every state of every run an insertion counter has grown by exactly the checks made on it, failed ones included. |
| `ConcurrentMetadata.LoadLost` | external/boost_concurrent.hpp:10009-10018 | In every state of every run the maximum load has dropped by exactly the erased elements for whose hash their group was marked. |
| `ConcurrentMetadata.OverflowIsMarked` | external/boost_concurrent.hpp:12074-12094 | In every state of every run an overflow bit is set exactly if it was at the start or an insertion of such a hash has found the group full since. |
| `ConcurrentMetadata.MetadataMoves` | external/boost_concurrent.hpp:12037-12053 | A metadata byte becomes the reduced hash when its slot is reserved and zero when it is freed, and is never written otherwise. |
| `ConcurrentMetadata.ScanTakesFirst` | external/boost_concurrent.hpp:12074-12081 | The slot reserved is the first free one of its group, and is marked with the hash of the key. |
| `ConcurrentBulk.KeyIsAnswered` | external/boost_concurrent.hpp:11718-11793 | Each key of a bulk visit among other threads was met while present, and the visitor called on it, or was absent at some moment of the visit; the visit changes nothing. |
| `ConcurrentBulk.SteadyKeyIsVisited` | external/boost_concurrent.hpp:11748-11790 | A key that nobody adds or removes during the bulk visit is visited exactly when it is there, however long its match precedes its locks. |
| `ConcurrentBulk.BulkVisitCounts` | external/boost_concurrent.hpp:11591-11609 | Whatever other threads do with other keys, a bulk visit of such keys returns the number of those present. |
| `ConcurrentPhases.SizeIsBalance` | external/boost_concurrent.hpp:11973-11987 | Over any history of runs with rehashes between them, the size at a quiet moment is the size at the start plus the elements inserted less the elements erased, step by step. |
| `ConcurrentPhases.HistoryHasNoDuplicates` | external/boost_concurrent.hpp:11973-11987 | Keys are distinct in every state of every phase of such a history. |
| `ConcurrentPhases.RehashKeepsKeys` | external/boost_concurrent.hpp:12101-12107 | Across each rehash of a history exactly the same keys are present. |
| `ConcurrentPhases.RehashIfFull` | external/boost_concurrent.hpp:12101-12107 | Growing the table object that a quiet concurrent state stands for gives a quiescent state again, with the same elements and room for one more, from which the next run may start; new arrays have insertion counters of zero. |
| `ConcurrentPhases.ViewsAgree` | external/boost_concurrent.hpp:10632-10657 | The arrays made from the state of valid arrays are those arrays: the two views of a table are inverse. |
| `ConcurrentHandover.TableIsQuiescent` | external/boost_concurrent.hpp:11509-11512 | A valid sequential table, with any insertion counters, is a quiescent concurrent state: the run theorems apply to what construction, rehash and clear leave. |
| `ConcurrentHandover.QuietStateIsTable` | external/boost_concurrent.hpp:12101-12107 | Whenever all threads of a run are done, metadata, elements and counters make up a valid sequential table again, on which a rehash under exclusive access may run. |
| `BulkVisit.BulkVisitImpl` | external/boost_concurrent.hpp:11591-11609 | Chunked bulk visit of a table the visitor alone changes: elements left, visitor calls and their order, and the count are those of visiting the keys one by one; the count is the number of keys present at the start. |
| `BulkVisit.UnprotectedBulkVisit` | external/boost_concurrent.hpp:11718-11793 | One chunk of fewer than 32 keys with precomputed hashes, positions and masks in reversed arrays has, on such a table, the effect of visiting its keys in turn. |
| `BulkVisit.BulkProbe` | external/boost_concurrent.hpp:11748-11790 | The loop for one key, entered with the home mask, finds the slot of the equal element exactly when there is one. |
| `BulkVisit.NextMatch` | external/boost_concurrent.hpp:11775-11786 | The inner overflow-test loop stops at the next group with a match, having skipped no equal key, or reports that none is stored. |
| `BulkVisit.Locate` | external/boost_concurrent.hpp:11677-11716 | The loop of a single visit finds the slot of the equal element exactly when there is one. |
| `BulkVisit.Hash` | external/boost_concurrent.hpp:11730-11734 | Hash and home position of key m-1-i are stored at index i. |
| `BulkVisit.ComputeMasks` | external/boost_concurrent.hpp:11736-11745 | The stored mask of each key is the match of its home group. |
| `BulkVisit.CompareMasked` | external/boost_concurrent.hpp:11690-11704 | Comparing the matched slots lowest first finds the equal element or shows that none of them is one. |
| `BulkVisit.InternalVisit` | external/boost_concurrent.hpp:11677-11716 | A single visit calls the visitor once on the element with an equal key, or not at all, and returns how often. |
| `BulkVisit.VisitKeysInTurn` | external/boost_concurrent.hpp:11677-11716 | Single visits in a row have the same specification as the bulk visit. |
| `BulkVisit.VisitsArePresentKeys` | external/boost_concurrent.hpp:11591-11609 | Visiting changes no key, so the number of calls is the number of given keys present at the start. |
| `BulkVisit.VisitEachSplit` | external/boost_concurrent.hpp:11600-11607 | Cutting the keys into chunks changes nothing. |
| `BulkVisit.VisitOneSees` | external/boost_concurrent.hpp:11677-11716 | A visit replaces the element with an equal key by what the visitor makes of it, and leaves all others. |
| `BulkVisit.VisitorMakesElement` | external/boost_concurrent.hpp:11591-11609 | After visits of several keys, one of which is an element's, that element is what the visitor made of the original, given what it had seen before. |
| `BulkVisit.VisitLeavesOthers` | external/boost_concurrent.hpp:11591-11609 | An element with none of the keys stays as it is. |
| `HashTable.Table.constructor` | external/boost_concurrent.hpp:9307-9318 | A new table is empty, has the capacity for the number asked for, and the initial maximum load of that capacity. |
| `HashTable.Table.Find` | external/boost_concurrent.hpp:9468-9504 | Finds a slot exactly when an equal key is stored. |
| `HashTable.Table.UncheckedEmplaceAt` | external/boost_concurrent.hpp:9713-9721 | Adds the element and counts it, keeping arrays and maximum load. |
| `HashTable.Table.EraseAt` | external/boost_concurrent.hpp:9441-9446 | Removes exactly that element; the load drops by one exactly when the overflow bit of its full hash is set. |
| `HashTable.Table.UncheckedRehash` | external/boost_concurrent.hpp:10036-10071 | Moves each element once to the given arrays, on top of those already there; contents and size are kept, the load is that of the new capacity. |
| `HashTable.Table.Clear` | external/boost_concurrent.hpp:9535-9553 | Leaves no element, no overflow bit and the initial maximum load, in the same arrays. |
| `HashTable.Table.UncheckedRehashTo` | external/boost_concurrent.hpp:10030-10034 | Rehash to new arrays for the given capacity keeps the contents; the maximum load is the initial one of the new capacity. |
| `HashTable.Table.Rehash` | external/boost_concurrent.hpp:9573-9580 | The capacity becomes the least permissible one for the larger of the request and the current size; if that is the present one, arrays and load stay; contents are kept. |
| `HashTable.Table.Reserve` | external/boost_concurrent.hpp:9582-9585 | Afterwards the initial maximum load of the capacity admits the reserved number of elements; the capacity is that of a rehash for the larger of this number and the size. |
| `HashTable.Table.RehashIfFull` | external/boost_concurrent.hpp:12101-12107 | A full table grows to the capacity for its size and a little more, with the initial maximum load of it, any other stays; afterwards there is room for one more element; contents are kept. |
| `HashTable.Table.UncheckedEmplaceWithRehash` | external/boost_concurrent.hpp:9729-9751 | Inserting into larger arrays first and then moving the rest adds exactly that element; capacity and load are those of growth. |
| `HashTable.Table.GrownWith` | external/boost_concurrent.hpp:9732-9741 | The larger arrays made first hold the new element alone, and their maximum load exceeds the current size. |
| `HashTable.Table.RehashOnto` | external/boost_concurrent.hpp:9732-9744 | Moves everything on top of the one element of the larger arrays and counts that too. |
| `HashTable.Table.Emplace` | external/boost_concurrent.hpp:11988-12004 | Inserts exactly when no equal key is stored, and says so; the arrays are replaced by larger ones exactly when the element is new and the maximum load reached. |
| `HashTable.Table.Erase` | external/boost_concurrent.hpp:11286-11303 | Removes the element with an equal key, if any, and returns how many were removed; the load drops exactly if that element had caused overflow. |
| `HashTable.Table.TransferElement` | external/boost_concurrent.hpp:10092-10104 | Copies an element into new arrays at its own position there. |
| `HashTable.Table.Replay` | external/boost_concurrent.hpp:9535-9585 | After any history of emplace, erase, clear, rehash and reserve the table holds exactly the elements of the set specification, its size is their number, and size <= maximum load <= capacity. |
| `HashTable.ContentsSize` | external/boost_concurrent.hpp:9307-9318 | With distinct keys there are as many elements as used slots. |
| `HashTable.ErasedPlaced` | external/boost_concurrent.hpp:10009-10018 | Resetting a slot keeps all other elements reachable; asking for overflow by the reduced hash is asking by the full one. |
| `TableCore.NewArrays` | external/boost_concurrent.hpp:8795-8848 | New arrays are empty, have the permissible size for the request, and satisfy the array invariant with one sentinel. |
| `TableCore.ProbingComplete` | external/boost_concurrent.hpp:9468-9504 | A lookup that stops at a clear overflow bit, or after all groups, has not skipped the key. |
| `TableCore.CompareMatches` | external/boost_concurrent.hpp:9477-9493 | Comparing the matched slots of a group finds an equal key or shows that none of them has one. |
| `TableCore.ProbeFor` | external/boost_concurrent.hpp:9468-9504 | The probe loop ends, with an equal key or at a permitted stop with every group up to there compared. |
| `TableCore.FindIn` | external/boost_concurrent.hpp:9468-9504 | A lookup returns the slot of an equal key, or there is none in the arrays. |
| `TableCore.ProbeForRoom` | external/boost_concurrent.hpp:10120-10133 | The insertion loop ends at the first group with an available slot, within as many steps as there are groups, with exactly the full groups before it marked. |
| `TableCore.MarkAndGoOn` | external/boost_concurrent.hpp:10120-10133 | Passing a full group marks it and advances the prober, which still has a group left to probe. |
| `TableCore.MarkGroup` | external/boost_concurrent.hpp:10132 | Marks one more full group of the probe sequence. |
| `TableCore.TakeSlot` | external/boost_concurrent.hpp:10125-10130 | Fills the first available slot and keeps every element, the new one included, reachable. |
| `TableCore.NosizeUncheckedEmplaceAt` | external/boost_concurrent.hpp:10115-10134 | The element goes to the first available slot along its probe sequence; metadata and elements change there and in the marked overflow bits only. |
| `TableCore.InsertedPlaced` | external/boost_concurrent.hpp:10115-10134 | Insertion keeps the central invariant: an element k steps from home has its overflow bit set in all k earlier groups. |
| `TableCore.NotLastGroup` | external/boost_concurrent.hpp:10120-10133 | While a slot is available anywhere, a full group is not the last one probed. |
| `TableCore.MarkedKeeps` | external/boost_concurrent.hpp:10132 | Marking changes no slot and clears no overflow bit. |
| `TableCore.ReallyOccupied` | external/boost_concurrent.hpp:9707-9711 | The mask of a group lists its occupied slots in ascending order, without the sentinel. |
| `TableCore.ForAllElements` | external/boost_concurrent.hpp:9807-9824 | The walk visits each slot that holds an element exactly once, in ascending order, and never the sentinel. |
| `TableLayout.EqualElement` | external/boost_concurrent.hpp:9468-9504 | An element with an equal key carries the reduced hash looked for and is reached from the home group looked at. |
| `TableLayout.AvailableSlot` | external/boost_concurrent.hpp:10120-10133 | With fewer elements than the capacity some slot is available. |
| `Prober.Next` | external/boost_concurrent.hpp:8640-8645 | Advances to the next triangular position; false exactly once all mask+1 positions were seen. |
| `Prober.ProbesArePermutation` | external/boost_concurrent.hpp:8623-8649 | For every start, the first 2^n positions are pairwise different and together all 2^n positions. |
| `Prober.DistinctProbes` | external/boost_concurrent.hpp:8635-8645 | Two of the first 2^n probes never coincide. |
| `Prober.ProbesCover` | external/boost_concurrent.hpp:8635-8645 | Every group is among the first 2^n probed. |
| `Probing.ActualIsRegular` | external/boost_concurrent.hpp:8608-8649 | With high hash bits for the home group and triangular steps every group is in range and is among the first 2^n probed from anywhere. |
| `Probing.NothingUnvisited` | external/boost_concurrent.hpp:8635-8645 | After as many probes as groups no group is left. |
| `Probing.Advance` | external/boost_concurrent.hpp:8640-8645 | The prober follows the probe sequence of the table and ends exactly after as many steps as there are groups. |
| `Probing.BitsReach` | external/boost_concurrent.hpp:10120-10133 | If the first i groups probed carry the overflow bit of a hash, an element of that hash in the group probed next can be reached. |
| `SizePolicy.SizeIndexIsLeast` | external/boost_concurrent.hpp:8590-8606 | The chosen number of groups is the least power of two, from 2 on, that is at least n. |
| `SizePolicy.PositionInRange` | external/boost_concurrent.hpp:8608-8611 | Every 64-bit hash maps to an existing group. |
| `SizePolicy.CapacitySuffices` | external/boost_concurrent.hpp:10025-10028 | A table made for n elements holds n elements besides the sentinel. |
| `SizePolicy.CapacityUpper` | external/boost_concurrent.hpp:10025-10028 | It is at most twice what was asked for, or the minimal table. |
| `SizePolicy.CapacityIdempotent` | external/boost_concurrent.hpp:9573-9580 | Asking for a capacity gives that capacity, so rehash compares like with like. |
| `SizePolicy.GrowthMakesRoom` | external/boost_concurrent.hpp:9868-9882 | The maximum load after growth exceeds the current size. |
| `SizePolicy.RehashKeepsSizeWithinLoad` | external/boost_concurrent.hpp:9573-9580 | After an explicit rehash the current size is within the new maximum load. |
| `SizePolicy.MaxLoadWithinCapacity` | external/boost_concurrent.hpp:9307-9318 | The initial maximum load is within the capacity. |
| `SizePolicy.MaxLoadIsExact` | external/boost_concurrent.hpp:9307-9318 | Up to a capacity of 29 the initial maximum load is the capacity; above, it is the greatest integer within 7/8 of it. |
| `SizePolicy.CeilIsExact` | external/boost_concurrent.hpp:9573-9585 | The number of slots asked for n elements is the least of which 7/8 is at least n. |
| `SizePolicy.GrowthDoubles` | external/boost_concurrent.hpp:9868-9882 | A table filled to its initial maximum load grows to the next permissible capacity, twice as many groups. |
| `SizePolicy.CapacityIsPermissible` | external/boost_concurrent.hpp:8590-8606 | Every capacity is 15 times a power of two, less one. |
| `SizePolicy.CapacityBetween` | external/boost_concurrent.hpp:8590-8606 | A request above one permissible capacity and within the next gets the next. |
| `SizePolicy.PositionIsHighBits` | external/boost_concurrent.hpp:8608-8611 | The home group is the number that the most significant bits of the hash make up. |
| `SizePolicy.ReducedKeepsLowByte` | external/boost_concurrent.hpp:8480-8502 | The reduced hash is the low byte of the hash, with 0 and 1 moved up by 8. |
| `SizePolicy.WithinWord` | external/boost_concurrent.hpp:9868-9882 | Up to 2^60 elements no size computed on the way exceeds 64 bits. |
| `Group15.InterleavedGroup.Initialize` | external/boost_concurrent.hpp:8390 | Stands for the all-zero bytes. |
| `Group15.InterleavedGroup.Set` | external/boost_concurrent.hpp:8392-8396 | Writes the reduced hash to that byte of the byte layout and no other. |
| `Group15.InterleavedGroup.Reset` | external/boost_concurrent.hpp:8413-8417 | Writes zero to that byte and no other. |
| `Group15.InterleavedGroup.SetSentinel` | external/boost_concurrent.hpp:8398-8401 | Writes the sentinel to byte 14 and no other. |
| `Group15.InterleavedGroup.SetByte` | external/boost_concurrent.hpp:8504-8535 | Nibble-wise writing through the two tables writes exactly one byte. |
| `Group15.InterleavedGroup.Match` | external/boost_concurrent.hpp:8426-8429 | Flags exactly the slots whose byte is the reduced hash. |
| `Group15.InterleavedGroup.MatchAvailable` | external/boost_concurrent.hpp:8450-8456 | Flags exactly the slots whose byte is zero. |
| `Group15.InterleavedGroup.MatchOccupied` | external/boost_concurrent.hpp:8465-8471 | Flags exactly the slots whose byte is not zero. |
| `Group15.InterleavedGroup.IsOccupied` | external/boost_concurrent.hpp:8458-8463 | True exactly when the byte is not zero. |
| `Group15.InterleavedGroup.IsSentinel` | external/boost_concurrent.hpp:8403-8411 | True exactly for slot 14 holding 1; agrees with the byte layout wherever no other slot holds 1. |
| `Group15.InterleavedGroup.MarkOverflowOf` | external/boost_concurrent.hpp:8436-8439 | Sets the overflow bit of the hash in byte 15 and changes nothing else. |
| `Group15.InterleavedGroup.TestNotOverflowed` | external/boost_concurrent.hpp:8431-8434 | Agrees with the byte layout for every hash. |
| `Group15.InterleavedGroup.TestCausedOverflow` | external/boost_concurrent.hpp:8441-8448 | Agrees with asking the overflow byte by the slot's own byte. |
| `Group15.ReducedOverflowAgrees` | external/boost_concurrent.hpp:8480-8502 | Asking for overflow by the reduced hash agrees with asking by the full hash, since reduction keeps the value modulo 8. |
| `Group15.ReducedKeepsMod8` | external/boost_concurrent.hpp:8480-8502 | Reduction keeps the value modulo 8 and never yields 0 or 1. |
| `Group15.SetByteAt` | external/boost_concurrent.hpp:8504-8535 | Both nibble writes together set one byte and keep the other 15. |
| `Group15.MatchWordsAt` | external/boost_concurrent.hpp:8537-8555 | The word-parallel comparison flags slot i exactly when it is one of the 15 and its byte is the one looked for. |
| `Group15.AvailableWordsAt` | external/boost_concurrent.hpp:8450-8456 | The same for available slots. |
| `Group15.OccupiedWordsAt` | external/boost_concurrent.hpp:8465-8471 | The same for occupied slots. |
| `Group15.OverflowWordsAt` | external/boost_concurrent.hpp:8431-8439 | Bit 15 of 16-bit lane k is bit k of the overflow byte. |
| `Group15.LowBitsAt` | external/boost_concurrent.hpp:8441-8448 | The gathered bits are the byte modulo 8. |
| `GroupRefinement.SetView` | external/boost_concurrent.hpp:8392-8396 | Writing a reduced hash to a byte of the metadata word is `Set` on the table's group, for every word and hash. |
| `GroupRefinement.ResetView` | external/boost_concurrent.hpp:8413-8417 | Writing zero is `Reset`. |
| `GroupRefinement.EmptyView` | external/boost_concurrent.hpp:8390-8401 | The zero word, and the zero word with the sentinel in byte 14, stand for the two empty groups. |
| `GroupRefinement.MarkView` | external/boost_concurrent.hpp:8436-8439 | Setting the overflow bit of a 64-bit hash is `MarkOverflow` of the number it stands for. |
| `GroupRefinement.NotOverflowedView` | external/boost_concurrent.hpp:8431-8434 | The overflow tests of both agree. |
| `GroupRefinement.CausedView` | external/boost_concurrent.hpp:8441-8448 | Asking the overflow byte by the slot's own byte is asking the table's group by the slot's number. |
| `GroupRefinement.MatchView` | external/boost_concurrent.hpp:8426-8429 | A mask that flags the bytes equal to the reduced hash has exactly the slots set that the table's `Match` lists. |
| `GroupRefinement.AvailableView` | external/boost_concurrent.hpp:8450-8456 | The same for available slots. |
| `GroupRefinement.OccupiedView` | external/boost_concurrent.hpp:8465-8471 | The same for occupied slots. |
| `GroupRefinement.ReducedView` | external/boost_concurrent.hpp:8480-8502 | Both layouts reduce a hash to the same value. |
| `GroupRefinement.Replay` | external/boost_concurrent.hpp:8390-8439 | Any history of writes to the two interleaved words leaves what the table's group operations leave. |
| `Mulx.MulxPortable` | external/boost_concurrent.hpp:6502-6528 | The four-product form returns the xor of the halves of the exact 128-bit product, for all inputs. |
| `Mulx.XorFolds` | external/boost_concurrent.hpp:6502-6528 | Folding loses nothing: the fold of two halves, folded again with one of them, is the other. |
| `Mulx.MultiplyPortable` | external/boost_concurrent.hpp:6502-6528 | The two words computed are exactly the low and the high half of the product. |
| `Mulx.ColumnSums` | external/boost_concurrent.hpp:6510-6525 | For the partial products of any two words, the column sums with explicit carries are the halves of the product and no sum of the high column wraps. |
| `Mulx.Columns` | external/boost_concurrent.hpp:6510-6525 | The carry arithmetic, for any four partial products. |
| `RwSpinlock.MasksAreArithmetic` | external/boost_concurrent.hpp:7422-7424 | The mask tests of the 32-bit word are the quotients and remainders the proofs use, and setting a clear pending bit is adding it. |
| `RwSpinlock.StepKeepsInv` | external/boost_concurrent.hpp:7471-7568 | Every load, compare-and-swap (weak ones failing at will), decrement and store keeps the word equal to what the holders imply, up to the pending bit. |
| `RwSpinlock.WriterExcludesAll` | external/boost_concurrent.hpp:7511-7568 | While one caller holds the lock exclusively no other holds it in any mode, and the word is exactly 0x80000000. |
| `RwSpinlock.ReadersAreCounted` | external/boost_concurrent.hpp:7471-7509 | The low 30 bits are the number of readers in every state and never carry into the pending bit; bit 31 is set exactly when there is a writer. |
| `RwSpinlock.PendingMeansLocking` | external/boost_concurrent.hpp:7531-7562 | A set pending bit means that some caller is still inside lock(), and that nobody holds the lock exclusively. |
| `RwSpinlock.PendingKeepsReadersOut` | external/boost_concurrent.hpp:7471-7499 | While the bit stays set nobody becomes a reader, not even with a value loaded earlier. |
| `RwSpinlock.ReleaseUndoesAcquire` | external/boost_concurrent.hpp:7501-7568 | A shared release takes off one reader without wrapping and keeps the pending bit; an exclusive release leaves the word 0 and no holder. |
| `RwSpinlock.FreeLockCanBeTaken` | external/boost_concurrent.hpp:7531-7562 | Whenever nobody holds the lock, a caller inside lock() can have it within three own actions. |
| `RwSpinlock.SharedLockCanBeTaken` | external/boost_concurrent.hpp:7484-7499 | Whenever nobody holds the lock exclusively, no writer is pending and the count has room, a caller inside lock_shared() can have it after two own actions, with one reader more. |
| `RwSpinlock.TrySharedIsExact` | external/boost_concurrent.hpp:7471-7482 | Undisturbed, try_lock_shared() succeeds exactly when nobody holds the lock exclusively, no writer is pending and the count has room, and then must; else nothing changes. |
| `RwSpinlock.TryExclusiveIsExact` | external/boost_concurrent.hpp:7511-7529 | Undisturbed, try_lock() succeeds exactly when nobody holds the lock in any mode, and then must; else nothing changes. |
| `RwSpinlock.WriterCanAnnounce` | external/boost_concurrent.hpp:7531-7562 | While readers hold the lock, a caller inside lock() can set the pending bit, nothing else of the word changing. |
| `RwSpinlock.HolderCanRelease` | external/boost_concurrent.hpp:7501-7568 | Every holder can release: one reader less, or the word 0. |
| `RwSpinlock.EveryoneCanAct` | external/boost_concurrent.hpp:7471-7568 | No caller is ever without a next action, and one inside lock() or lock_shared() does not leave without the lock. |
| `AccessLocks.ExclusiveExcludesAll` | external/boost_concurrent.hpp:11502-11526 | Exclusive access to a table excludes shared and exclusive access to it by every other thread, in every state of every run. |
| `AccessLocks.GroupWriterIsAlone` | external/boost_concurrent.hpp:11529-11542 | Exclusive access to a group excludes any other access to that group. |
| `AccessLocks.NoCyclicWait` | external/boost_concurrent.hpp:10542-10572 | The wait-for relation, pending writers included, has no cycle in any reachable state. |
| `AccessLocks.WaitingRises` | external/boost_concurrent.hpp:10496-10497 | Whoever is waited for wants a lock of higher rank, or none: the mutexes are taken in order, tables by address, group locks last. |
| `AccessLocks.SomeThreadCanMove` | external/boost_concurrent.hpp:10483-10572 | No deadlock: while a thread is inside an operation, some such thread can make its next move. |
| `AccessLocks.BilockOrder` | external/boost_concurrent.hpp:10546-10558 | Two tables are taken lower address first, the same table once. |
| `AccessLocks.HeldRanksBelowWanted` | external/boost_concurrent.hpp:10496-10497 | Whatever a thread waits for ranks above all it holds. |
| `AccessLocks.OneLockAtATime` | external/boost_concurrent.hpp:10483-10532 | A move takes exactly the lock waited for, or gives up one lock held, the last taken, or leaves all locks as they are. |
| `AccessLocks.AnyOperationCanBegin` | external/boost_concurrent.hpp:10483-10572 | A thread inside no operation can begin any: shared or exclusive access to a table, or exclusive access to two. |
| `AccessLocks.SharedAccessIsGranted` | external/boost_concurrent.hpp:11502-11526 | Shared access to a table is granted unless some thread is getting, has or gives up exclusive access to it. |
| `AccessLocks.ExclusiveAccessIsGranted` | external/boost_concurrent.hpp:11502-11526 | Each mutex of exclusive access is granted while no other thread has or seeks access to one of the tables. |
| `AccessLocks.GroupAccessIsGranted` | external/boost_concurrent.hpp:11529-11542 | Access to a group is granted exactly when nobody is in it, or all there and the one who asks share it. |
| `ThreadPool.RunningIsCounted` | external/BS_thread_pool.hpp:1887-1925 | The running counter is the number of workers initialising or executing in every state, so it never underflows. |
| `ThreadPool.TaskIsInOnePlace` | external/BS_thread_pool.hpp:1417-1427 | Each accepted task is in exactly one of queued, running, finished, purged. |
| `ThreadPool.StartsInOrder` | external/BS_thread_pool.hpp:1963-1972 | Tasks start in submission order and none is passed over unless purged. |
| `ThreadPool.OnlyWorkersStart` | external/BS_thread_pool.hpp:2014-2040 | In every run a step starts a task exactly if it is a worker's critical section and the pool is neither paused nor stopping nor without tasks; it then starts the oldest queued task and no other. Otherwise the worker sleeps, or leaves if stopping. |
| `ThreadPool.NothingStartsMeanwhile` | external/BS_thread_pool.hpp:1512-1519 | Between a pause and the next unpause, and once the pool is stopping, no task is started. |
| `ThreadPool.PauseAndStop` | external/BS_thread_pool.hpp:1512-1519 | The pool is paused from a pause to the next unpause and by nothing else, and stopping for good from a stop; unpause and stop owe a broadcast. |
| `ThreadPool.QueueChanges` | external/BS_thread_pool.hpp:1417-1427 | Each detached task is queued last under the next number with a notification owed; purging empties the queue; nothing but these and starting changes it. |
| `ThreadPool.OnlyReturnsFinish` | external/BS_thread_pool.hpp:1995-2013 | A task is finished when its worker returns from it, and then only. |
| `ThreadPool.NotificationsDue` | external/BS_thread_pool.hpp:1773-1780 | In every state of every run the notifications due are exactly those owed by the actions so far, less those sent. |
| `ThreadPool.SpuriousWakesAreHarmless` | external/BS_thread_pool.hpp:2014-2021 | A sleeping worker or waiter may wake at any time, and if it has no reason to go on it is asleep again after its check with nothing changed. |
| `ThreadPool.OldestTaskCanStart` | external/BS_thread_pool.hpp:2014-2040 | Whenever a task may start in a reachable state, a worker can start the oldest after at most one notification. |
| `ThreadPool.WorkersCanLeave` | external/BS_thread_pool.hpp:2022-2026 | Once the pool is stopping, each worker can leave after at most one notification and one action of its own. |
| `ThreadPool.QueuedTaskIsNoticed` | external/BS_thread_pool.hpp:1995-2040 | A non-empty queue of an unpaused, unstopped pool implies an awake worker or a notification still due. |
| `ThreadPool.SleepersAreNotNeeded` | external/BS_thread_pool.hpp:1995-2040 | A worker sleeps only while wake-ups delivered or due are at least as many as the queued tasks, or a broadcast is due; when stopping, only while a broadcast is due. |
| `ThreadPool.WaitReturnsWhenDone` | external/BS_thread_pool.hpp:1787-1807 | When wait returns in an unpaused pool, each task accepted so far ran exactly once or was purged, and no worker is executing. |
| `ThreadPool.WaitReturnsIff` | external/BS_thread_pool.hpp:1787-1807 | A check of `wait` returns exactly when no worker is counted as running and no task is queued unless the pool is paused; else it sleeps. |
| `ThreadPool.WaiterCanGoOn` | external/BS_thread_pool.hpp:1787-1807 | A waiter awake can check, and comes out exactly in that case; `wait` can be called whenever nobody is inside it. |
| `ThreadPool.ReturnWakesWaiter` | external/BS_thread_pool.hpp:1995-2013 | The worker whose return makes it so wakes a sleeping waiter, and no other return does. |
| `ThreadPool.WakeUpMissedIff` | external/BS_thread_pool.hpp:1787-1807 | An action leaves a sleeping waiter with its condition true exactly if it pauses or purges the pool while no worker is counted as running. |
| `ThreadPool.SleepingWaiterHasReason` | external/BS_thread_pool.hpp:1787-1807 | Without pause and purge during the wait, a sleeping waiter has a worker counted as running, or a task queued in an unpaused pool. |
| `ThreadPool.SleepingWaiterIsServed` | external/BS_thread_pool.hpp:1995-2040 | In such a run, unless stopping, some worker is awake or a notification due. |
| `ThreadPool.PurgeLosesWakeUp` | external/BS_thread_pool.hpp:1525-1529 | A concrete run in which purging leaves the waiter asleep for good, with its condition true and nothing due. |
| `ThreadPool.DoKeepsAccount` | external/BS_thread_pool.hpp:1995-2044 | Every action keeps the counter, the accounting of tasks and their order. |
| `ThreadPool.DoKeepsSupply` | external/BS_thread_pool.hpp:1773-1780 | Every action keeps the wake-up invariant. |
| `Blocks.Blocks.constructor` | external/BS_thread_pool.hpp:463-481 | min(requested, length) blocks, none for an empty range. |
| `Blocks.Blocks.BlocksAreConsecutive` | external/BS_thread_pool.hpp:489-513 | The blocks are non-empty and follow each other without gaps from one end of the range to the other. |
| `Blocks.Blocks.SizesDifferByAtMostOne` | external/BS_thread_pool.hpp:489-513 | Block sizes differ by at most one. |
| `Blocks.Blocks.IndexInOneBlock` | external/BS_thread_pool.hpp:489-513 | Each index of the range is in exactly one block. |
| `Blocks.DetachLoop` | external/BS_thread_pool.hpp:1361-1378 | The detached tasks, run in order, call the function on each index of the range in turn; there are min(blocks, length) of them, none empty. |
| `Blocks.RunTask` | external/BS_thread_pool.hpp:1370-1374 | A detached task calls the function on the indices of its block in order. |
| `Blocks.EachIndexOnce` | external/BS_thread_pool.hpp:1361-1378 | In whatever order the tasks are run, each index is called exactly once and no other is. |
| `DiagClient.ServerDiagClient.constructor` | include/ServerDiagClient.h:17-21 | A new client has nothing stored, dirty or published. |
| `DiagClient.ServerDiagClient.Report` | src/ServerDiagClient.cpp:195-224 | Appends to that document's list only and marks it dirty; nothing is published. |
| `DiagClient.ServerDiagClient.Clear` | src/ServerDiagClient.cpp:239-245 | Empties that document's list only and marks it dirty. |
| `DiagClient.ServerDiagClient.ClearAll` | src/ServerDiagClient.cpp:260-266 | Empties all lists; the dirty documents are the earlier ones and those that had diagnostics. |
| `DiagClient.ServerDiagClient.ClearAndPush` | src/ServerDiagClient.cpp:247-259 | Every document is shown empty, stored and dirty sets are empty. |
| `DiagClient.ServerDiagClient.PushDiags` | src/ServerDiagClient.cpp:282-295 | Publishes exactly the dirty documents, each once; afterwards every document is shown as stored. |
| `DiagClient.ServerDiagClient.PushDiagsPriority` | src/ServerDiagClient.cpp:268-280 | The same with the given document first, if it is stored or dirty; none is published twice. |
| `DiagClient.ServerDiagClient.PublishEach` | src/ServerDiagClient.cpp:282-295 | The publishing loop sends each document of a set once, with its list. |
| `DiagClient.BatchShows` | src/ServerDiagClient.cpp:282-295 | A batch replaces what the editor shows exactly for the documents in it. |
| `DiagClient.Replay` | src/ServerDiagClient.cpp:195-295 | After any operations every document not touched since the last push is shown as reported; after a push every document is. |
| `Config.Merge.LayerFile` | src/Config.cpp:61-72 | Fails exactly when a field that holds an array is given a non-array; otherwise arrays are extended and other fields replaced. |
| `Config.LayerMore` | src/Config.cpp:61-72 | Layering one more value fails exactly when it puts a non-array after an array, and else gives the closed form: all array items in order, or the last value. |
| `Config.LayerAll` | src/Config.cpp:76-83 | Layers the files that load, in order; fails exactly when some field was given a non-array after an array. |
| `Config.FromFiles` | src/Config.cpp:21-137 | The whole: when layering fails; every other field in closed form; the flags, merged from the "flags" pairs of the loaded files: those of workspace, or of user if that has none, then a space and those of local, or empty if no file pairs "flags" with a string; the default build pattern exactly if no loaded file has a "buildPattern" pair and neither file nor default has builds. |
| `Config.FlagsByFile` | src/Config.cpp:112-125 | Workspace flags, or else user flags, then local flags, each with its path and as paired with "flags" in that file; none empty. |
| `Config.FlagsOfFile` | src/Config.cpp:105-110 | What a file counts for is the non-empty string its pairs give "flags", and nothing if there is none. |
| `Config.RightSourcesMerge` | src/Config.cpp:112-134 | Joining the listed flags gives, in each of the four cases, the merged flags stated by the files' pairs. |
| `Config.ValuesAreGiven` | src/Config.cpp:61-83 | The values a field is layered from are its default and what loaded files pair it with, no others. |
| `Config.BuildsAreGiven` | src/Config.cpp:97-102 | After layering there are no builds exactly if neither the defaults nor a loaded file has any. |
| `Config.PatternIsGiven` | src/Config.cpp:92-99 | The three tests for a build pattern find one exactly if some loaded file pairs "buildPattern" with a value. |
| `Config.LoadedInOrder` | src/Config.cpp:76-83 | A file layered next is the last of the loaded ones; one that did not load leaves no trace. |
| `Config.JoinFlags` | src/Config.cpp:127-134 | Joins the flags of the files with single spaces. |
| `Config.ArraysConcatenate` | src/Config.cpp:61-72 | A field that holds arrays throughout is the concatenation of default, workspace, user and local items. |
| `Config.LastScalarWins` | src/Config.cpp:61-72 | A field that never holds an array has the value of the last file that has it. |
| `Config.ScalarsNeverMix` | src/Config.cpp:61-72 | Such a field never makes layering fail. |
| `Config.UnknownFieldFails` | src/Config.cpp:61-72 | Two files for which layering fails. |

## Left out

- C++ memory orders, prefetching, spin and yield tuning, statistics counters: they do not change the interleavings modelled.
- Float rounding of the load factor at very large sizes.
- Allocation, exceptions thrown by element construction and the rollback they need, fancy pointers, serialization.
- Copy, move, swap, merge and the parallel-algorithm overloads of the tables: plumbing around the same operations.
- `concurrent_table` operations that hold exclusive access (clear, rehash, reserve): with exclusive access they run alone
  and are the sequential operations of `HashTable`.
- The count that a walk over all elements returns, and walks split over several threads.
- Concurrent operations on a table without storage: lookups match nothing and insertions are told at once that it is full.
- BulkVisit.BulkVisitImpl: on a table that other threads change meanwhile the order of calls and what visitors make of
  the elements are not stated; which keys are visited, and how many, is stated by `ConcurrentBulk`, one model thread a key.
- BulkVisit.UnprotectedBulkVisit: the same.
- `AccessLocks`: visitor functions that lock another table.
- The SSE2 and NEON intrinsics of `group15`: the byte layout they work on is the specification of the two-word layout.
- The thread pool's priorities, `reset`, timed waits, several waiters, native thread handles; the `std::jthread` variant,
  in which stop tokens replace the flag and the broadcast.
- Overflow of `T` and `std::size_t` in `blocks`: bounds are integers.
- In `report`: source mapping, message formatting and conversion; the computed document and diagnostic are the input.
- In `fromFiles`: reading, parsing and validating files, the conversion of the merged object to `Config` (which drops
  unknown fields and supplies defaults), and the error pop-ups.
- `include/Indexer.h`: an index from symbol and macro names to files, behind one mutex, filled by syntax tree visitors.
- `include/ServerDriver.h`, `include/SlangServer.h`: language server requests answered by calls into the compiler library.
- `external/expected.hpp`: the value-or-error type of the C++ standard library, for older compilers.
