# Verified models of Ice's stateful cores

Ice is a remote procedure call framework with mappings for many languages. This project models, in Dafny,
the parts of its repository whose correctness is not visible from reading one function, and proves what
they are for. Each module stands for one component.

- **BundleOrder** (`BundleOrder.dfy`): the JavaScript bundler's dependency lists. `expand` saturates every
  list in place, whatever the order and whatever cycles there are, to exactly the reachable paths; `sort`,
  which swaps `objects[i]` and `objects[j]` whenever the first is required by the second, for all i and all
  j, leaves a topological order. Reachability is defined by walks in the original graph.
- **SourceMap** (`SourceMap.dfy`): the bundler's emission loop. The hand-kept `lineOffset` is related to the
  newlines really written, so that every source-map entry can be checked against the finished text; which
  lines are copied is characterised without the loop's flags.
- **Metrics** (`MetricsMap.dfy`): the IceMX metrics map with attach counts and the lazily compressed queue of
  detached entries, with objects for entries and map. The queue is shown to do what the simple rule "drop
  the entry detached longest ago when more than `retain` are detached" does.
- **Observers** (`Observers.dfy`): observers that are created, replaced, handed over and detached while other
  threads do the same and maps come and go. The steps are the lock sections, so the loops of `getObserver`,
  `init` and `detach` interleave entry by entry.
- **ObserverChains** (`ObserverChains.dfy`): an attach of an entry lasts for a stint of consecutive observers
  of a chain of replacements. Attaches are stints, and each stint is credited once, by its last observer, with
  the time of the whole chain up to then.
- **ObserverObjects** (`ObserverObjects.dfy`): the code of `ObserverT` and `ObserverHelperT` on objects, shown
  to do to them what the steps of `Observers` do to the world.
- **TestExecutor** (`Executor.dfy`): the test driver's executor: two queues under a lock, worker threads and
  the main thread, a FIFO result channel with one sentinel per thread. Safety, absence of deadlock and
  termination hold under every schedule.
- **EncapsulationReader** (`InputStream.dfy`): encapsulations on the C++ input stream, with the linked list of
  `Encaps` nodes. Nesting is proved for whole runs, as opening is checked against the end of the buffer only.
- **CommandLine** (`CommandLine.dfy`): `val` and `splitCommand`. The word lists that survive printing and
  scanning are determined exactly.
- **OutputReader** (`OutputReader.dfy`): the buffer that one thread fills and `expect`/`expectall` consume.
- **Futures** (`Futures.dfy`): the MATLAB futures under every order of callbacks, cancellations and waits.
- **ScopedNames** (`ScopedNames.dfy`): splitting scoped names, replacing "::", and the two ways from a type id
  to a MATLAB class name.
- **Common** (`Common.dfy`): what several modules share.

Objects that the sources update in place are classes, and their methods are proved equal to functions on
values; loops stay loops. The properties are then lemmas about those functions, over all inputs or all
sequences of steps.

Where the code does not do what one would expect, the exact condition is proved:

- An empty first word survives `splitCommand` if another word follows it, an empty word anywhere else does
  not; nor does a value with a space that is not a string, as `val` quotes strings only
  (`CommandLine.RoundTripIff`, for every list of words).
- A word of which every character is written with a backslash is not ended by white space: `splitCommand` joins
  the next word to it (`CommandLine.EscapedWordIsJoined`).
- `lineOffset` is right exactly when no module name contains a newline, and the closing epilogue is counted
  one short (`SourceMap.Bundle`, `SourceMap.ModuleNewlinesZero`, `SourceMap.NewlineInName`).
- A oneway invocation that is sent becomes finished without notifying and without releasing its token
  (`Futures.LostWakeupIff`, `Futures.ReleasedStepIff`, `Futures.OnewaySentWithoutNotice`); a simple future
  that is done without an exception keeps its token too (`Futures.DoneKeepsToken`). Over whole runs,
  `Futures.HoldsTokenIff` and `Futures.MissedIff` say exactly when that is so.
- A carriage return read in binary mode is kept, as `c == '\r'` is tested before decoding
  (`OutputReader.Decoded`).
- Class `GetConnectionFuture` would move backward if a null connection were delivered after a real one
  (`Futures.NeverBackwardIff`). This concerns the class only: its one caller delivers once
  (matlab/src/ObjectPrx.cpp:1051-1060).
- A helper's live observer can be overwritten without being replaced or detached: by attaching null, by
  attaching what `getObserver` made without being given the old observer, or by `adopt`, also from itself.
  Exactly then the duty to detach it is lost, for good: over whole runs every live observer has an owner
  (`Observers.OwnedIff`), and nothing stays attached once all helpers are empty (`Observers.AllReleasedIff`),
  exactly when that never happened. It does happen when all maps are disabled: the getters then return null
  and leave the old observer alone (cpp/src/Ice/InstrumentationI.cpp:982), and their callers attach the null
  (cpp/src/Ice/ConnectionI.cpp:614-618; the run is in `Observers.DisablingLoses`).
- The lifetime credited when an observer lets go of an entry is the time of its whole chain, including that
  before the entry was attached (`ObserverChains.StintCredited`).
- `startEncapsulation` accepts an encapsulation that overruns the enclosing one, which can then never be
  closed (`EncapsulationReader.OpeningIgnoresTheEnclosing`, `EncapsulationReader.OverrunIsNeverClosed`).
- The two class-name paths agree exactly when no component is a keyword (`ScopedNames.ClassNamesAgreeIff`).

Assumptions taken from the sources' own use: files given to the bundler have distinct paths; `_retain` is not
negative; a factory's maps are distinct; a helper is not used by two threads at once, `getObserver` is given
the helper's own observer or none, and an observer's watch starts when it is attached; `workers >= 1`; the main thread meets no exception outside a suite.

## Model

| member | source | states |
|---|---|---|
| BundleOrder.Depends.Get | js/gulp/bundle.js:68-79 | The dependencies of the first file with the path, or none |
| BundleOrder.Depends.AddMissing | js/gulp/bundle.js:95-101 | Appends exactly the paths that are missing, each once, leaving the list as a prefix |
| BundleOrder.Depends.Collect | js/gulp/bundle.js:91-102 | One round adds exactly the dependencies of the members of the list |
| BundleOrder.Depends.OneRound | js/gulp/bundle.js:91-104 | If a round does not lengthen the list it holds exactly the reachable paths; otherwise it misses fewer |
| BundleOrder.Depends.ExpandOne | js/gulp/bundle.js:89-111 | Terminates on every graph and makes one list exactly the paths reachable in the original graph, even when other lists were expanded before |
| BundleOrder.Depends.ExpandAgain | js/gulp/bundle.js:104-110 | The recursion after a list has grown ends with the same result |
| BundleOrder.Depends.Expand | js/gulp/bundle.js:81-113 | Every list becomes exactly the reachable paths, old entries first, additions distinct |
| BundleOrder.RoundOutcome | js/gulp/bundle.js:91-111 | Closed lists are complete, grown lists are strictly closer to complete: why `expand` stops and why it is right |
| BundleOrder.ClosedContainsReachable | js/gulp/bundle.js:81-113 | A list closed under dependencies contains everything reachable by a walk |
| BundleOrder.GrowsNoDuplicates | js/gulp/bundle.js:97-100 | A duplicate-free list stays duplicate-free |
| BundleOrder.ExpandedIsTransitive | js/gulp/bundle.js:115-143 | After expansion "requires" is transitive between files with distinct paths |
| BundleOrder.Depends.Comparator | js/gulp/bundle.js:115-143 | Negative exactly when b requires a, positive exactly when only a requires b |
| BundleOrder.SwapKeepsOrder | js/gulp/bundle.js:150-160 | What one swap keeps, before and after position i, using transitivity only |
| BundleOrder.Depends.CompareAndSwap | js/gulp/bundle.js:152-159 | One iteration of the inner loop keeps the prefix ordered and permutes |
| BundleOrder.Depends.Pass | js/gulp/bundle.js:150-160 | One pass of the outer loop orders one more file |
| BundleOrder.Depends.Sort | js/gulp/bundle.js:145-163 | A permutation in which no file comes after one that strictly requires it |
| BundleOrder.OrderedIsDependencyOrder | js/gulp/bundle.js:291 | Read in the original graph: strictly lower files come first, and without cycles every dependency does |
| BundleOrder.Depends.Order | js/gulp/bundle.js:291 | `expand().sort()` permutes the files into dependency order of the original graph |
| SourceMap.LinesRoundTrip | js/gulp/bundle.js:348 | Splitting into lines loses nothing and leaves no newline in a line |
| SourceMap.ScanMeaning | js/gulp/bundle.js:350-420 | `skipAuto` means a skip marker is open; `skip` means a registry statement has not reached its semicolon |
| SourceMap.CopiedIff | js/gulp/bundle.js:359-435 | Exactly which lines are copied: none in a skip region, no marker, require, registry statement or export |
| SourceMap.LeftOutIsNotCopied | js/gulp/bundle.js:362-435 | No marker, require, registry statement or export is copied |
| SourceMap.PlainLinesAreCopied | js/gulp/bundle.js:350-437 | Where there is nothing to leave out all lines are copied |
| SourceMap.Classify | js/gulp/bundle.js:362-435 | The chain of tests on one line |
| SourceMap.WriteLine | js/gulp/bundle.js:437-453 | The new entry names the line that holds the indented copy, and earlier entries stay right |
| SourceMap.EmitLine | js/gulp/bundle.js:437-453 | Writing a line with its entry keeps counter, text and map in step |
| SourceMap.CopyLines | js/gulp/bundle.js:350-454 | After the line loop the map has one right entry for each copied line of the file, in order |
| SourceMap.WriteHeader | js/gulp/bundle.js:297-339 | After the header the counter lags by four times the newlines in module names |
| SourceMap.WriteModule | js/gulp/bundle.js:326-337 | The lines of one module |
| SourceMap.WriteFile | js/gulp/bundle.js:341-457 | A wrapped file keeps counter, text and map in step |
| SourceMap.WriteFooter | js/gulp/bundle.js:458-474 | The exports and the epilogue, which is counted one short |
| SourceMap.ModuleNewlinesZero | js/gulp/bundle.js:326-337 | The counter does not lag exactly when no module name contains a newline |
| SourceMap.NewlineInName | js/gulp/bundle.js:326-337 | A module name with which the counter lags by four, and by seven at the end |
| SourceMap.IceAndDemo | js/gulp/bundle.js:326-337 | The root objects written for modules Ice and Demo |
| SourceMap.FilesTextAppend | js/gulp/bundle.js:341-457 | Each file adds its own text, whatever the others are |
| SourceMap.Bundle | js/gulp/bundle.js:297-474 | The whole text of the bundle; the map has exactly one entry per copied line, generated lines increase, and each names the indented copy of its source line |
| Metrics.GetMatchingKeeps | cpp/include/Ice/MetricsAdminI.h:404-489 | Keeps the invariant, satisfies the assertion at 468, and returns an attached entry stored under the key |
| Metrics.GetMatchingCounters | cpp/include/Ice/MetricsAdminI.h:460-489 | Attaches exactly the entry returned unless it is the previous one |
| Metrics.GetMatchingFinds | cpp/include/Ice/MetricsAdminI.h:404-489 | Something is returned exactly when the helper is accepted, has a key and the map is not destroyed: the entry stored under the key, which gains an observer unless the previous one has it, or a new entry, which is stored |
| Metrics.SameKeySharesEntry | cpp/include/Ice/MetricsAdminI.h:472-488 | Two observers with one key share an entry that counts both |
| Metrics.UnretainedDropsNothing | cpp/include/Ice/MetricsAdminI.h:498-505 | Without retention, or destroyed, a map drops and queues nothing |
| Metrics.DestroyedForGood | cpp/include/Ice/MetricsAdminI.h:341-348 | A destroyed map holds nothing and gives out nothing, but what was attached can still be detached |
| Metrics.DetachKeeps | cpp/include/Ice/MetricsAdminI.h:221-234 | Keeps the invariant: attached entries are in the map, detached ones queued, the queue bounded (507), positions right, order by last detach |
| Metrics.DetachCounters | cpp/include/Ice/MetricsAdminI.h:221-234 | Only the entry's own count and lifetime change |
| Metrics.DestroyKeeps | cpp/include/Ice/MetricsAdminI.h:341-348 | `destroy` keeps the invariant |
| Metrics.CompressKeeps | cpp/include/Ice/MetricsAdminI.h:520-537 | Compressing keeps everything, and a queue that is still full holds detached entries only |
| Metrics.EvictKeeps | cpp/include/Ice/MetricsAdminI.h:539-544 | Eviction makes room and keeps everything; an attached entry is never evicted |
| Metrics.AppendKeeps | cpp/include/Ice/MetricsAdminI.h:546-549 | Appending the entry completes the detach |
| Metrics.MoveKeeps | cpp/include/Ice/MetricsAdminI.h:509-518 | Moving a node that is still queued to the back keeps the invariant |
| Metrics.DetachedAreQueued | cpp/include/Ice/MetricsAdminI.h:498-550 | Every detached entry is queued, so there are at most `retain` |
| Metrics.LazyQueueDropsOldest | cpp/include/Ice/MetricsAdminI.h:498-550 | Evicts exactly when more than `retain` entries are detached, and then the one detached longest ago and no other |
| Metrics.MetricsMap.GetMatchingEntry | cpp/include/Ice/MetricsAdminI.h:460-489 | The object's lookup, with its assertion, does what the function on values does |
| Metrics.MetricsMap.DetachEntry | cpp/include/Ice/MetricsAdminI.h:221-234 | The object's detach does what the function on values does |
| Metrics.MetricsMap.DetachedEntry | cpp/include/Ice/MetricsAdminI.h:498-550 | The queue handling on objects does what the function on values does |
| Metrics.MetricsMap.CompressQueue | cpp/include/Ice/MetricsAdminI.h:520-537 | The erase loop leaves the detached entries in order and resets the positions of the others |
| Metrics.MetricsMap.MoveToBack | cpp/include/Ice/MetricsAdminI.h:509-518 | The splice, skipped when the node is already last |
| Metrics.MetricsMap.DestroyMap | cpp/include/Ice/MetricsAdminI.h:341-348 | The object's destroy |
| Observers.StepsAreDefined | cpp/include/Ice/MetricsObserverI.h:575-583 | Whenever a step is possible, the previous entry is attached and whatever is detached is attached |
| Observers.MatchCounts | cpp/include/Ice/MetricsObserverI.h:575-583 | One turn of `getObserver` adds one duty for a newly attached entry and none for a carried one |
| Observers.MatchStep | cpp/include/Ice/MetricsObserverI.h:575-583 | One turn of `getObserver` keeps the invariant |
| Observers.CommitCounts | cpp/include/Ice/MetricsObserverI.h:590-592 | A replacement counts shared entries once: duties before and after are the same for every entry |
| Observers.CommitNothing | cpp/include/Ice/MetricsObserverI.h:584-588 | When nothing matches, the old observer starts to detach |
| Observers.CommitObserver | cpp/include/Ice/MetricsObserverI.h:590-592 | The new observer takes over and the old one starts to drop |
| Observers.DropStep | cpp/include/Ice/MetricsObserverI.h:446-452 | One turn of the loop of `init` detaches only what the new observer does not have |
| Observers.LeaveStep | cpp/include/Ice/MetricsObserverI.h:403-411 | One turn of the loop of `detach` detaches one entry |
| Observers.DetachHelperStep | cpp/include/Ice/ObserverHelper.h:82-89 | Detaching a helper, or destroying it, keeps the invariant |
| Observers.StepKeeps | cpp/include/Ice/MetricsObserverI.h:556-593 | Every possible step keeps the invariant |
| Observers.InvAlways | cpp/include/Ice/MetricsObserverI.h:556-593 | In every reachable world each map is well-formed and each attach count is the number of detaches still to come |
| Observers.CurrentIsLiveHolders | cpp/include/Ice/MetricsObserverI.h:403-411 | When nothing is in progress, `current` is the number of live observers holding the entry |
| Observers.DutyLostIff | cpp/include/Ice/ObserverHelper.h:47-89 | One step: every live observer keeps an owner exactly when no helper's observer is overwritten, by attaching null, by attaching a new observer that did not replace it, or by adopting |
| Observers.OwnedIff | cpp/include/Ice/ObserverHelper.h:47-89 | Whole runs: every live observer has an owner exactly when no helper's observer was ever overwritten |
| Observers.LostForGood | cpp/include/Ice/ObserverHelper.h:76-80 | Whatever steps follow, an observer without owner is not detached and its entries stay attached |
| Observers.AdoptingFromItself | cpp/include/Ice/ObserverHelper.h:76-80 | A run in which a helper adopts from itself, after which its observer is lost for good |
| Observers.OverwrittenForGood | cpp/include/Ice/ObserverHelper.h:47-80 | The observer that is overwritten is the one that is lost, whatever follows |
| Observers.DisablingLoses | cpp/src/Ice/InstrumentationI.cpp:976-999 | A run in which all maps are disabled and null is attached over a live observer: no helper has an observer, yet its entry stays attached whatever follows |
| Observers.AllReleasedIff | cpp/include/Ice/ObserverHelper.h:29-35 | When all helpers have let go and the loops are done, nothing is attached exactly when no helper's observer was ever overwritten |
| Observers.DelayStep | cpp/include/Ice/MetricsObserverI.h:441 | `_previousDelay` is the stopwatch time of the whole chain of replaced observers |
| Observers.LifetimesAlways | cpp/include/Ice/MetricsObserverI.h:403-453 | Each attach is current or was credited exactly once, lifetimes are the sums of the credits, and each credit is the delay of the whole chain up to then |
| ObserverChains.PaidStep | cpp/include/Ice/MetricsObserverI.h:403-453 | Every step keeps: an observer has given one credit for each entry its loop has detached, and no other |
| ObserverChains.ChainStep | cpp/include/Ice/MetricsObserverI.h:431-453 | Every step keeps: an observer is replaced at most once, and passes over exactly what its successor has |
| ObserverChains.AttachStep | cpp/include/Ice/MetricsObserverI.h:575-592 | Every step keeps: the attaches of an entry are the starts of its stints |
| ObserverChains.ChainsAlways | cpp/include/Ice/MetricsObserverI.h:403-593 | All of these hold in every reachable world |
| ObserverChains.AttachesAreStarts | cpp/include/Ice/MetricsObserverI.h:575-592 | `total` is the number of stints that started |
| ObserverChains.StintOf | cpp/include/Ice/MetricsObserverI.h:431-453 | Each start of an entry belongs to exactly one stint |
| ObserverChains.StintCredited | cpp/include/Ice/MetricsObserverI.h:403-453 | In a stint only the last observer credits the entry: not at all while it lives, once when it is done, with the time of the whole chain up to then |
| ObserverChains.CreditEndsStint | cpp/include/Ice/MetricsObserverI.h:403-453 | Every credit was given for the last observer of a stint, once |
| ObserverChains.LooksUpAllMaps | cpp/include/Ice/MetricsObserverI.h:575-583 | `getObserver` looks up the maps of the last `update`, all of them in order, and then ends |
| ObserverChains.TurnFinds | cpp/include/Ice/MetricsObserverI.h:578-582 | A turn adds the entry that the map has for the key, or nothing when the map does not accept or is destroyed |
| ObserverChains.RetainsAsMade | cpp/include/Ice/MetricsAdminI.h:341-348 | Each map keeps the retention it was made with |
| ObserverChains.DestroyedIff | cpp/include/Ice/MetricsAdminI.h:341-348 | A map is destroyed exactly when that has happened to it |
| ObserverChains.TimeAlways | cpp/include/Ice/MetricsObserverI.h:441 | `_previousDelay` is the time from the start of the chain's first watch to the start of this one |
| ObserverChains.LeavesWithElapsed | cpp/include/Ice/MetricsObserverI.h:403-411 | A detached observer credits the time since the first observer of its chain was attached |
| ObserverChains.CommitsWithElapsed | cpp/include/Ice/MetricsObserverI.h:431-453 | So does an observer that is replaced |
| ObserverObjects.ObserverObject.Attach | cpp/include/Ice/MetricsObserverI.h:393-400 | The watch is started unless it runs |
| ObserverObjects.ObserverObject.Detach | cpp/include/Ice/MetricsObserverI.h:402-410 | Every entry is detached with the time of the chain, in order |
| ObserverObjects.ObserverObject.Init | cpp/include/Ice/MetricsObserverI.h:430-453 | The new observer goes on from the time of the old one, and exactly what it does not have is detached |
| ObserverObjects.ObserverObject.FindEntry | cpp/include/Ice/MetricsObserverI.h:455-466 | The first entry of the map, or none |
| ObserverObjects.ObserverHelper.Attach | cpp/include/Ice/ObserverHelper.h:47-63 | The old observer is replaced and not detached, and the new one's watch runs |
| ObserverObjects.ObserverHelper.AdoptFrom | cpp/include/Ice/ObserverHelper.h:76-80 | The observer moves; the other helper, even the same one, ends empty |
| ObserverObjects.ObserverHelper.Detach | cpp/include/Ice/ObserverHelper.h:82-89 | The observer is detached and given up |
| ObserverObjects.AttachNullStep | cpp/include/Ice/ObserverHelper.h:47-63 | Attaching null to an object is the step `AttachNull` of the world |
| ObserverObjects.AdoptStep | cpp/include/Ice/ObserverHelper.h:76-80 | Adopting objects is the step `Adopt` of the world |
| ObserverObjects.DetachStep | cpp/include/Ice/ObserverHelper.h:82-89 | Detaching a helper is the step `DetachHelper`, and its calls are those of the observer's loop |
| ObserverObjects.ReplaceStep | cpp/include/Ice/MetricsObserverI.h:584-593 | The end of either `getObserver` and `attach` are the step `Commit`, and their calls are those of the loop of the observer to replace, if one was given |
| ObserverObjects.LoopGives | cpp/include/Ice/MetricsObserverI.h:403-453 | The turns of a loop, taken as steps, give one credit for each of those calls |
| TestExecutor.Executor.Submit | scripts/LocalDriver.py:27-46 | A suite goes to the main thread exactly when it, the lack of workers or a cross mapping demands it, and the count follows |
| TestExecutor.Executor.Get | scripts/LocalDriver.py:48-56 | The suite and index handed out, nothing after a failure |
| TestExecutor.Executor.SkipToStart | scripts/LocalDriver.py:94-99 | Drops exactly the suites before `start`, only without workers |
| TestExecutor.SubmittedInOrder | scripts/LocalDriver.py:27-46 | Each queue holds the suites meant for it, in the order of submission |
| TestExecutor.InvAlways | scripts/LocalDriver.py:66-177 | All invariants hold after any events in any interleaving |
| TestExecutor.IndexStep | scripts/LocalDriver.py:48-56 | The count is right and indices increase by one per suite handed out |
| TestExecutor.ConservationStep | scripts/LocalDriver.py:66-87 | Every suite stays in exactly one place, with its multiplicity |
| TestExecutor.LogStep | scripts/LocalDriver.py:66-71 | A thread puts one sentinel, after all of its results |
| TestExecutor.CountStep | scripts/LocalDriver.py:133-146 | `count` is the number of sentinels owed or in the channel |
| TestExecutor.FailureStopsForGood | scripts/LocalDriver.py:48-52 | After a failure is recorded no suite is handed out |
| TestExecutor.FailureIff | scripts/LocalDriver.py:86-87 | `failure` is set exactly when a suite that failed was judged and the run does not go on after failures |
| TestExecutor.CrashEndsWorker | scripts/LocalDriver.py:108-113 | A worker that stops on an exception runs nothing more |
| TestExecutor.FirstComeFirstServed | scripts/LocalDriver.py:48-56 | Each queue is served in order: what was handed out followed by what waits is the queue after skipping |
| TestExecutor.FirstIsStart | scripts/LocalDriver.py:94-99 | Without workers the first suite run is the one at place `start`, with that index; with workers it has index 1 |
| TestExecutor.IndicesInRange | scripts/LocalDriver.py:55-56 | Indices are distinct, consecutive and between 1 and the total, also with `start` |
| TestExecutor.WaitIsNotInVain | scripts/LocalDriver.py:134-141 | While sentinels are awaited, a message is there or a thread owes one |
| TestExecutor.NothingDue | scripts/LocalDriver.py:134-175 | When all sentinels are taken, all threads are done and the channel is empty |
| TestExecutor.NoDeadlock | scripts/LocalDriver.py:89-177 | Until the call returns some step is possible |
| TestExecutor.RunsEnd | scripts/LocalDriver.py:89-177 | Every run has a bounded number of steps |
| TestExecutor.TailFindsNothing | scripts/LocalDriver.py:166-175 | The last loop never finds a message |
| TestExecutor.AtTheEnd | scripts/LocalDriver.py:89-177 | At the end every suite was skipped, reported, lost with its worker, or left waiting |
| TestExecutor.CompleteResults | scripts/LocalDriver.py:89-177 | If no suite fails, or the run goes on after failures, and no worker stops, the result list is a permutation of the unskipped suites and both queues are empty |
| EncapsulationReader.InputStream.Push | cpp/include/Ice/InputStream.h:375-385 | The list stays acyclic with the preallocated node at the bottom only |
| EncapsulationReader.InputStream.StartEncapsulation | cpp/include/Ice/InputStream.h:373-410 | The object does what the function on values does, errors included |
| EncapsulationReader.InputStream.EndEncapsulation | cpp/include/Ice/InputStream.h:415-453 | The same, with the tolerated trailing byte |
| EncapsulationReader.InputStream.Pop | cpp/include/Ice/InputStream.h:443-452 | The preallocated node is reset, any other was created once and is deleted once |
| EncapsulationReader.InputStream.SkipEmptyEncapsulation | cpp/include/Ice/InputStream.h:460-490 | The object does what the function on values does |
| EncapsulationReader.InputStream.ReadEncapsulation | cpp/include/Ice/InputStream.h:499-516 | The blob's start and size, ending at the cursor |
| EncapsulationReader.InputStream.ReadIntValue | cpp/include/Ice/InputStream.h:867-888 | Four bytes or an error, without moving |
| EncapsulationReader.InputStream.ReadByteValue | cpp/include/Ice/InputStream.h:764-771 | One byte or an error |
| EncapsulationReader.InputStream.SkipBytes | cpp/include/Ice/InputStream.h:1149-1156 | A move within the buffer or an error |
| EncapsulationReader.InputStream.ReadBlob | cpp/include/Ice/InputStream.h:626-641 | The same as a skip, returning the start |
| EncapsulationReader.SkipEmpty | cpp/include/Ice/InputStream.h:460-490 | Success finishes at the end the header announces; encoding 1.0 must be empty |
| EncapsulationReader.ReadEncaps | cpp/include/Ice/InputStream.h:499-516 | Succeeds exactly on encapsulations that fit, and finishes at their end |
| EncapsulationReader.StartIff | cpp/include/Ice/InputStream.h:373-410 | Opening succeeds exactly on a header that fits the buffer and has a supported encoding; otherwise the error |
| EncapsulationReader.EndIff | cpp/include/Ice/InputStream.h:415-453 | Closing succeeds exactly at the end, or one byte before it in encoding 1.0, or when the optionals end there; otherwise the error |
| EncapsulationReader.SkipEmptyIff | cpp/include/Ice/InputStream.h:460-490 | When skipping succeeds, and the error otherwise |
| EncapsulationReader.ReadsIff | cpp/include/Ice/InputStream.h:1149-1156 | Reads and skips succeed exactly within the buffer |
| EncapsulationReader.IntRoundTrip | cpp/include/Ice/InputStream.h:867-888 | A little-endian integer is read back |
| EncapsulationReader.WrittenIsRead | cpp/include/Ice/InputStream.h:373-453 | Whatever was written as nested encapsulations is read: all operations succeed and end after it with the stack as it was |
| EncapsulationReader.StepMoves | cpp/include/Ice/InputStream.h:373-516 | Every successful operation moves forward within the buffer and touches only the top of the stack |
| EncapsulationReader.CursorMoves | cpp/include/Ice/InputStream.h:373-516 | So do whole runs |
| EncapsulationReader.CloseEndsAtSize | cpp/include/Ice/InputStream.h:415-453 | A closed encapsulation ends at start + size in both encodings, and the stack is as before |
| EncapsulationReader.ClosedAreNested | cpp/include/Ice/InputStream.h:373-453 | What is opened and closed inside another closed encapsulation lies wholly in its body |
| EncapsulationReader.ClosedAreDisjoint | cpp/include/Ice/InputStream.h:373-453 | Encapsulations closed one after the other do not overlap |
| EncapsulationReader.CloseHasOpen | cpp/include/Ice/InputStream.h:415-453 | Every close has the opening that it matches |
| EncapsulationReader.OverrunIsNeverClosed | cpp/include/Ice/InputStream.h:419-433 | An overrun encapsulation stays open in every successful continuation |
| EncapsulationReader.OpeningIgnoresTheEnclosing | cpp/include/Ice/InputStream.h:400-403 | A buffer in which an inner encapsulation overruns the open outer one and is still accepted |
| CommandLine.TwoReplacesAreOnePass | scripts/Util.py:59 | The two successive replaces escape as one pass does |
| CommandLine.SplitCommand | scripts/Expect.py:323-371 | The loop with its state codes computes the scan |
| CommandLine.BackslashAdds | scripts/Expect.py:329-356 | In every state a character after a backslash is added as it is |
| CommandLine.SingleQuotesKeepText | scripts/Expect.py:357-361 | Text between single quotes is added as it is |
| CommandLine.QuoteAdds | scripts/Expect.py:357-366 | What stands between quotes of either kind is added as it was meant |
| CommandLine.WordAdds | scripts/Expect.py:335-366 | Plain, quoted and backslashed parts are put together to a word |
| CommandLine.EscapedWordIsJoined | scripts/Expect.py:329-356 | A word of backslashed characters only is not ended by white space: the next word is joined to it |
| CommandLine.CommandMeans | scripts/Expect.py:323-371 | A command line of such words is split into what they mean |
| CommandLine.ValText | scripts/Util.py:53-62 | What is printed for booleans, and for strings with and without quoting |
| CommandLine.FeedGood | scripts/Util.py:53-60 | Outside quotes a good word is appended as it was meant |
| CommandLine.WordStaysBehind | scripts/Expect.py:335-369 | A scanner that has produced less than it has read stays behind over any word, although quotes can be produced that belong to none |
| CommandLine.BadFirst | scripts/Expect.py:335-369 | A command whose first word is bad is not read back, whatever follows |
| CommandLine.RoundTripFrom | scripts/Expect.py:335-369 | After a separator a command is read back exactly when all its words are good |
| CommandLine.RoundTripIff | scripts/Util.py:2093-2101 | For all lists of arguments and `--key=value` words, with any keys and values: they are read back exactly when the list is faithful |
| OutputReader.Reader.Append | scripts/Expect.py:149-162 | Carriage returns read as text are dropped, anything else, also one read as bytes, is decoded and appended |
| OutputReader.Reader.EndOfOutput | scripts/Expect.py:142-148 | Only the end is recorded |
| OutputReader.Reader.BeginMatch | scripts/Expect.py:209-239 | A call begins with all of its patterns and nothing found |
| OutputReader.Reader.FindFirst | scripts/Expect.py:241-256 | The first entry that matches, markers passed over |
| OutputReader.Reader.OnePass | scripts/Expect.py:239-298 | A pass is a possible step of the state machine and does to the fields what that step does: the first entry that matches is found, and exactly the right text is consumed |
| OutputReader.StripMeaning | scripts/Expect.py:149-157 | Each carriage return read as text is left out wherever it stands, and nothing else |
| OutputReader.PassFinds | scripts/Expect.py:241-256 | A pass finds an entry exactly when the search for one does; none in an empty buffer |
| OutputReader.CallStep | scripts/Expect.py:285-320 | Which steps end a call |
| OutputReader.FinishIff | scripts/Expect.py:142-148 | The output is at its end exactly when that was read |
| OutputReader.CallIsAsBegun | scripts/Expect.py:209-239 | A call has the patterns and the mode it was begun with |
| OutputReader.InvAlways | scripts/Expect.py:138-320 | Under every interleaving, consumed text followed by the buffer is all that was read |
| OutputReader.ExpectConsumes | scripts/Expect.py:287-292 | A successful `expect` consumes up to the end of the first entry's match |
| OutputReader.ExpectAllConsumes | scripts/Expect.py:260-285 | A successful `expectall` found every pattern once and consumes exactly up to the farthest end |
| OutputReader.TimeoutConsumesNothing | scripts/Expect.py:298-318 | A call without success leaves the consumed text alone; the buffer has only grown |
| Futures.FutureObject.StateImpl | matlab/src/Future.cpp:131-142 | The state of each kind of future; a simple future with an exception is finished |
| Futures.FutureObject.SetToken | matlab/src/Future.cpp:12-20 | A finished future takes no token |
| Futures.FutureObject.NotifySent | matlab/src/ObjectPrx.cpp:48-56 | A running twoway invocation becomes sent, a oneway one finished |
| Futures.FutureObject.Finish | matlab/src/ObjectPrx.cpp:68-82 | Result stored, token dropped, waiters notified |
| Futures.FutureObject.Connected | matlab/src/ObjectPrx.cpp:123-130 | Connection stored, token dropped, waiters notified |
| Futures.FutureObject.Done | matlab/src/Future.cpp:123-129 | Finished, waiters notified |
| Futures.FutureObject.SetException | matlab/src/ObjectPrx.cpp:58-66 | Exception stored, token dropped, waiters notified |
| Futures.FutureObject.Cancel | matlab/src/Future.cpp:104-113 | The stored token is called and dropped |
| Futures.FutureObject.EnterWait | matlab/src/Future.cpp:22-38 | The first check of the wait, and what it returns |
| Futures.FutureObject.Wake | matlab/src/Future.cpp:22-38 | The check after a wake-up |
| Futures.NeverBackwardIff | matlab/src/ObjectPrx.cpp:139-150 | A step moves backward exactly when a null connection replaces a real one |
| Futures.NeverBackward | matlab/src/ObjectPrx.cpp:41-150 | Without null connections no sequence of steps moves a future backward |
| Futures.TokensRunAtMostOnce | matlab/src/Future.cpp:104-113 | A token is called at most as often as it was given |
| Futures.CancelCalls | matlab/src/Future.cpp:104-113 | Cancel calls the stored token once and drops it |
| Futures.TokensAccountedFor | matlab/src/Future.cpp:12-20 | Each time a token is accepted it is called once, or still stored, or was dropped by a later result, connection, exception or token |
| Futures.StateIff | matlab/src/ObjectPrx.cpp:41-150 | The state of each kind of future, from the events alone |
| Futures.ResultsAreKept | matlab/src/ObjectPrx.cpp:68-99 | Outcome, data and exception are those that came last |
| Futures.ReleasedStepIff | matlab/src/ObjectPrx.cpp:48-82 | The steps after which a finished future still holds a token |
| Futures.HoldsTokenIff | matlab/src/Future.cpp:12-20 | Whole runs: a finished future holds a token exactly when it was stored at the finishing step of a oneway or simple future and no cancel, exception or result has come since |
| Futures.FinishedHoldsNoToken | matlab/src/ObjectPrx.cpp:48-130 | A finished twoway invocation or connection request holds no token |
| Futures.FailedIsFinal | matlab/src/Future.cpp:63-70 | Once an exception has arrived, in any order of events, a future of any kind is finished, holds no token, takes none, and lets no thread wait for Finished |
| Futures.ExceptionBeforeToken | matlab/src/Future.cpp:131-142 | A run in which the exception of a simple future comes before its token |
| Futures.DoneKeepsToken | matlab/src/Future.cpp:123-129 | A run in which a simple future is done and keeps its token |
| Futures.ConnectionStays | matlab/src/ObjectPrx.cpp:1293-1316 | After a successful wait the connection read later is the last one delivered, so non-null unless a null one was |
| Futures.ExceptionStays | matlab/src/ObjectPrx.cpp:1297-1302 | After a failed wait the exception is still there |
| Futures.LostWakeupIff | matlab/src/ObjectPrx.cpp:48-56 | A wake-up for Finished is lost exactly when a oneway invocation is sent while a thread sleeps |
| Futures.MissedIff | matlab/src/Future.cpp:22-38 | Whole runs: a thread sleeps although its future is finished exactly when a oneway invocation was sent while it slept and nothing has woken it since |
| Futures.WaiterStep | matlab/src/Future.cpp:22-38 | What each step does to a waiting thread |
| Futures.AsleepIff | matlab/src/Future.cpp:22-38 | Whole runs: a thread sleeps exactly when it has tested in vain and was not woken since |
| Futures.NoWakeupIsLost | matlab/src/Future.cpp:22-38 | For all other futures none is lost |
| Futures.OnewaySentWithoutNotice | matlab/src/ObjectPrx.cpp:48-56 | A run in which the waiter sleeps on a finished oneway invocation that still holds its token |
| ScopedNames.Search | matlab/src/Util.cpp:63 | The first occurrence at or after a position |
| ScopedNames.Replace | matlab/src/Util.cpp:59-71 | The in-place loop replaces every occurrence found from the left |
| ScopedNames.SplitScopedName | matlab/src/Util.cpp:699-729 | The components after the first "::" |
| ScopedNames.JoinSplit | matlab/src/Util.cpp:699-729 | Joining the components gives every name back |
| ScopedNames.RoundTripIff | matlab/src/Util.cpp:699-729 | Splitting undoes printing exactly for the readable lists |
| ScopedNames.IdentifiersAreReadable | matlab/src/Util.cpp:699-729 | Lists of colon-free identifiers are readable |
| ScopedNames.PrintedTypeId | matlab/src/Util.cpp:699-729 | A printed type id is split into its identifiers |
| ScopedNames.KeywordListSorted | matlab/src/Util.cpp:681-689 | The keyword list is in alphabetical order |
| ScopedNames.KeywordsAreEscaped | matlab/src/Util.cpp:677-694 | The binary search finds exactly the keywords |
| ScopedNames.IdToClass | matlab/src/Util.cpp:733-748 | The escaped components joined with dots |
| ScopedNames.ReplaceIsJoin | matlab/src/Util.cpp:400-401 | Replacing "::" is splitting and joining, for every string |
| ScopedNames.ClassNamesAgreeIff | matlab/src/Util.cpp:397-401 | `idToClass` gives the class name of `convertException` exactly when no component is a keyword |
| ScopedNames.EscapedComponents | matlab/src/Util.cpp:738-747 | Each component of a class name is that of the type id, with "slice_" in front if it is a keyword |
| ScopedNames.ClassNamesDiffer | matlab/src/Util.cpp:733-748 | Different type ids have different class names |

## Left out

- Loading, parsing and trimming of JavaScript files: the dependency lists, the regular expressions and `trim` are inputs of the model.
- Regular-expression search in the output reader is a parameter that gives match bounds; time limits are an event that may happen at any moment.
- Filters, key computation, sub-maps and `failed` of the metrics map: accept or reject and the key are inputs of every lookup.
- Observers.StepKeeps: the turns of the loops of `getObserver`, `init` and `detach` are steps on values, because other threads act between them; `ObserverObjects` has the loops of `init` and `detach` on objects, returning their calls of `EntryT::detach`, and `Metrics` has the entries of a map as objects.
- An observer that is attached to two helpers, and an exception thrown out of `getObserver`, after which what it had attached stays attached.
- Multi-byte characters in the output, which are read and decoded one byte at a time in binary mode.
- Steps after the observer factory's `destroy`, which returns no observer without detaching the old one.
- Stopwatch internals: the clock is a natural number that does not go back, and an observer's watch starts when it is attached.
- An executor to which nothing was submitted, which returns the empty list at once.
- KeyboardInterrupt in the executor, and exceptions in the main thread outside a suite.
- EncapsulationReader.InputStream.EndEncapsulation: `skipOptionals` is any forward move inside the buffer or a failure; `checkSupportedEncoding` is a parameter; pointer overflow and the `pos` setter are not modelled.
- Class decoders, optionals, strings and proxies on the input stream.
- The text of the remaining command line (`valgrind`, executable, environment) around the words, and `exe.format(**kargs)` (scripts/Util.py:2102-2103), which is applied to the joined words before they are split, so that braces in a word change it or raise an error.
- Null exception pointers: the `_exception` a future is given is taken to be a real exception.
- Liveness of waiting for the state Sent, which no step notifies.
- The MATLAB wrappers and the translation tables of `convertException` beyond the class name.
