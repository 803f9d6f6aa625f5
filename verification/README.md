# Chromium base, modelled and proved in Dafny

The project models the parts of Chromium's `base` library whose behaviour is decided by hard code: a binary
serializer, a streaming hash, containers that are edited while they are iterated, a once-protocol, and several text and
table transformers. Each module stands for one source file. Code that changes state is modelled as classes and methods
that are proved against functions; what the source promises is proved about these functions, for all inputs and all
runs. `dafny verify dfyconfig.toml` checks everything.

- `ObserverList.dfy`: `observer_list.h`. The list with nulling, deferred compaction and nested iterators; runs of any
  operations, completed iterations, and refinement of a plain list.
- `ObserverListThreadSafe.dfy`: `observer_list_threadsafe.h`. A transition system over locked regions, unlocked uses,
  posted tasks and callback boundaries, for any number of threads; the lifetime of the contexts. Addresses of deleted
  contexts may be allocated again. Calling AddObserver without a MessageLoop has no effect and so is no step. While
  RemoveObserver is between its two accesses to a context that it has taken out of the map, that context is neither in
  the map nor under a NotifyWrapper frame; `NothingLost` names this third place.
- `ObserverListRemoval.dfy`: the same transition system; a removed observer is not called until it is added again.
- `ObserverListNotification.dfy`: the same transition system; who is called by a task, and how often.
- `ObserverListPass.dfy`: late observers under both notification types, and a task whose thread is left alone.
- `ObserverListCall.dfy`: what AddObserver and RemoveObserver come to, and that nothing else takes an observer away.
- `LazyInstance.dfy`: `lazy_instance.h`, `lazy_instance.cc`. A transition system over the atomic operations, with
  memory taken as sequentially consistent.
- `Md5Transform.dfy`, `Md5.dfy`, `Md5Vector.dfy`: `md5.cc` against section 3 of RFC 1321 and a digest of its appendix.
  The streaming theorem holds for any compression function, which the context holds as a value; `TransformIsRfc` makes
  it the code's own. Both byte orders are covered.
- `Bits.dfy`, `PickleFormat.dfy`, `PickleFraming.dfy`, `Pickle.dfy`, `PickleReader.dfy`: `bits.h`, `pickle.h`,
  `pickle.cc`, on a 64-bit little-endian machine. The format and its inverse, the stream framer, the growing block, the
  bounds-checked iterator and the sizer. Floating-point values are their bit patterns.
- `CommandLineQuoting.dfy`, `CommandLineString.dfy`, `CommandLine.dfy`, `StringUtil.dfy`: `command_line.cc`. The Windows
  quoting and the whole printed line against the documented rules of CommandLineToArgvW, and the argv normal form as
  compiled for POSIX.
- `IdMap.dfy`: `id_map.h`. Deferred removal, nested and copied iterators, and the accounting of owned pointers.
- `PathService.dfy`: `path_service.cc`. The cache against recomputation, with providers that ask the service.
- `Environment.dfy`: `environment.cc`, both versions of AlterEnvironment, down to the layout in memory.
- `FeatureList.dfy`: `feature_list.cc` and the splitter it uses. Printing and parsing the override table.
- `RandUtil.dfy`: `rand_util.cc`. Rejection sampling, by counting the accepted words.

Where a promise does not hold of the code, the exact condition is proved:

- After a failed pickle read nothing more can be read, except after an element-count overflow with bytes behind the
  count, and except for reads of zero bytes (`FailedReadIsLast`; bytes that show the two exceptions are in
  `FailedReadCanGoOn` and `FailedReadLeavesEmptyReads`). The comment at src/base/pickle.h:36-40 promises more.
- Quoting loses empty arguments and splits unquoted ones at tabs (`QuotingRoundTrip`, with examples in
  `EmptyArgumentIsLost` and `TabSplitsArgument`).
- A printed command line loses the equals sign of an empty value, and switches with blanks or quotation marks in their
  names (`ArgumentsRoundTrip`, with `EmptyValueIsLost` and `SpacedNameIsSplit`).
- Re-initialising a command line is the identity except for switches such as `-=` or `--a =` (`InitAgain`, with these
  in `NamelessSwitchIsForgotten` and `SpacedSwitchIsRenamed`).
- `Clear` on a map that does not own its objects does nothing outside an iteration (`ClearedKeeps`, with an example in
  `ClearLeavesEntries`).
- During an iteration Lookup and Replace still find ids that were removed (`LookupAgrees`, `ReplaceAgrees`), and what
  Replace is given for one is deleted (`ReplacedInVain`).
- A path service that is told an absolute path with a parent reference returns it (`NoParentIsReturned`, with an
  example in `ParentOverrideIsReturned`); no other path it returns has one, except for the current directory.
- `overridden_by_field_trial` is restored only where it says whether there is a trial (`RoundTripIsExact`, with an
  example in `ReportedTrialDecides`).
- A copy of a pickle can be written to exactly if the write offset was at the payload's end, which that of a
  read-only pickle with a payload is not (`Copy`, with an example in `CopyOfReadOnly`).

Inputs of the model: random words, what the file system answers, which trials can be found by name, the order in which
a hash table stores its entries and a map is printed, and the answers of path providers, which depend on the key and on
what they asked.

## Model

| member | source | states |
|---|---|---|
| `ObserverLists.DepthCountsIterators` | src/base/observer_list.h:132-146 | Over every run of adds, removes, clears and nested iterations, `notify_depth_` is the number of live iterators, no observer is registered twice, and with no iterator left there is no null slot |
| `ObserverLists.SlotsNeverShift` | src/base/observer_list.h:160-204 | While an iterator lives, any further run leaves every slot in its place: it keeps its observer or becomes null, and new slots come behind |
| `ObserverLists.CompletedIteration` | src/base/observer_list.h:132-158 | A completed iteration, with any operations nested in it, has returned in slot order and at most once per registration exactly the observers that were in their slots when it reached them; of its range it missed only slots that are null; under NOTIFY_EXISTING_ONLY it reached nothing added after its creation |
| `ObserverLists.ReturnsWhatItReaches` | src/base/observer_list.h:148-158 | At every point of every run a live iterator has returned the observer of a slot if and only if the slot held it when it was reached, whatever became of it since; it has reached exactly the slots below its index |
| `ObserverLists.PassedWasReturned` | src/base/observer_list.h:148-182 | An observer that stands below the index after one part of a run is in the log after the whole of it, also if it removes itself in its own callback |
| `ObserverLists.ReachedByACall` | src/base/observer_list.h:148-158 | What a slot held when it was reached is what it held before one particular GetNext call of that iterator |
| `ObserverLists.IterationEnds` | src/base/observer_list.h:148-158 | An iteration is finished after at most as many calls of GetNext as there are slots from its index on |
| `ObserverLists.DroppedBeforeReached` | src/base/observer_list.h:148-182 | A registration dropped before an iterator reaches its slot is never returned by that iterator, however the run goes on |
| `ObserverLists.RegisteredRemoved` | src/base/observer_list.h:170-182 | RemoveObserver takes exactly that observer out of the registered ones, by nulling or by erasing |
| `ObserverLists.StepRefines` | src/base/observer_list.h:132-211 | Each operation acts on the registered observers as on a plain ordered list of distinct observers |
| `ObserverLists.RunRefines` | src/base/observer_list.h:132-211 | So does every run; and after the last iterator the slots are that list, in order and without nulls |
| `ObserverLists.ObserverList.AddObserver` | src/base/observer_list.h:160-168 | Appends an observer unless it is there |
| `ObserverLists.ObserverList.RemoveObserver` | src/base/observer_list.h:170-182 | Finds the first slot of the observer, and nulls it during an iteration, erases it otherwise |
| `ObserverLists.ObserverList.HasObserver` | src/base/observer_list.h:184-192 | Tells whether a slot holds the observer |
| `ObserverLists.ObserverList.Clear` | src/base/observer_list.h:194-204 | Nulls every slot during an iteration, drops all slots otherwise |
| `ObserverLists.ObserverList.Compact` | src/base/observer_list.h:206-211 | In place, leaves the registered observers in order |
| `ObserverLists.Iterator.constructor` | src/base/observer_list.h:132-140 | Starts at slot 0, with the slot count as its limit under NOTIFY_EXISTING_ONLY, and counts itself |
| `ObserverLists.Iterator.Close` | src/base/observer_list.h:142-146 | Counts itself out; the last one compacts; a destroyed list is not touched |
| `ObserverLists.Iterator.GetNext` | src/base/observer_list.h:148-158 | Returns the observer of the next slot that is not null below the limit and moves behind it, or null |
| `ObserverListsThreadSafe.NoUseAfterDelete` | src/base/observer_list_threadsafe.h:115-256 | In no interleaving of any number of threads, with calls nested in callbacks, stale tasks and reused addresses, is a context used or deleted when it is not alive |
| `ObserverListsThreadSafe.NothingLost` | src/base/observer_list_threadsafe.h:115-256 | Every live context is in `observer_lists_` under its own thread, or under an active NotifyWrapper frame of that thread, or in the RemoveObserver call that is about to delete it |
| `ObserverListsThreadSafe.DestructorLeaksNothing` | src/base/observer_list_threadsafe.h:210-212 | Whenever the destructor can run, it leaves no context behind and deletes none twice |
| `ObserverListsThreadSafe.CalledWhereAdded` | src/base/observer_list_threadsafe.h:195-241 | An observer is only ever called on a thread that added it |
| `ObserverListsThreadSafe.NextOk` | src/base/observer_list_threadsafe.h:115-256 | Each locked region, task and callback boundary keeps the invariant on lists, contexts and the stacks of all threads |
| `ObserverListCalls.AddStarts` | src/base/observer_list_threadsafe.h:123-128 | Under the lock AddObserver lists the thread, under a new empty context if it was not listed, and goes on to add the observer to the listed context |
| `ObserverListCalls.AddEnds` | src/base/observer_list_threadsafe.h:129 | Then the context's registered observers are the old ones in order, with the new one behind them unless it was there |
| `ObserverListCalls.AddedStays` | src/base/observer_list_threadsafe.h:115-256 | In every run after that the observer stays in its thread's listed context until the thread calls RemoveObserver for it |
| `ObserverListCalls.RemoveStarts` | src/base/observer_list_threadsafe.h:135-156 | Under the lock RemoveObserver unlists the context exactly if the observer is all it holds, and goes on to remove it there; on a thread that is not listed it does nothing |
| `ObserverListCalls.RemoveGoesOn` | src/base/observer_list_threadsafe.h:157 | Then the registered observers are the old ones in order without that one |
| `ObserverListCalls.RemoveEnds` | src/base/observer_list_threadsafe.h:159-164 | At last the context is deleted exactly if it has no slot, and is not listed then |
| `ObserverListCalls.OthersLeaveThread` | src/base/observer_list_threadsafe.h:115-256 | A step of another thread changes neither this thread's stack nor its listing nor its contexts |
| `ObserverListRemovals.NotCalledAfterRemoval` | src/base/observer_list_threadsafe.h:131-164 | In every interleaving: once RemoveObserver has done its removal on a thread, no notification enters that observer's callback on the thread, neither a pending one nor one under way further down its stack, until the thread adds it again |
| `ObserverListRemovals.GoneAfterRemoval` | src/base/observer_list_threadsafe.h:135-164 | The removal leaves the observer in no context of the thread, listed or not |
| `ObserverListRemovals.GoneStays` | src/base/observer_list_threadsafe.h:115-256 | Every step but adding it on that thread keeps it so |
| `ObserverListRemovals.NextTidy` | src/base/observer_list_threadsafe.h:115-256 | Every step keeps each context without duplicates, and a thread that is removing works on its listed context or on one it has just unlisted |
| `ObserverListNotifications.NotifiedOnce` | src/base/observer_list_threadsafe.h:215-241 | In every interleaving: a task that runs on its thread's listed context enters the callback of each observer registered there exactly once before it closes its iterator, whatever its callbacks and the other threads do, unless the thread removes the observer |
| `ObserverListNotifications.PassCalls` | src/base/observer_list_threadsafe.h:236-241 | From any point of such a pass to its end: an observer that stays is called once more if its slot is ahead of the iterator, never if it is behind |
| `ObserverListNotifications.NotifyReachesAll` | src/base/observer_list_threadsafe.h:177-193 | Notify posts one more task for every listed context, to the thread that owns it |
| `ObserverListPasses.NotifyPostsNothingElse` | src/base/observer_list_threadsafe.h:177-193 | Notify posts exactly one task for each listed context and changes nothing else |
| `ObserverListPasses.TaskAlone` | src/base/observer_list_threadsafe.h:217-240 | A task that runs on its thread's listed context, and is not disturbed, calls the observers registered there, each once and in order |
| `ObserverListPasses.EndAlone` | src/base/observer_list_threadsafe.h:240-256 | And then it closes its iterator and returns; the context is deleted and unlisted if nothing is registered in it any more and no other iterator is open |
| `ObserverListPasses.StaleTaskIsDropped` | src/base/observer_list_threadsafe.h:221-233 | A task for a context that the thread is not listed under does nothing |
| `ObserverListPasses.LateIsCalled` | src/base/observer_list_threadsafe.h:234-240 | Under NOTIFY_ALL, in every interleaving, an observer that is added to the context while a task iterates over it, and stays, is called by that task exactly once |
| `ObserverListPasses.LateIsNotCalled` | src/base/observer_list_threadsafe.h:234-240 | Under NOTIFY_EXISTING_ONLY, in every interleaving, an observer that is not registered when a task begins is not called by it |
| `LazyInstances.CreatedOnce` | src/base/lazy_instance.h:140-168 | For any number of threads in any interleaving: the word only moves 0, creating, address; New runs once per lifetime; no call returns before publication, and all return the published address |
| `LazyInstances.RegisteredOnce` | src/base/lazy_instance.cc:39-51 | When no thread is inside Pointer(), a registering instance has registered OnExit exactly as often as it was built in this lifetime, any other never |
| `LazyInstances.AloneBuilds` | src/base/lazy_instance.h:140-168 | From every reachable quiet state without an instance, in any lifetime, a thread that runs alone builds one instance, publishes it, registers it if it is to be registered, and returns its address |
| `LazyInstances.AloneReturns` | src/base/lazy_instance.h:158-167 | From every reachable quiet state with an instance it returns that address in two steps and builds nothing |
| `LazyInstances.LivesAgain` | src/base/lazy_instance.h:197-202 | From every reachable quiet state with a registering instance, OnExit can run, deletes it and leaves a state without an instance |
| `LazyInstances.SwapWins` | src/base/lazy_instance.cc:22-25 | In every reachable state without an instance the thread that swaps becomes the builder and marks the word |
| `LazyInstances.StepForward` | src/base/lazy_instance.h:140-168 | In every reachable state each step of a call brings it nearer to its end unless it waits for a builder, and the last step returns the one address that was built |
| `LazyInstances.SpinningEnds` | src/base/lazy_instance.cc:27-36 | Whoever spins does so for a builder that exists; however all threads go on, once that builder has taken two steps the value is published, and two steps of the waiting thread return the published address |
| `LazyInstances.OnExitOk` | src/base/lazy_instance.h:197-202 | OnExit deletes the one instance and leaves a state from which everything holds again |
| `LazyInstances.MaskTest` | src/base/lazy_instance.h:148-160 | On 64-bit words the mask test is the test for neither 0 nor the creating marker |
| `Md5Transform.StepAgrees` | src/base/md5.cc:50-60 | MD5STEP with the rewritten F1 and F2 is one operation of section 3.4 of RFC 1321 |
| `Md5Transform.RotateIsRotation` | src/base/md5.cc:59-60 | For all 16 shift amounts in use, the two shifts and the or are a rotation |
| `Md5Transform.Unrolled` | src/base/md5.cc:75-141 | The 64 statements with their rotating arguments, constants and indices are the table-driven four rounds, for any meaning of the step |
| `Md5Transform.MD5Transform` | src/base/md5.cc:67-147 | Replaces the state by the sum of the state and the 64 steps from it |
| `Md5Transform.TransformIsRfc` | src/base/md5.cc:67-147 | The unrolled transform is the compression of section 3.4 of RFC 1321, for every state and block |
| `Md5.CountUpIsAddition` | src/base/md5.cc:176-181 | The two 32-bit counters with their carry count 8 times the bytes mod 2^64 |
| `Md5.ReversedWords` | src/base/md5.cc:39-48 | byteReverse makes the machine's words those of the bytes low-order first, on either byte order |
| `Md5.LengthWordsAreLength` | src/base/md5.cc:252-256 | The two words put at the end, read as numbers with the low-order word first, are 8 times the length mod 2^64 |
| `Md5.Context.constructor` | src/base/md5.cc:157-165 | Stands for the empty message |
| `Md5.Context.Update` | src/base/md5.cc:171-215 | The context goes on to stand for the message with the chunk appended: counters 8n mod 2^64, buffer the last n mod 64 bytes, registers the fold over the full blocks |
| `Md5.Context.Final` | src/base/md5.cc:221-262 | Returns the padded, length-terminated, folded and serialised digest of everything that came, and leaves nothing of it in the context |
| `Md5.Context.IntermediateFinal` | src/base/md5.cc:264-270 | The digest so far, from a copy; the context is not modified |
| `Md5.Context.Wipe` | src/base/md5.cc:261 | Leaves nothing but zeros |
| `Md5.DigestOfChunks` | src/base/md5.cc:157-270 | For any compression, message, cutting and byte order: the digest of the concatenation, and at every cut that of the prefix |
| `Md5.CodeDigestIsRfc` | src/base/md5.cc:67-147 | With the unrolled transform the digest is that of RFC 1321 |
| `Md5.MD5OfChunks` | src/base/md5.cc:157-270 | Init, Update on each chunk, Final is RFC 1321 on the concatenation; intermediate digests are those of the prefixes and change nothing |
| `Md5Vectors.DigestOfA` | src/base/md5.cc:157-262 | The digest of the one-letter message a is that of appendix A.5 of RFC 1321, by its 64 operations |
| `Md5Vectors.InitialRegisters` | src/base/md5.cc:157-165 | The initial registers are the bytes of section 3.3 of RFC 1321 |
| `Md5Vectors.PaddedMessage` | src/base/md5.cc:221-256 | That message is padded by the mark, zeros and its length of 8 bits |
| `Bits.AlignIsLeastMultiple` | src/base/bits.h:47-50 | Unless the sum wraps, Align gives the least multiple not below the size |
| `Bits.MaskTakesRemainderOff` | src/base/bits.h:49 | For the alignments 4, 64 and 4096, and-ing with the mask takes off the remainder, which is how Align is written |
| `Bits.Log2Floor` | src/base/bits.h:19-34 | 2^i <= n < 2^(i+1), and -1 for 0 |
| `Bits.Log2Ceiling` | src/base/bits.h:37-44 | 2^(i-1) < n <= 2^i, and -1 for 0 |
| `PickleFormat.FieldComesBack` | src/base/pickle.cc:84-208 | Any typed write is undone by the matching read wherever it stands in the payload, and the read ends behind its padding |
| `PickleFormat.FieldsComeBack` | src/base/pickle.cc:84-208 | So is any sequence of writes by the matching sequence of reads, which consumes exactly its bytes |
| `PickleFormat.NumberOfDigits` | src/base/pickle.h:363-369 | Numbers stored low-order byte first are read back |
| `PickleFormat.SignedRoundTrip` | src/base/pickle.h:228-239 | Signed numbers survive their two's complement pattern |
| `PickleFormat.UnitsRoundTrip` | src/base/pickle.cc:168-178 | 16-bit strings survive their bytes |
| `PickleFormat.AlignAddsPad` | src/base/pickle.cc:42-49 | For every size a read can have, the aligned size is the size with its padding |
| `PickleFormat.NumbersByExample` | src/base/pickle.h:225-241 | Literal bytes of bool, int, unsigned and 16-bit values |
| `PickleFormat.TextsByExample` | src/base/pickle.cc:331-353 | Literal bytes of strings, 16-bit strings, data and raw bytes |
| `PickleFormat.ReadKeepsAligned` | src/base/pickle.cc:42-82 | Over any bytes and any stored lengths, every read leaves the index within the payload, and 4-aligned or at the end |
| `PickleFormat.ReadsStayAligned` | src/base/pickle.cc:42-82 | From the start of any payload every run of reads stays at multiples of four or at the end |
| `PickleFormat.OverflowingCounts` | src/base/pickle.cc:73-82 | The count that overflows is one of at least 2^30 or below -2^30 |
| `PickleFormat.FitsByType` | src/base/pickle.h:225-240 | The numbers that the round trips are about are all those of their C++ types |
| `PickleFormat.TextsFit` | src/base/pickle.h:241-250 | Texts and data are all those of less than 2^31 bytes |
| `PickleFormat.FailedReadEnds` | src/base/pickle.cc:51-82 | A failed read leaves the iterator at the end if and only if it is not the element-count overflow, or the overflowing count ends the payload; otherwise it is left behind the count |
| `PickleFormat.FailedReadIsLast` | src/base/pickle.h:36-40 | After a failed read every other read but that of zero bytes fails, if and only if the same condition holds |
| `PickleFormat.ReadAtEnd` | src/base/pickle.cc:42-71 | At the end of the payload a read succeeds if and only if it is that of zero bytes, and stays there |
| `PickleFormat.FailedReadCanGoOn` | src/base/pickle.cc:76-81 | Eight bytes for which a read succeeds after a failed one |
| `PickleFormat.FailedReadLeavesEmptyReads` | src/base/pickle.cc:62-71 | Two bytes for which reading an int fails and reading zero bytes then succeeds |
| `PickleFraming.FindNext` | src/base/pickle.cc:402-440 | Never a position past the end, and always progress |
| `PickleFraming.PeekAnnounces` | src/base/pickle.cc:418-440 | Of a pickle of which only a part has arrived PeekNext tells the whole size as soon as the header is there, and nothing before; bytes behind a whole one do not matter |
| `PickleFraming.WalkFindsBoundaries` | src/base/pickle.cc:402-440 | Over any pickles in a row with one header size, repeated FindNext stops at exactly their ends, and gives up on a truncated last one |
| `PickleFraming.WalkLosesNothing` | src/base/pickle.cc:402-440 | Over any bytes, what repeated FindNext cuts off are pickles, and with the rest they make up the bytes |
| `Pickles.GrowthBounds` | src/base/pickle.cc:460-466 | The growth policy gives room, at least 1.5 times the old capacity, and at most twice the need plus 4096 |
| `Pickles.WantedIs` | src/base/pickle.cc:460-466 | The growth policy in numbers: twice the capacity, beyond 4096 bytes the least multiple of 4096 not below that less 64, or what is needed if that is more |
| `Pickles.DeducedHeaderSize` | src/base/pickle.cc:282-289 | The wrapping subtraction and the two checks leave the header size exactly when the data is longer than the stored size by a multiple of 4 |
| `Pickles.Pickle.constructor` | src/base/pickle.cc:255-275 | An empty payload behind an aligned header, with 64 bytes of room |
| `Pickles.Pickle.ReadOnly` | src/base/pickle.cc:277-294 | Accepts exactly when data_len is at least 4 and data_len minus the stored size is a positive multiple of 4; the payload is then the rest of the block |
| `Pickles.Pickle.Copy` | src/base/pickle.cc:296-303 | Same header, payload and write offset in a block of its own; writable if and only if the header size is legal and the write offset of the original stands, 4-aligned, at its payload's end |
| `Pickles.Pickle.Assign` | src/base/pickle.cc:310-329 | The same for operator= from another pickle, whether this one is read-only, writable or a copy that is not, as long as the other one does not refer to the block of this one |
| `Pickles.CopyOfReadOnly` | src/base/pickle.cc:296-303 | A read-only pickle with a payload, and a copy of it that is not writable |
| `Pickles.Pickle.Resize` | src/base/pickle.cc:380-386 | Keeps the bytes that fit |
| `Pickles.Pickle.ClaimUninitializedBytesInternal` | src/base/pickle.cc:450-473 | Claims the bytes behind the payload, zeroes their padding, updates the stored size, moves nothing else; keeps offset = stored size, alignment, capacity and copying bounds |
| `Pickles.Pickle.WriteBytesCommon` | src/base/pickle.cc:475-481 | Appends the bytes and their padding to the payload; the header's extra bytes stay |
| `Pickles.Pickle.WriteInt` | src/base/pickle.h:228-230 | Appends the encoding of the value |
| `Pickles.Pickle.WriteLong` | src/base/pickle.h:231-235 | Appends 64 bits |
| `Pickles.Pickle.WriteBool` | src/base/pickle.h:225-227 | Appends an int |
| `Pickles.Pickle.WriteUInt16` | src/base/pickle.h:236 | Appends two bytes and two of padding |
| `Pickles.Pickle.WriteString` | src/base/pickle.cc:331-336 | Appends the length and the bytes |
| `Pickles.Pickle.WriteString16` | src/base/pickle.cc:338-344 | Appends the number of characters and their bytes |
| `Pickles.Pickle.WriteData` | src/base/pickle.cc:346-348 | Refuses a negative length and then writes nothing; otherwise appends the length and the bytes |
| `Pickles.Pickle.WriteBytes` | src/base/pickle.cc:350-353 | Appends the bytes |
| `Pickles.Pickle.Write` | src/base/pickle.h:225-254 | Any typed write appends its encoding and keeps what writes keep |
| `Pickles.Pickle.WriteAll` | src/base/pickle.h:225-254 | A run of writes on a writable pickle appends their encodings and keeps offset = stored size, the alignment, the capacity bound 2 * payload + 4096 and moved <= 2 * capacity |
| `Pickles.Pickle.Reserve` | src/base/pickle.cc:355-365 | Capacity for the bytes announced behind the write offset; payload and header stay |
| `Pickles.WriteInPlace` | src/base/pickle.cc:355-365 | A run of writes that fits in the capacity, such as one that Reserve has left, appends without moving the block or changing its capacity |
| `PickleReaders.PickleIterator.constructor` | src/base/pickle.cc:24-28 | Stands at the start of the payload, or has none if the pickle was refused |
| `PickleReaders.PickleIterator.Advance` | src/base/pickle.cc:42-49 | Moves by the aligned size, or to the end |
| `PickleReaders.PickleIterator.GetTypePointerAndAdvance` | src/base/pickle.cc:51-60 | A pointer whose bytes lie inside the payload, or the end |
| `PickleReaders.PickleIterator.GetReadPointerAndAdvance` | src/base/pickle.cc:62-71 | The same for any length, negative ones included |
| `PickleReaders.PickleIterator.GetUnitsPointerAndAdvance` | src/base/pickle.cc:73-82 | The same for 16-bit elements; a count that overflows moves nothing |
| `PickleReaders.PickleIterator.ReadInt` | src/base/pickle.cc:88-90 | Returns and moves as the format says |
| `PickleReaders.PickleIterator.ReadString` | src/base/pickle.cc:144-154 | Returns and moves as the format says |
| `PickleReaders.PickleIterator.ReadString16` | src/base/pickle.cc:168-178 | Returns and moves as the format says |
| `PickleReaders.PickleIterator.ReadData` | src/base/pickle.cc:192-200 | A pointer and a length inside the payload, or a failure |
| `PickleReaders.PickleIterator.ReadBytes` | src/base/pickle.cc:202-208 | A pointer inside the payload, or a failure |
| `PickleReaders.PickleIterator.Read` | src/base/pickle.cc:84-208 | Any typed read, over any bytes, keeps index and pointers inside the block |
| `PickleReaders.PickleSizer.AddBytes` | src/base/pickle.cc:230-232 | Adds the aligned size mod 2^64, for every int length: a negative one takes off its magnitude rounded down to a multiple of 4 |
| `PickleReaders.PickleSizer.AddString` | src/base/pickle.cc:214-217 | Adds length and text |
| `PickleReaders.PickleSizer.AddString16` | src/base/pickle.cc:219-222 | Adds length and twice the characters |
| `PickleReaders.PickleSizer.AddData` | src/base/pickle.cc:224-228 | Adds length and bytes |
| `PickleReaders.PickleSizer.Add` | src/base/pickle.h:122-134 | Adds exactly as many bytes as the matching write appends |
| `PickleReaders.SizeOf` | src/base/pickle.cc:230-247 | What a write appends is as long as its blocks with their padding |
| `PickleReaders.PredictSize` | src/base/pickle.cc:210-247 | The sizer's sum over any operations is the length of what they write |
| `PickleReaders.ReadBack` | src/base/pickle.cc:24-208 | From any pickle that holds the bytes, the matching reads give the values and end at the end |
| `PickleReaders.Reopen` | src/base/pickle.cc:277-294 | The data of a writable pickle, given to the read-only constructor, is accepted with the same header size and payload |
| `PickleReaders.RoundTrip` | src/base/pickle.cc:30-247 | Predict, write, read back, for any sequence of typed values and header size: sizes agree and the values return across every reallocation |
| `CommandLineQuoting.QuoteForCommandLineToArgvW` | src/base/command_line.cc:102-147 | The index loop over runs of backslashes computes the specified quoted form |
| `CommandLineQuoting.QuotedWhen` | src/base/command_line.cc:102-115 | The result is the argument itself if and only if it has no space, backslash or quotation mark and, when placeholders are to be quoted, no percent sign; any other is longer by at least two and stands between quotation marks |
| `CommandLineQuoting.EscapedIsReadBack` | src/base/command_line.cc:116-144 | Inside quotes, the documented backslash and quote rules undo the printer up to the closing quote |
| `CommandLineQuoting.AllPiecesAreParsed` | src/base/command_line.cc:102-147 | What the parser makes of any printed arguments: quoted ones whole, unquoted ones cut at their tabs, empty ones lost |
| `CommandLineQuoting.QuotingRoundTrip` | src/base/command_line.cc:102-147 | Printing, joining and splitting give the arguments back if and only if each is not empty, free of NUL, and free of tabs unless something else makes it quoted; with or without placeholder quoting |
| `CommandLineQuoting.EmptyArgumentIsLost` | src/base/command_line.cc:102-114 | A list of one empty argument comes back as an empty list |
| `CommandLineQuoting.TabSplitsArgument` | src/base/command_line.cc:102-114 | An argument with a tab and nothing else to be quoted comes back as two |
| `CommandLineStrings.GetArgumentsStringInternal` | src/base/command_line.cc:456-485 | The loop prints switch names as they are, their values quoted by themselves, and anything else quoted, with spaces between |
| `CommandLineStrings.SwitchesByPrefix` | src/base/command_line.cc:36-70 | What a switch is, by its characters: a dash or, if it counts, a slash with something behind it, but not two dashes alone |
| `CommandLineStrings.ArgumentsRoundTrip` | src/base/command_line.cc:456-485 | Splitting what was printed gives the arguments back if and only if every switch before a terminator has no blank, quotation mark or NUL in its name and, after an equals sign, a value that is not empty and survives quoting, and every other argument survives quoting; with or without slash prefixes and placeholders |
| `CommandLineStrings.BadNameIsLost` | src/base/command_line.cc:469-479 | A switch with a blank or a quotation mark in its name never comes back, whatever is printed behind it |
| `CommandLineStrings.EmptyValueIsLost` | src/base/command_line.cc:469-479 | A switch with an equals sign and no value comes back without the sign |
| `CommandLineStrings.SpacedNameIsSplit` | src/base/command_line.cc:469-479 | A switch with a blank in its name comes back in two pieces |
| `CommandLines.PartitionIsStable` | src/base/command_line.cc:73-98 | Switches and other arguments are each in the order given and are together all arguments; exactly the cuttable ones before a terminator are switches |
| `CommandLines.LastValueWins` | src/base/command_line.cc:344-348 | The table has the last value of each key |
| `CommandLines.SwitchesAreCut` | src/base/command_line.cc:56-70 | A switch keeps its prefix, its name has no equals sign |
| `CommandLines.SwitchesByPrefix` | src/base/command_line.cc:44-70 | What a switch is, by its characters, and how it is made up of its name and its value |
| `CommandLines.KeysByPrefix` | src/base/command_line.cc:343-345 | The key is the name without at most two dashes in front |
| `CommandLines.InitByExample` | src/base/command_line.cc:73-98 | Six literal arguments with switches behind an argument and a terminator, and the state they give |
| `CommandLines.FirmTextIsCutAgain` | src/base/command_line.cc:334-356 | What AppendSwitchNative prints is cut into the same switch, unless it is fragile |
| `CommandLines.InitAgain` | src/base/command_line.cc:267-274 | Initialising again from its own argv changes nothing if and only if no switch had an empty value after its equals sign and a name that is empty or ends in white space |
| `CommandLines.NamelessSwitchIsForgotten` | src/base/command_line.cc:267-274 | A prefix with an equals sign is a switch the first time and none the second time |
| `CommandLines.SpacedSwitchIsRenamed` | src/base/command_line.cc:267-274 | A name that ends in a blank before its equals sign is another name the second time |
| `CommandLines.CommandLine.constructor` | src/base/command_line.cc:169-173 | Initialises from the arguments |
| `CommandLines.CommandLine.SetProgram` | src/base/command_line.cc:280-286 | Replaces the first argument, trimmed |
| `CommandLines.CommandLine.AppendSwitchNative` | src/base/command_line.cc:334-356 | Inserts the switch before the other arguments, with a prefix and a value where there is one, and sets its key; the lookup table goes on to mirror the switches |
| `CommandLines.CommandLine.AppendArgNative` | src/base/command_line.cc:400-402 | Appends |
| `CommandLines.CommandLine.AppendSwitchesAndArguments` | src/base/command_line.cc:73-98 | Appends the partition of the arguments |
| `CommandLines.CommandLine.InitFromArgv` | src/base/command_line.cc:267-274 | Program, switches in order, other arguments in order, the table and the divider |
| `CommandLines.CommandLine.Copy` | src/base/command_line.cc:175-180 | Same arguments and switches, with a lookup table that points into the copy itself |
| `CommandLines.CommandLine.Assign` | src/base/command_line.cc:182-188 | The same for operator=, also from itself |
| `CommandLines.CommandLine.ResetStringPieces` | src/base/command_line.cc:487-491 | The lookup table has exactly the keys of the switches, each with a pointer to this object's own value |
| `CommandLines.CommandLine.HasSwitch` | src/base/command_line.cc:288-292 | Looks up among the switches |
| `CommandLines.CommandLine.GetSwitchValueNative` | src/base/command_line.cc:317-323 | The value that the pointer leads to is that of the switch, or empty |
| `StringUtil.Trim` | src/base/strings/string_util.cc:279-313 | Nothing white is left at the ends, and what has none stays as it is |
| `StringUtil.WhiteIs` | src/base/strings/string_util_constants.cc:45-53 | The six ASCII white-space characters |
| `StringUtil.TrimCutsTheEnds` | src/base/strings/string_util.cc:279-313 | Only white space is lost, and only at the ends |
| `IdMaps.StepOk` | src/base/id_map.h:66-132 | Every operation, at any nesting of iterations, keeps ids distinct, removed ids among them, the depth equal to the open iterators, the accounting of pointers and the promise of every iterator |
| `IdMaps.StepRefines` | src/base/id_map.h:66-132 | Each operation acts on the live entries as on a map that removes at once, if and only if it is not the Clear that does nothing |
| `IdMaps.RunRefines` | src/base/id_map.h:66-150 | Every run of an owning map agrees with that map in its live entries and in size(), and in all it holds once the last iterator is closed |
| `IdMaps.ClearedKeeps` | src/base/id_map.h:123-132 | Clear empties the live map if and only if the map owns its objects, is being iterated, or is empty |
| `IdMaps.ClearLeavesEntries` | src/base/id_map.h:123-132 | A map of one entry that it does not own, which Clear leaves there |
| `IdMaps.RemovedKeeps` | src/base/id_map.h:88-102 | Remove takes exactly that id out of the live map, deferred or not, and keeps the accounting |
| `IdMaps.ReplacedLive` | src/base/id_map.h:109-121 | Replace changes the value of a live id and nothing else |
| `IdMaps.LookupAgrees` | src/base/id_map.h:139-145 | Lookup answers as a map that removes at once if and only if the id is not noted as removed |
| `IdMaps.ReplaceAgrees` | src/base/id_map.h:109-121 | Replace takes a pointer over as such a map does under the same condition |
| `IdMaps.ReplacedInVain` | src/base/id_map.h:109-121 | A pointer that an owning map was given for a removed id is deleted when the last iteration ends |
| `IdMaps.DestroyedBalances` | src/base/id_map.h:54-60 | After the destructor every pointer given to an owning map was handed back by Replace or deleted, each exactly as often as given; a map that does not own deletes none |
| `IdMaps.SizeIsLive` | src/base/id_map.h:147-150 | size() is the number of live entries |
| `IdMaps.CompletedIteration` | src/base/id_map.h:161-227 | A completed iteration has visited each live key exactly once and no key twice, if nothing was inserted |
| `IdMaps.ArrivesAtLive` | src/base/id_map.h:208-227 | Wherever an iterator arrives, the entry is live |
| `IdMaps.IdMap.Add` | src/base/id_map.h:67-75 | Adds the entry under the next id |
| `IdMaps.IdMap.AddWithID` | src/base/id_map.h:81-86 | Adds the entry under the id given |
| `IdMaps.IdMap.Remove` | src/base/id_map.h:88-102 | Erases and deletes outside iteration, notes the id during one, ignores an unknown id |
| `IdMaps.IdMap.Replace` | src/base/id_map.h:109-121 | Hands back the previous pointer |
| `IdMaps.IdMap.Clear` | src/base/id_map.h:123-132 | Deletes all, notes all, or does nothing |
| `IdMaps.IdMap.Lookup` | src/base/id_map.h:139-145 | The pointer under an id |
| `IdMaps.IdMap.Size` | src/base/id_map.h:147-150 | The number of live entries |
| `IdMaps.IdMap.Compact` | src/base/id_map.h:256-261 | Removes all noted ids, in whatever order it takes them |
| `IdMaps.IdMap.ReleaseAll` | src/base/id_map.h:247-253 | Deletes each pointer once |
| `IdMaps.Iterator.constructor` | src/base/id_map.h:163-167 | Counts itself and stands at the first live entry |
| `IdMaps.Iterator.Copy` | src/base/id_map.h:169-173 | Counts itself and stands at the first live entry from the other one's place |
| `IdMaps.Iterator.Close` | src/base/id_map.h:182-191 | Counts itself out; the last one compacts |
| `IdMaps.Iterator.SkipRemovedEntries` | src/base/id_map.h:221-227 | Stops at the first live entry |
| `IdMaps.Iterator.Advance` | src/base/id_map.h:208-212 | Moves to the next live entry |
| `IdMaps.RemoveEach` | src/base/id_map.h:156-227 | Removing each entry while standing on it, at any nesting, meets every live key exactly once and leaves no live entry; with no iteration around it the table is empty and every owned pointer deleted once |
| `PathServices.RunIsCoherent` | src/base/path_service.cc:139-220 | Over every run of Get, Override, RemoveOverride and DisableCache, each cached entry is what an uncached lookup under the current overrides comes to, also for keys whose providers ask for other keys |
| `PathServices.GetAgrees` | src/base/path_service.cc:171-221 | In a coherent state Get has a result exactly when the uncached lookup has it |
| `PathServices.GetAfterRun` | src/base/path_service.cc:171-287 | So at the end of any run a Get sees the overrides of that moment and nothing of what went before |
| `PathServices.LookupIsGot` | src/base/path_service.cc:171-221 | Where the uncached lookup ends, Get ends without asking more often, with the same result |
| `PathServices.FindsOnce` | src/base/path_service.cc:196-204 | An uncached lookup has at most one result |
| `PathServices.NoParentIsReturned` | src/base/path_service.cc:206-220 | After every run, if what makes paths absolute leaves no parent reference, a Get of any other key than the current directory returns or caches a path with a parent reference if and only if it is an override recorded with one |
| `PathServices.FirstAnswerIsReturned` | src/base/path_service.cc:194-220 | The first provider that answers decides: its path is returned as it is, or made absolute if it mentions the parent, or is a failure if it is empty before or after that; and what is returned is cached |
| `PathServices.NoAnswerIsFailure` | src/base/path_service.cc:198-207 | Where no provider has an answer the result is a failure and nothing changes |
| `PathServices.CurrentIsAsked` | src/base/path_service.cc:177-179 | The current directory is neither cached nor overridden |
| `PathServices.GetAgain` | src/base/path_service.cc:182-186 | A second Get asks no provider, has the same result and changes nothing |
| `PathServices.OverrideIsReturned` | src/base/path_service.cc:231-268 | What is recorded is returned from then on: the path itself if said to be absolute, else what makes it absolute; a failure has no effect |
| `PathServices.ParentOverrideIsReturned` | src/base/path_service.cc:255-266 | A path with a parent reference that is said to be absolute is returned as it is |
| `PathServices.OverrideIsUndone` | src/base/path_service.cc:231-287 | After an override and its removal every key is found as if it had never been recorded |
| `PathServices.OverridesAreAbsolute` | src/base/path_service.cc:255-260 | Over every run all overrides are absolute, if those given as absolute are |
| `PathServices.DisabledForGood` | src/base/path_service.cc:322-329 | After DisableCache nothing is ever cached again |
| `PathServices.PathData.LockedGetFromCache` | src/base/path_service.cc:139-149 | The cached path, unless the cache is disabled |
| `PathServices.PathData.LockedGetFromOverrides` | src/base/path_service.cc:153-163 | The override, which is cached on the way |
| `PathServices.PathData.LookUp` | src/base/path_service.cc:171-221 | Cache, then overrides, then providers, then the cache is filled |
| `PathServices.PathData.AskProviders` | src/base/path_service.cc:194-214 | The first provider that answers, made absolute if it mentions the parent |
| `PathServices.PathData.OverrideAndCreateIfNeeded` | src/base/path_service.cc:231-268 | Fails without an effect, or records the absolute path and clears the cache |
| `PathServices.PathData.RemoveOverride` | src/base/path_service.cc:271-287 | Clears the cache and the override, if there is one |
| `PathServices.PathData.DisableCache` | src/base/path_service.cc:322-329 | Clears the cache for good |
| `Environments.ParseEnvLine` | src/base/environment.cc:109-121 | The key up to the first equals sign, and the length with the terminator |
| `Environments.LookupAltered` | src/base/environment.cc:148-236 | Every name looks up in the result as in the old environment overridden by the changes, an empty value deleting |
| `Environments.KeptLines` | src/base/environment.cc:151-165 | The old lines that stay are exactly those whose key is not changed, each once and in order |
| `Environments.AddedLines` | src/base/environment.cc:168-176 | The new lines are exactly the changes with a value, each once and in order |
| `Environments.AlteredTwice` | src/base/environment.cc:148-236 | Two alterations look up as one by the merged map |
| `Environments.AlterEnvironmentBlock` | src/base/environment.cc:148-184 | The Windows block of the kept lines in order and the new ones, with its end mark |
| `Environments.Block` | src/base/environment.cc:178-183 | Ends in two NULs, whatever the lines |
| `Environments.BlockIsReadBack` | src/base/environment.cc:151-165 | A block is read back as exactly its lines |
| `Environments.AlteredBlockIsReadBack` | src/base/environment.cc:148-184 | What the Windows version returns is read back as the altered lines |
| `Environments.AlterEnvironment` | src/base/environment.cc:188-236 | The POSIX block: the text of the altered lines behind one pointer to the start of each, in order, and a null pointer; text and pointers fit the computed number of words |
| `Environments.AlteredLinesAreFound` | src/base/environment.cc:188-236 | Following these pointers one finds each at its own terminated line, and the lines are the altered ones |
| `Environments.LineAtOffset` | src/base/environment.cc:201-216 | Each recorded index is where its line stands |
| `FeatureLists.SplitJoined` | src/base/feature_list.cc:149-152 | Splitting undoes joining, for items that are not empty, trimmed and free of commas |
| `FeatureLists.SplitFeatureListString` | src/base/strings/string_split.cc:73-102 | The splitting loop with trimming, without empty pieces |
| `FeatureLists.PrintedIsJoined` | src/base/feature_list.cc:122-131 | Appending with a comma unless the list is still empty is joining, as long as no name is empty |
| `FeatureLists.WhereListed` | src/base/feature_list.cc:113-121 | A feature is printed in the list of disabled ones if and only if its state says so; enabled and default ones are in the other |
| `FeatureLists.ListsByExample` | src/base/feature_list.cc:100-132 | Four literal features and the two lists they are printed in |
| `FeatureLists.ItemIsParsed` | src/base/feature_list.cc:100-132 | One printed override is registered as itself |
| `FeatureLists.RoundTrip` | src/base/feature_list.cc:100-132 | Both printed lists, parsed into a fresh table in any order of printing, give every feature its state and its trial, and no other feature |
| `FeatureLists.RoundTripIsExact` | src/base/feature_list.cc:300-303 | The whole table comes back if and only if no override has a trial that did not decide its state |
| `FeatureLists.FirstRegistrationCounts` | src/base/feature_list.cc:280-285 | A later registration changes no entry |
| `FeatureLists.DisabledTakesPrecedence` | src/base/feature_list.cc:45-56 | A feature in both lists is what the list of disabled features makes of it |
| `FeatureLists.FeatureList.RegisterOverride` | src/base/feature_list.cc:267-285 | Strips a star, and inserts unless the name is there |
| `FeatureLists.FeatureList.RegisterOverridesFromCommandLine` | src/base/feature_list.cc:248-265 | Registers every item of a list |
| `FeatureLists.FeatureList.InitializeFromCommandLine` | src/base/feature_list.cc:45-56 | Registers the disabled list and then the enabled one on top of whatever was registered before |
| `FeatureLists.HandedOn` | src/base/feature_list.cc:45-132 | A finalized list, printed and given to a fresh one, leaves there every state and trial, and no other feature |
| `FeatureLists.ReportedTrialDecides` | src/base/feature_list.cc:66-132 | A feature from the command line with a trial to report, handed on: the other list takes the trial for what decided the state |
| `FeatureLists.FeatureList.AssociateReportingFieldTrial` | src/base/feature_list.cc:66-84 | Gives a state from the command line a trial, if it has none |
| `FeatureLists.FeatureList.GetFeatureOverrides` | src/base/feature_list.cc:100-132 | Prints the two lists |
| `RandUtil.RandGenerator` | src/base/rand_util.cc:52-67 | Returns the residue of the first accepted word |
| `RandUtil.AcceptedWords` | src/base/rand_util.cc:58-64 | The accepted words are exactly those below k * range with k = floor((2^64-1) / range), and at least 2^63 |
| `RandUtil.FoldIsLargest` | src/base/rand_util.cc:57-58 | k is the largest number for which k * range stays below 2^64 |
| `RandUtil.Uniform` | src/base/rand_util.cc:52-67 | Every result below the range has exactly k accepted words, any other none |
| `RandUtil.RangeIsLength` | src/base/rand_util.cc:22 | The 64-bit arithmetic gives max - min + 1 for all int bounds |
| `RandUtil.RandInt` | src/base/rand_util.cc:19-30 | A number from min to max |
| `RandUtil.RandIntUniform` | src/base/rand_util.cc:19-30 | Every number from min to max has exactly as many accepted words as any other |

## Left out

- ObserverLists.Iterator.constructor: the size_t maximum that stands for no limit under NOTIFY_ALL is modelled as no limit.
- LazyInstances.CreatedOnce: assumes sequential consistency and addresses of at least 2, and no OnExit while a thread is inside Pointer(), as the source asks.
- LazyInstances.SpinningEnds: each thread is in one call of Pointer() at a time; a Traits::New that asks for the same instance on its own thread, which would spin for ever, is not modelled.
- ObserverListsThreadSafe.NoUseAfterDelete: a MessageLoop that is gone is modelled as tasks that are dropped, not as a PostTask that fails; Clear and the debug checks are not part of the interface.
- Md5Transform.TransformIsRfc: the 64 constants are those printed in RFC 1321; that they are values of a sine is not stated.
- Md5.Context.Update: calls the compression as a function value instead of the method on the register array; `MD5Transform` is proved against that function.
- Md5.Context.Final: `MD5DigestToBase16` and `MD5Sum` are left out as easy.
- Environments.LookupAltered: keys are distinct and free of equals signs, keys and values free of NUL; with others the printed line has another key.
- FeatureLists.RoundTripIsExact: names and trial names are valid, not empty and without white space around them, and each trial is found by its name.
- PickleFormat.FieldComesBack: byte counts below 2^31 and a payload below 2^32, as the code's own checks ask; longer strings wrap in the cast to int.
- Pickles.Pickle.Reserve: keeps the invariant of writes except for the bound of the capacity by the payload, which a reservation is meant to exceed.
- Pickles.Pickle.Assign: self-assignment, which the source forbids, and a source that refers to the block of the target, which the code would reallocate or free under it, are excluded; the count of bytes moved starts again.
- PickleReaders.PickleIterator.ReadString: ReadStringPiece, ReadStringPiece16, ReadLength and SkipBytes are left out; they use the same two pointer functions.
- Pickles.Pickle.Write: attachments, which the base class refuses, and `headerT` are left out.
- CommandLineStrings.ArgumentsRoundTrip: is about what follows the program name, for which CommandLineToArgvW has rules of its own; its rules that are not documented are left out.
- CommandLines.CommandLine.AppendSwitchNative: the lower-casing of keys on Windows is left out; a pointer to a value is its owner and its key, and the string pieces of the lookup table are the keys themselves.
- IdMaps.IdMap.Add: a new entry may go anywhere, but the others keep their order, since nothing iterates meanwhile; insertion during an iteration and the iterator's operator= are left out.
- PathServices.PathData.LookUp: sequential runs only, since the lock is released between the lookup and the caching; the current directory is fixed during a run; a lookup stops after any given number of questions, so the results hold for every number; RegisterProvider is left out.
- Environments.AlterEnvironment: the pointers and the text are two values with distances inside one block, not one array of words.
- FeatureLists.RoundTrip: trials are found by a function of their name; activation of trials and the check of feature identity are left out.
- RandUtil.RandGenerator: ends if some draw is accepted; that this has probability 1 is not stated. RandDouble and the byte functions are left out.
- Logging, native libraries, base64, hash functions, message loops, weak pointers and reference counts as such, templates and thin wrappers: they rest on code that is not part of this model, or would add only easy members.
- `callback_list.h`, `deferred_sequenced_task_runner.cc`, `pending_task.cc`, `big_endian.*`, `guid.cc`, `barrier_closure.cc`, `at_exit.cc`: easier relatives of what is here.
