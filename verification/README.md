# Verified model of the Blocks runtime and the TAPI core

This project models five parts of the repository in Dafny and proves what they
are for. `dafny verify dfyconfig.toml` checks all of it.

**The Blocks runtime** (`blocks/src/runtime.c`, garbage collection off). `BlockHeap` is
memory with blocks and `__block` variables, together with a ledger: who holds a
reference (`claims`), which cells a helper is still building or tearing down
(`limbo`), and the creation order of literals (`rank`). `Inv` says that every settled
count is latched or equals the number of owners. `BlockLedger`, `BlockSharing` and
`BlockSteps` show what each elementary step keeps; `BlockRuntime` has the entry points
as methods of a class, with the compiler's copy and dispose helpers as loops and the
recursion bounded by creation order. `BlockRuns` proves that a `__block` variable is one
variable over any run, `BlockClients` that what any program does through the entry
points is such a run, `BlockTheorems` that liveness is reachability, when nothing
leaks, and that a release cascade has one outcome. `FlagWord` relates decoded flags to
the 32-bit word. `LatchingCounter` is the step relation of any number of threads that
load and swap one such word, `SharedRelease` that of threads that share any number of
blocks, with the releases made by dispose helpers interleaved step by step. Of both it
is proved that a call that has returned did its work.

**Interface files** (`InterfaceFile.cpp`, `XPISet.cpp`, the merge of `ArchiveDriver.cpp`).
`InterfaceAlgebra` says by content, in sets and maps, what extract, remove and merge
mean; `InterfaceTheorems` and `InterfaceTrees` prove how they fit together.
`SortedVectors`, `InterfaceFiles`, `SymbolSets` and `InterfaceOperations` are the program's
own form: vectors filled by binary search, a class of a file under construction, a
symbol map visited in arbitrary order, loops and recursion, proved to compute exactly
the algebra. `InterfaceCanonical` shows that the vectors depend on content alone.
`InterfaceFields` tells the outcome of any archive merge and of removal field by field
in the inputs, without the functions of the algebra.

**Text stubs** (`TextStubv4.cpp`, `TextStub.cpp`). `TextSections` groups symbols into
sections and reads them back for any kind of group; `TextStubV4` and `TextRoundTrip` do
it by target list, `TextStubV3` and `TextRoundTripV3` by architecture set with the name
mangling and the one platform word of older versions. `TextContent` and `ArchiveStubs`
say when files of the same content, and the archive tool's outputs for inputs in
different orders, are written alike. `StubTexts` says text by text what each list of a
written stub of either form holds, `StubReading` what a reader takes from any stub.

**Versions** (`PackedVersion.cpp`): `PackedVersions`.

**API records and their JSON form** (`API.cpp`, `APIJSONSerializer.cpp`): `ApiRecords`,
`ApiJson`, `ApiRoundTrip`, `ApiStore`. `ApiTexts` says text by text what the objects hold,
`ApiMerged` what becomes of names that come more than once, `ApiReadAgain` that whatever
was read can be written and read again. Object field names are an enumeration.

Some promised laws do not hold of the code on all inputs. Each is stated with the
exact condition under which it holds, and beside it stands an input that breaks it:

- freedom from leaks: `EmptyIffNothingLatched`, broken in `LatchedKeepsCaptured`;
- split and join: `SplitJoinIsIdentity`, `SplitJoinLoses`;
- merge: `MergeIdempotent`, `MergeForgets`; `MergeAssociative`, `GroupingShows`;
  `MergeCommutes`, `MergeOrderShows`;
- extraction and removal in trees: `ExtractedUmbrellas`, `ForeignUmbrella`;
  `RemovedTree`, `HiddenDocument`;
- the written form of version 4 depends on more than content: `WrittenAlike`,
  `OrderShows`; for the archive tool `StubsAgreeIff`, `InputOrderShows`;
- the round trip of version 4: `RoundTripIsIdentity`, `ExportedWeakChanges`; of versions
  2 and 3: `OldIsIdentity`, `PlatformLost`, `MisreadJoins`;
- the JSON form: `ApiBack`, `ProjectIvarFails`; `ApiKept`, `MethodsChangePlaces`.

Conventions and assumptions: words are naturals below 2^32 with bits read by
division; addresses are naturals; strings are sequences of characters, compared
character by character; architectures are numbers below 32 of which 14 is the unknown
one; LLVM's string splitting and number parsing are functions with their documented
behaviour; assertions of debug builds are off, so a symbol added again with other
flags keeps its first flags and clashing access levels keep the first.

## Model

| member | source | states |
|---|---|---|
| BlockTheorems.LiveIffReachable | blocks/src/runtime.c:285-439 | In every state that satisfies the invariant, outside a helper, a heap cell is allocated exactly when a claim, a latched count or a frame reaches it through captured fields: nothing owned is freed, nothing leaks |
| BlockTheorems.EmptyIffNothingLatched | blocks/src/runtime.c:414-496 | Once all copies are released and all frames have exited, the heap is empty if and only if no remaining count is latched: the exact condition for freedom from leaks |
| BlockTheorems.LatchedKeepsCaptured | blocks/src/runtime.c:145-158 | A run of copies that latches a block and of as many releases: everything is given back, and the block is still there together with an object it captured, whose own count never latched |
| BlockTheorems.NoPathToStack | blocks/src/runtime.c:312-326 | From a heap block no chain of captured blocks and variables, of any length, leads to a stack frame |
| BlockTheorems.ReleaseIsDetermined | blocks/src/runtime.c:459-482 | Any two states a release cascade may end in are equal: what is freed and every remaining count do not depend on the order of disposal |
| BlockRuns.OneHop | blocks/src/runtime.c:368-411 | Forwarding settles in one hop for every variable in every reachable state |
| BlockRuns.ReadsLastWrite | blocks/src/runtime.c:368-439 | Over any run of copies, releases, reads and writes, reading a variable through any surviving name gives the last value assigned through any name |
| BlockRuns.NamesAgree | blocks/src/runtime.c:368-439 | Over any run, two names denote one variable at the end exactly when they did at the start, and then show the same value |
| BlockRuns.StepValue | blocks/src/runtime.c:368-439 | One event changes the value of a variable exactly when it is a write through an alias |
| BlockRuns.YoungestIsReady | blocks/src/runtime.c:560-588 | A literal capturing what is ready to be copied is itself ready, so copying terminates by creation order |
| BlockRuns.WrittenKeepsInv | blocks/src/runtime.c:360-366 | Writing through the forwarding pointer keeps the whole-heap invariant |
| BlockClients.Client.Record | blocks/src/runtime.c:285-439 | Every call of an entry point with nothing under way extends the program's run by the event it stands for |
| BlockClients.RunGrows | blocks/src/runtime.c:285-439 | A run followed by one step is a run |
| BlockClients.Client.Read | blocks/src/runtime.c:360-366 | However a program came to this point through the entry points of the runtime, reading a name that has been there since some moment gives the last value assigned since then through any name |
| BlockLedger.RetainedKeepsInv | blocks/src/runtime.c:295-299 | A latching increment for one more claim keeps every count equal to its owners or latched |
| BlockLedger.ReleasedKeepsInv | blocks/src/runtime.c:463-464 | A latching decrement that leaves other owners keeps the invariant |
| BlockLedger.RetiredKeepsInv | blocks/src/runtime.c:465-475 | When the last owner goes, the fields of the dying cell become claims of its dispose helper, and the ledger still balances |
| BlockLedger.FreedKeepsInv | blocks/src/runtime.c:472-475 | Freeing a cell nobody owns keeps the invariant: no pointer that counts is left dangling |
| BlockLedger.MovedKeepsInv | blocks/src/runtime.c:377-385 | Moving a variable to the heap behind the forwarding pointer keeps the invariant with a count of two |
| BlockLedger.OwnedIsDurable | blocks/src/runtime.c:285-439 | Whatever is owned is allocated or a global block |
| BlockRuntime.Runtime.CopyInternal | blocks/src/runtime.c:285-326 | The result is one more owned reference to a deep copy of the argument, nothing else changes but counts and forwarding, and a stack block gets a fresh heap cell |
| BlockRuntime.Runtime.CopyStackBlock | blocks/src/runtime.c:312-326 | Clone, fix up every field, and hand the block to its first owner with a count of one |
| BlockRuntime.Runtime.CopyHelper | blocks/src/runtime.c:525-552 | The helper loop leaves every field of the new block a proper copy of the field in the literal, each with its own reference |
| BlockRuntime.Runtime.ObjectAssign | blocks/src/runtime.c:560-588 | For each of the documented field kinds the destination holds the object, the copied block or the shared variable, with the claim that belongs to it |
| BlockRuntime.Runtime.ByrefAssignCopy | blocks/src/runtime.c:368-411 | The field receives the heap home of the variable, moved there on the first call and retained on later ones, and the value seen through every name is unchanged; a first move gives the new cell the weak class exactly for flags of 24 |
| BlockRuntime.Runtime.MoveToHeap | blocks/src/runtime.c:373-400 | The first move leaves a new cell with two references, freed flag, own helper flags, the value of the old one and the class asked for, to which the old one forwards |
| BlockRuntime.Runtime.Release | blocks/src/runtime.c:459-482 | The caller's reference is gone; counts fall, dead cells disappear, and the measure of creation order makes the cascade end |
| BlockRuntime.Runtime.DisposeHelper | blocks/src/runtime.c:593-609 | The helper loop gives up exactly the references of the captured fields |
| BlockRuntime.Runtime.ObjectDispose | blocks/src/runtime.c:593-609 | Per field kind: gives up the object, the block, the share in a variable, or nothing for the flags of byref helpers |
| BlockRuntime.Runtime.ByrefRelease | blocks/src/runtime.c:414-439 | Gives up one reference to the variable wherever it lives; the underflow message cannot be reached |
| BlockRuntime.Runtime.Destroy | blocks/src/runtime.c:487-496 | As release, and nothing for a null pointer |
| BlockRuntime.Runtime.LatchingIncr | blocks/src/runtime.c:116-126 | The count of the cell goes up by one unless it is latched, and no flag changes |
| BlockRuntime.Runtime.LatchingDecr | blocks/src/runtime.c:145-158 | The count goes down by one unless it is latched or zero, and the new count is returned |
| BlockRuntime.Runtime.ReadVariable | blocks/src/runtime.c:360-366 | A read through the forwarding pointer gives the variable's one value |
| BlockRuntime.Runtime.WriteVariable | blocks/src/runtime.c:360-366 | A write through the forwarding pointer is the abstract write |
| BlockRuntime.Runtime.LeaveVariable | blocks/src/runtime.c:414-439 | When the scope of a variable ends its frame cell goes and its share in the heap copy is given up |
| FlagWord.IncrementWord | blocks/src/Block_private.h:50-60 | Adding one to the word below the latch raises the count and leaves every bit above bit 15 alone |
| FlagWord.DecrementWord | blocks/src/Block_private.h:50-60 | Subtracting one from a word with a count lowers the count and leaves every bit above bit 15 alone |
| FlagWord.CopiedWord | blocks/src/runtime.c:317-319 | Clearing the count, setting the malloc bit and a count of one gives the decoded flags of a fresh copy |
| FlagWord.MovedWord | blocks/src/runtime.c:383 | Or-ing in the initial byref value gives a heap variable with two references |
| LatchingCounter.Linearizes | blocks/src/runtime.c:116-158 | For any number of threads and any interleaving of load and swap: upper bits never change, and the count is the start plus successful increments minus successful decrements |
| LatchingCounter.CallsAccounted | blocks/src/runtime.c:116-158 | In any run every call has made exactly one successful swap, has loaded a value that excuses it (the latched word, or zero for a decrement), or is still in its loop |
| LatchingCounter.EveryCallCounts | blocks/src/runtime.c:116-158 | Once all threads are out, the count is the start plus the increments called minus the decrements called, not counting calls that met the latch or a zero: no update is lost |
| LatchingCounter.LatchIsForever | blocks/src/runtime.c:116-158 | Once all sixteen bits are set the word never changes again, in any interleaving |
| LatchingCounter.FailureMeansProgress | blocks/src/runtime.c:116-158 | A swap can fail only if another thread's swap succeeded since the load |
| LatchingCounter.StepKeepsInv | blocks/src/runtime.c:116-158 | One step of any thread keeps the counting invariant |
| LatchingCounter.FlagsCell.LatchingIncr | blocks/src/runtime.c:116-126 | Alone, the retry loop increments the decoded count, keeps the upper bits, and returns the new word or the mask |
| LatchingCounter.FlagsCell.LatchingDecr | blocks/src/runtime.c:145-158 | Alone, the retry loop decrements the decoded count, keeps the upper bits, and returns the new word, zero or the mask |
| SharedRelease.NextKeepsInv | blocks/src/runtime.c:459-482 | Every step of every thread (a load, a swap, one release of a dispose helper, handing a reference over, building a block) keeps the count of each unlatched block equal to the references to it |
| SharedRelease.RetainDelivers | blocks/src/runtime.c:295-299 | In any run, when a retain has returned its thread owns one more reference to the block than when it called, besides those handed to it meanwhile, and until then no more |
| SharedRelease.ReleaseTakes | blocks/src/runtime.c:459-482 | In any run a release takes exactly the one reference it was called with, at once, and nothing it disposes of brings its thread another |
| SharedRelease.LastReleased | blocks/src/runtime.c:463-472 | The swap that takes a count to zero makes its thread the one that disposes, and what the block holds passes to the dispose helper |
| SharedRelease.NoTouchAfterFree | blocks/src/runtime.c:459-482 | In any run with any number of blocks and threads, whatever a thread owns, is busy with or still has to release has not been freed |
| SharedRelease.NeverStuck | blocks/src/runtime.c:459-482 | A thread inside the runtime can always take its next step |
| SharedRelease.ReclaimedExactlyOnce | blocks/src/runtime.c:459-482 | When all references are given up, a block has been seen at zero, disposed of and freed exactly once, unless it latched or a block still there captured it, and then never |
| SharedRelease.NothingLeaks | blocks/src/runtime.c:459-482 | When all references are given up, everything ever built has been freed exactly once if and only if no count latched, however nested releases of several threads interleaved |
| SharedRelease.AtMostOnce | blocks/src/runtime.c:459-482 | At no moment of any run has a block been seen at zero or freed more than once, or have two dispose helpers run for it |
| InterfaceTheorems.SplitJoin | libtapi/lib/Core/InterfaceFile.cpp:242-485 | Merging the slice of an architecture with the rest restores targets, clients, re-exports, umbrellas, uuids and scalar fields, and every symbol with its availability renewed |
| InterfaceTheorems.SplitJoinIsIdentity | libtapi/lib/Core/InterfaceFile.cpp:242-485 | The split and join give back the file without its documents if and only if every symbol's availability was the default and every target has a known architecture |
| InterfaceTheorems.SplitJoinLoses | libtapi/lib/Core/InterfaceFile.cpp:242-485 | A file that split and join change: the target on which a symbol is unavailable is lost |
| InterfaceTheorems.MergeIdempotent | libtapi/lib/Core/InterfaceFile.cpp:384-485 | Merging a file with itself: exactly when that gives the file back |
| InterfaceTheorems.MergeForgets | libtapi/lib/Core/InterfaceFile.cpp:384-485 | A file that merging with itself changes: a symbol's unavailability is forgotten |
| InterfaceTheorems.MergeAssociative | libtapi/lib/Core/InterfaceFile.cpp:384-485 | Merging three files either way gives the same result, failures included, if and only if no symbol meets the access levels private, project and public in that order |
| InterfaceTheorems.GroupingShows | libtapi/lib/Core/InterfaceFile.cpp:384-485 | Three files with one symbol that end up public grouped one way and private grouped the other way |
| InterfaceTheorems.AccessAssociative | libtapi/include/tapi/Core/XPI.h:80-100 | Updating the access is associative except for that one triple |
| InterfaceTheorems.MergeCommutes | libtapi/lib/Core/InterfaceFile.cpp:384-485 | Merging two files either way gives the same content up to the path if and only if they agree on shared uuids, umbrellas and symbol attributes |
| InterfaceTheorems.MergeOrderShows | libtapi/lib/Core/InterfaceFile.cpp:384-485 | Two files with one symbol whose access depends on which comes first |
| InterfaceTheorems.OrderOfInputs | libtapi/lib/Driver/ArchiveDriver.cpp:142-158 | Permuting the further inputs of the archive merge does not change its outcome when they agree |
| InterfaceTheorems.ArchiveOrder | libtapi/lib/Driver/ArchiveDriver.cpp:142-158 | Any order of agreeing inputs gives the same content or the same failure; only the path can differ |
| InterfaceTrees.ExtractSucceeds | libtapi/lib/Core/InterfaceFile.cpp:242-297 | Over document trees of any depth, extract succeeds exactly when the top file has the architecture; the calls on documents cannot fail |
| InterfaceTrees.RemoveSucceeds | libtapi/lib/Core/InterfaceFile.cpp:299-382 | Remove succeeds exactly when the top file does not have only that architecture and it or a direct document has it |
| InterfaceTrees.ExtractedTree | libtapi/lib/Core/InterfaceFile.cpp:242-297 | Every target, client, re-export, uuid and symbol target anywhere in an extracted tree has the architecture |
| InterfaceTrees.ExtractedUmbrellas | libtapi/lib/Core/InterfaceFile.cpp:261-262 | Umbrellas are copied without a filter: they are all for the architecture exactly when those of the kept documents already were |
| InterfaceTrees.ForeignUmbrella | libtapi/lib/Core/InterfaceFile.cpp:261-262 | A file whose slice keeps an umbrella for another architecture |
| InterfaceTrees.RemovedTree | libtapi/lib/Core/InterfaceFile.cpp:360-379 | After removal no target in the tree has the architecture if and only if every document kept unexamined was free of it |
| InterfaceTrees.HiddenDocument | libtapi/lib/Core/InterfaceFile.cpp:284-379 | A nested document that removal leaves alone and extraction loses |
| InterfaceTrees.ExtractTwice | libtapi/lib/Core/InterfaceFile.cpp:242-297 | Extracting from an extracted tree changes nothing |
| SortedVectors.LowerBound | libtapi/lib/Core/InterfaceFile.cpp:79-101 | Binary search finds the first element not below the key |
| SortedVectors.TargetsCanonical | libtapi/lib/Core/InterfaceFile.cpp:91-101 | A strictly sorted target vector is determined by its set of targets |
| SortedVectors.PairsCanonical | libtapi/lib/Core/InterfaceFile.cpp:146-175 | A vector of pairs sorted by target is determined by the map it stands for |
| InterfaceFiles.AddTargetEntry | libtapi/lib/Core/InterfaceFile.cpp:91-101 | The vector stays strictly sorted and gains the target |
| InterfaceFiles.SetEntry | libtapi/lib/Core/InterfaceFile.cpp:163-175 | The vector stays strictly sorted and its map is updated, last writer wins |
| InterfaceFiles.SetUmbrella | libtapi/lib/Core/InterfaceFile.cpp:146-161 | As for uuids, and an empty name is ignored |
| InterfaceFiles.AddRefEntry | libtapi/lib/Core/InterfaceFile.cpp:79-89 | Finds the library by name or inserts it in order, with no targets yet |
| InterfaceFiles.AddLink | libtapi/lib/Core/InterfaceFile.cpp:134-144 | The library vector stays sorted in both levels and gains exactly one library-target pair |
| InterfaceFiles.AddFramework | libtapi/lib/Core/InterfaceFile.cpp:188-201 | A document goes to its place by name unless the name is taken |
| InterfaceFiles.FirstWriterWins | libtapi/lib/Core/InterfaceFile.cpp:188-207 | After inlining, a name stands for the document that was there before, or else for the first one added under it |
| InterfaceOperations.InterfaceFile.InlineFramework | libtapi/lib/Core/InterfaceFile.cpp:188-207 | The framework's own documents and then the framework itself are added, sorted order is kept, the first document of a name stays |
| InterfaceOperations.InterfaceFile.AddUUID | libtapi/lib/Core/InterfaceFile.cpp:163-175 | Updates the uuid map of the file and nothing else |
| InterfaceOperations.InterfaceFile.AddParentUmbrella | libtapi/lib/Core/InterfaceFile.cpp:146-161 | Updates the umbrella map of the file unless the name is empty |
| InterfaceOperations.InterfaceFile.AddAllowableClient | libtapi/lib/Core/InterfaceFile.cpp:134-138 | Adds one client-target pair |
| InterfaceOperations.InterfaceFile.AddReexportedLibrary | libtapi/lib/Core/InterfaceFile.cpp:140-144 | Adds one library-target pair |
| SymbolSets.AddAvailabilityInfo | libtapi/include/tapi/Core/XPI.h:102-115 | A listed target keeps its place and dates and becomes available on usable news; a new one is appended |
| SymbolSets.ArchitecturesOf | libtapi/include/tapi/Core/XPI.h:135-144 | The loop collects exactly the known architectures with a target on which the symbol is neither unavailable nor obsoleted |
| SymbolSets.XPISet.AddSymbolImpl | libtapi/lib/Core/XPISet.cpp:24-108 | The first writer decides linkage and flags, the access is updated either way |
| SymbolSets.XPISet.Add | libtapi/include/tapi/Core/XPISet.h:112-125 | Adding a symbol for a range of targets is the abstract addition on the map of symbols |
| SymbolSets.CopyExtracted | libtapi/lib/Core/InterfaceFile.cpp:278-282 | Visiting the symbols in any order yields the abstract restriction to one architecture |
| SymbolSets.CopyRemaining | libtapi/lib/Core/InterfaceFile.cpp:349-358 | Visiting the symbols in any order yields the abstract removal, dropping symbols not available elsewhere |
| SymbolSets.CopyAll | libtapi/lib/Core/InterfaceFile.cpp:472-482 | Visiting the symbols in any order yields the abstract join with what is there, and each symbol lists the targets it had before those it gains |
| InterfaceOperations.ExtractFile | libtapi/lib/Core/InterfaceFile.cpp:242-297 | The loops over the vectors and the recursion over documents compute the abstract extraction and keep every vector sorted |
| InterfaceOperations.RemoveFile | libtapi/lib/Core/InterfaceFile.cpp:299-382 | The loops over the vectors and the recursion over documents compute the abstract removal, errors included, and keep every vector sorted |
| InterfaceOperations.CompareFiles | libtapi/lib/Core/InterfaceFile.cpp:387-424 | The checks find exactly the first of the seven differences that keep two files from being merged |
| InterfaceOperations.MergeFiles | libtapi/lib/Core/InterfaceFile.cpp:384-485 | The checks and loops compute the abstract merge, with the first difference as the error, and each symbol's targets come in the order of the two files |
| InterfaceOperations.MergeArchive | libtapi/lib/Driver/ArchiveDriver.cpp:142-158 | The archive loop computes the fold of the abstract merge, and each symbol's targets come in the order of the inputs |
| InterfaceFields.LaterFileType | libtapi/lib/Core/InterfaceFile.cpp:427-428 | The merged file type is that of one of the two files, and neither pair of kind and version exceeds it lexicographically |
| InterfaceFields.LatestFileType | libtapi/lib/Driver/ArchiveDriver.cpp:142-158 | The archive tool's output has the file type of some input, and no input's pair of kind and version exceeds it |
| InterfaceFields.ArchiveScalars | libtapi/lib/Driver/ArchiveDriver.cpp:142-158 | All inputs that are merged have the header of the output, every recorded Swift version is the one it keeps, and its path is the first one's |
| InterfaceFields.ArchiveMembers | libtapi/lib/Core/InterfaceFile.cpp:431-470 | The output has a target, a client or a reexport exactly when some input has it |
| InterfaceFields.ArchiveUmbrella | libtapi/lib/Core/InterfaceFile.cpp:434-470 | Umbrella and uuid of a target are those of the last input that has one for it |
| InterfaceFields.ArchiveSymbol | libtapi/lib/Core/InterfaceFile.cpp:472-482 | The output has a symbol exactly when some input has it |
| InterfaceFields.ArchiveTargets | libtapi/lib/Core/InterfaceFile.cpp:472-482 | It lists a target for a symbol exactly when some input does |
| InterfaceFields.ArchiveFirst | libtapi/lib/Core/XPISet.cpp:24-44 | Linkage and flags of a symbol are those of the first input that has it |
| InterfaceFields.ArchiveAccess | libtapi/include/tapi/Core/XPI.h:80-100 | The access of a symbol is the first that an input states, except that a public one stated after a private one replaces it |
| InterfaceFields.RemovedSymbol | libtapi/lib/Core/InterfaceFile.cpp:362-379 | Removal keeps a symbol exactly when another known architecture has a target where it is neither unavailable nor obsoleted, on its targets of such architectures |
| InterfaceFields.ObsoletedIsRemoved | libtapi/lib/Core/InterfaceFile.cpp:362-379 | A file whose one symbol is obsoleted on its only target loses it when an architecture is removed |
| InterfaceCanonical.ContentFixesVectors | libtapi/lib/Core/InterfaceFile.cpp:79-175 | Files with the same content have the same vectors, entry by entry |
| InterfaceCanonical.Replay | libtapi/lib/Core/InterfaceFile.cpp:104-175 | After any sequence of additions the vectors are sorted and duplicate-free and agree with the sets and last-writer maps of the additions |
| InterfaceCanonical.AdditionOrder | libtapi/lib/Core/InterfaceFile.cpp:104-175 | Sequences with the same additions, and the same last uuids and umbrellas, give the same vectors |
| InterfaceCanonical.ArchiveVectors | libtapi/lib/Driver/ArchiveDriver.cpp:142-158 | Any order of agreeing inputs makes the archive tool write the same vectors |
| TextSections.WriteSection | libtapi/lib/Core/TextStubv4.cpp:290-328 | Whatever order symbols are visited in, each list of the section is sorted and holds a name as often as there are symbols to be written there under it |
| TextSections.EntriesAreSpots | libtapi/lib/Core/TextStubv4.cpp:290-328 | An entry is in the written sections if and only if it is some symbol's spot |
| TextSections.AllEntriesOnce | libtapi/lib/Core/TextStubv4.cpp:290-328 | No entry is in two places |
| TextSections.SectionsCanonical | libtapi/lib/Core/TextStubv4.cpp:276-328 | The sections are determined by the symbols' spots, also where several symbols share one |
| TextSections.OrderedCanonical | libtapi/lib/Core/TextStubv4.cpp:323-328 | Sorting leaves no choice: two ordered lists with the same names, repetitions counted, are equal |
| TextSections.ReadSections | libtapi/lib/Core/TextStubv4.cpp:376-405 | The reading loops add one fact per entry, in order |
| TextSections.ReadAllAt | libtapi/lib/Core/TextStubv4.cpp:376-405 | What several entries make of one symbol: the first decides its linkage and flags, the targets of all accumulate |
| TextSections.ReadWritten | libtapi/lib/Core/TextStubv4.cpp:276-405 | Reading written sections adds each symbol exactly once, as its spot describes it |
| TextStubV4.ListTotal | libtapi/lib/Core/TextStubv4.cpp:276-300 | Target lists are totally ordered, as the ordered set of lists needs |
| TextStubV4.WriteSymbols | libtapi/lib/Core/TextStubv4.cpp:276-335 | One section per target list in ascending order, for the exported, re-exported or undefined symbols |
| TextStubV4.WriteMetadata | libtapi/lib/Core/TextStubv4.cpp:224-274 | Libraries grouped by target list, lists ascending, names sorted |
| TextStubV4.MetadataKept | libtapi/lib/Core/TextStubv4.cpp:224-274 | The sections say which library counts for which target, and no more |
| TextStubV4.WriteUmbrellas | libtapi/lib/Core/TextStubv4.cpp:208-222 | Umbrellas grouped by name with sorted targets |
| TextStubV4.UmbrellasKept | libtapi/lib/Core/TextStubv4.cpp:208-222 | Reading the umbrella sections gives back the umbrella of every target |
| TextStubV4.ReadMetadata | libtapi/lib/Core/TextStubv4.cpp:362-372 | The nested loops add every named library for every target of its section |
| TextRoundTrip.Normalize | libtapi/lib/Core/TextStubv4.cpp:185-336 | The constructor of the normalized form writes every field and all sections |
| TextRoundTrip.Denormalize | libtapi/lib/Core/TextStubv4.cpp:338-412 | The reader computes every field of the file, with or without symbols |
| TextRoundTrip.WrittenOnce | libtapi/lib/Core/TextStubv4.cpp:185-336 | The written form of one stored file is the same in whatever pointer order its symbols are visited |
| TextRoundTrip.WrittenAlike | libtapi/lib/Core/TextStubv4.cpp:276-328 | Two files of the same content are written as the same stub if and only if every symbol that is written had its targets added in the same order |
| TextRoundTrip.FiledOnce | libtapi/lib/Core/TextStubv4.cpp:276-335 | Every available symbol is in exactly one list of exactly one section, and no other symbol is in any |
| StubTexts.StubTells | libtapi/lib/Core/TextStubv4.cpp:276-335 | A version 4 stub tells of exactly the symbols that are somewhere neither unavailable nor obsoleted: a bare name is in a list of a section if and only if the file has such a symbol of that kind, with the flags of that list and a linkage of that group of sections, on exactly the section's targets |
| StubReading.Understood | libtapi/lib/Core/TextStubv4.cpp:375-412 | From any version 4 stub, written here or not: the symbols read are those some list for their kind names, on the targets of all such sections, exported before reexported before external |
| TextRoundTrip.RoundTrip | libtapi/lib/Core/TextStubv4.cpp:185-412 | Writing and reading restores targets, uuids, umbrellas, clients, re-exports, scalars and their vectors exactly, and tells what becomes of every symbol |
| TextRoundTrip.SymbolRestored | libtapi/lib/Core/TextStubv4.cpp:376-405 | A symbol survives as it was if and only if its linkage, access, availability and flags are of the writable sort |
| TextRoundTrip.RoundTripIsIdentity | libtapi/lib/Core/TextStubv4.cpp:185-412 | A file comes back whole, path and documents aside, if and only if all its symbols are available and writable |
| TextRoundTrip.ExportedWeakChanges | libtapi/lib/Core/TextStubv4.cpp:395-400 | A file with one exported weakly defined symbol, written and read: the symbol comes back weakly referenced |
| TextRoundTrip.OrderShows | libtapi/lib/Core/TextStubv4.cpp:283-289 | Two files of the same content, one symbol each on the same two targets, whose stubs differ |
| ArchiveStubs.StubsAgreeIff | libtapi/lib/Driver/ArchiveDriver.cpp:142-158 | Agreeing inputs merged in two orders give the same version 4 stub if and only if every symbol that is written meets its targets in the same order either way |
| ArchiveStubs.InputOrderShows | libtapi/lib/Driver/ArchiveDriver.cpp:142-158 | Two agreeing inputs that give the same content and different version 4 stubs when they change places |
| ArchiveStubs.OldStubsAgree | libtapi/lib/Driver/ArchiveDriver.cpp:142-158 | In versions 2 and 3 agreeing inputs give the same stub in every order |
| TextStubV3.ArchsTotal | libtapi/include/tapi/Core/ArchitectureSet.h:174-176 | Architecture sets are totally ordered by their highest difference, as their bit values are |
| TextStubV3.SynthesizedTargets | libtapi/lib/Core/TextStub.cpp:371-386 | Exactly which targets are made up from architectures and platforms |
| TextStubV3.KeyReadBack | libtapi/lib/Core/TextStub.cpp:268-297 | A name is read as the symbol it was written for if and only if it is not a plain name that looks like an exception type in an old version |
| TextStubV3.WriteExports | libtapi/lib/Core/TextStub.cpp:237-307 | One export section per architecture set in ascending order, with its libraries in file order and its names sorted; OldStubTells says which texts these are |
| TextStubV3.WriteUndefineds | libtapi/lib/Core/TextStub.cpp:309-363 | One undefined section per architecture set in ascending order |
| StubTexts.OldStubTells | libtapi/lib/Core/TextStub.cpp:231-362 | In text: an older stub lists, in the section of its architectures, exactly the symbols that are somewhere neither unavailable nor obsoleted; before version 3 a class or instance variable behind an underscore and an exception type behind _OBJC_EHTYPE_$_ among the plain symbols, from version 3 on every kind in its list under its bare name, and global names always as they stand |
| StubTexts.OldFieldsTold | libtapi/lib/Core/TextStub.cpp:205-266 | An older stub names a library in a section exactly when the file has it on targets of exactly the section's architectures; its architectures and platforms are those of the targets |
| StubTexts.DeadIsNotWritten | libtapi/include/tapi/Core/XPI.h:160-166 | A file whose one symbol is unavailable or obsoleted on each of its targets is written without any section in all forms |
| StubTexts.LeastUmbrella | libtapi/lib/Core/TextStub.cpp:232-235 | The one umbrella written in an older stub is that of the least target by architecture, then platform |
| StubTexts.MadeUpTargets | libtapi/lib/Core/TextStub.cpp:371-386 | By number: which targets are made up, with simulators 7, 8 and 9 for platforms 2, 3 and 4 where there is an Intel architecture, and no i386 Catalyst |
| StubTexts.WordOfLeast | libtapi/lib/Core/TextStub.cpp:123-166 | The platform word is the name of the least platform, unless the file is for macOS and Catalyst together |
| StubTexts.WordsRead | libtapi/lib/Core/TextStub.cpp:168-205 | Each name is read as its platform, both names of Catalyst alike, and any other word as the unknown platform |
| StubReading.OldUnderstood | libtapi/lib/Core/TextStub.cpp:414-513 | From any older stub: the symbols read are those some text stands for, the first character of class and instance variable texts dropped and the exception type prefix understood before version 3, on the made-up targets of all such sections |
| StubReading.OldFieldsUnderstood | libtapi/lib/Core/TextStub.cpp:388-427 | From any older stub: version 1 means two-level namespace and extension safe whatever flags are there, the umbrella goes to every made-up target unless it is empty, and a library to the made-up targets of its sections |
| StubReading.UUIDUnderstood | libtapi/lib/Core/TextStub.cpp:396-398 | A target has the last uuid for its architecture |
| TextStubV3.NormalizeOld | libtapi/lib/Core/TextStub.cpp:211-364 | The constructor of the normalized form writes every field and all sections |
| TextStubV3.WriteStub | libtapi/lib/Core/TextStub.cpp:123-166 | The written file is the normalized form with one word for the platforms, and there is none when no word exists |
| TextRoundTripV3.DenormalizeOld | libtapi/lib/Core/TextStub.cpp:388-515 | The reader computes every field of the file from the made-up targets |
| TextRoundTripV3.ReadStub | libtapi/lib/Core/TextStub.cpp:168-202 | A stub is read with the platforms that its word tells, and not at all when the version does not know the word |
| TextRoundTripV3.PlatformWordKept | libtapi/lib/Core/TextStub.cpp:123-205 | The platform word can be read whenever it can be written, and exactly which platform sets it preserves |
| TextRoundTripV3.LibrariesRestored | libtapi/lib/Core/TextStub.cpp:414-426 | The libraries come back if and only if the targets of each can be made up from its architectures |
| TextRoundTripV3.UUIDsRestored | libtapi/lib/Core/TextStub.cpp:396-398 | The uuids come back if and only if all targets of an architecture share one uuid |
| TextRoundTripV3.UmbrellasRestored | libtapi/lib/Core/TextStub.cpp:232-235 | The umbrellas come back if and only if there is none or the same one for every target |
| TextRoundTripV3.ReadUnderIs | libtapi/lib/Core/TextStub.cpp:268-297 | A written symbol is read as itself, except that a misread plain name becomes an exception type |
| TextRoundTripV3.OldSymbolsBack | libtapi/lib/Core/TextStub.cpp:428-515 | All symbols that are read from what was written, name clashes included: each is the join of the symbols taken for it, exported if any of them is |
| TextRoundTripV3.OldRoundTrip | libtapi/lib/Core/TextStub.cpp:123-515 | A file comes back if and only if there is a word for its platforms, and then every field and symbol of it is told, read with the platforms of that word |
| TextRoundTripV3.MisreadJoins | libtapi/lib/Core/TextStub.cpp:432-439 | In version 2 a plain symbol whose name starts like an exception type is gone; the exception type is there instead, on the targets of both and exported if either was |
| TextRoundTripV3.OldIsIdentity | libtapi/lib/Core/TextStub.cpp:123-515 | Written and read, a file comes back whole, path and documents aside, if and only if there is a word for its platforms and, with the platforms the word tells, its targets, libraries, umbrella, uuids and symbols meet the stated conditions |
| TextRoundTripV3.PlatformLost | libtapi/lib/Core/TextStub.cpp:141-166 | A file for two platforms that comes back for one of them |
| TextRoundTripV3.SimulatorSurvives | libtapi/lib/Core/TextStub.cpp:371-386 | A file for a simulator that survives although the word tells another platform |
| TextRoundTripV3.OldWrittenOnce | libtapi/lib/Core/TextStub.cpp:244-363 | The written form is a function of the stored file, for every file |
| TextRoundTripV3.OldWrittenAlike | libtapi/lib/Core/TextStub.cpp:244-363 | The written form is a function of the content: neither the order of symbols nor that of their targets shows |
| PackedVersions.PackedVersion.Parse32 | libtapi/lib/Core/PackedVersion.cpp:28-60 | Accepts exactly one to three numeric fragments within their fields and records them; after a failure the fragments before the bad one stay recorded |
| PackedVersions.PackedVersion.Parse64 | libtapi/lib/Core/PackedVersion.cpp:62-107 | Accepts exactly the documented wider strings, records the clamped fields, and reports truncation exactly |
| PackedVersions.PackedVersion.Print | libtapi/lib/Core/PackedVersion.cpp:109-115 | The print is the text of the components shown; PrintedFragments, FewestFragments and PrintedIsShortest say which those are |
| PackedVersions.PrintedFragments | libtapi/lib/Core/PackedVersion.cpp:109-115 | One fragment is printed exactly when minor and subminor are zero, at most two exactly when subminor is zero |
| PackedVersions.FewestFragments | libtapi/lib/Core/PackedVersion.cpp:28-115 | No string that parse32 accepts and records as a version has fewer fragments than its print |
| PackedVersions.PrintedIsShortest | libtapi/lib/Core/PackedVersion.cpp:28-115 | No string that parse32 accepts and records as a version is shorter than its print |
| PackedVersions.PrintedSamples | libtapi/lib/Core/PackedVersion.cpp:109-115 | 0x10000 prints as 1, 0xA0E00 as 10.14 and 0xA0001 as 10.0.1 |
| PackedVersions.PrintThenParse | libtapi/lib/Core/PackedVersion.cpp:28-115 | Every 32-bit version is read back as it was printed |
| PackedVersions.PrintIsInjective | libtapi/lib/Core/PackedVersion.cpp:109-115 | Different versions print differently |
| PackedVersions.WideAgreesWithNarrow | libtapi/lib/Core/PackedVersion.cpp:28-107 | parse64 reports success without truncation exactly on the strings parse32 accepts, with the same version |
| PackedVersions.WideClamps | libtapi/lib/Core/PackedVersion.cpp:62-107 | What parse64 accepts is recorded component by component, each clamped to its field |
| PackedVersions.TruncatedMeansLoss | libtapi/lib/Core/PackedVersion.cpp:62-107 | The truncated flag is set exactly when a component or a fragment was lost |
| ApiRecords.OneRecordPerName | libtapi/lib/Core/API.cpp:134-178 | After any sequence of additions of globals there is one record per name: the first, with the lowest access and the highest linkage passed |
| ApiRecords.ExtremesArePassed | libtapi/lib/Core/API.cpp:134-148 | The lowest access and highest linkage were passed by some call and bound all others |
| ApiTexts.KeptAccess | libtapi/lib/Core/API.cpp:134-140 | What a name keeps of the accesses passed: none before project before private before public |
| ApiTexts.KeptLinkage | libtapi/lib/Core/API.cpp:142-148 | What a name keeps of the linkages passed: exported before reexported before external before internal |
| ApiStore.API.AddGlobal | libtapi/lib/Core/API.cpp:163-178 | Creates the record or lowers its access and raises its linkage |
| ApiMerged.StoredNames | libtapi/lib/Core/API.cpp:197-262 | However often names are repeated, each is stored once and none is lost |
| ApiMerged.StoredRecord | libtapi/lib/Core/API.cpp:197-208 | Of enum constants and of typedefs the first record of a name stays |
| ApiMerged.StoredProtocol | libtapi/lib/Core/APIJSONSerializer.cpp:940-991 | A protocol read several times has the first record and the methods, properties, variables and protocols of all in order |
| ApiMerged.StoredClass | libtapi/lib/Core/APIJSONSerializer.cpp:841-892 | So has an interface, with the superclass of the first and the exception mark of the last |
| ApiMerged.StoredCategory | libtapi/lib/Core/APIJSONSerializer.cpp:894-938 | So has a category, told apart by interface and name together |
| ApiJson.LocBack | libtapi/lib/Core/APIJSONSerializer.cpp:115-124 | Locations are read back as written, also when the file name contains colons |
| ApiTexts.LocSample | libtapi/lib/Core/APIJSONSerializer.cpp:115-124 | Line 3, column 14 of a.h is written a.h:3:14 |
| ApiJson.AvailabilityBack | libtapi/lib/Core/APIJSONSerializer.cpp:126-134 | Availability strings are read back as written, through the version printer and parser |
| ApiTexts.AvailabilitySample | libtapi/lib/Core/APIJSONSerializer.cpp:126-134 | Introduced in 10.14 is written i:10.14 o:0 u:0 |
| ApiJson.RecordBack | libtapi/lib/Core/APIJSONSerializer.cpp:167-195 | The common part of a record is read back from any object that carries it |
| ApiTexts.RecordTexts | libtapi/lib/Core/APIJSONSerializer.cpp:98-195 | The object of a record: the literal texts of linkage and access, location and availability text, true for each flag that holds, every default left out and nothing else |
| ApiTexts.GlobalTexts | libtapi/lib/Core/APIJSONSerializer.cpp:197-212 | And of a global: function, variable or no kind |
| ApiTexts.MethodTexts | libtapi/lib/Core/APIJSONSerializer.cpp:214-224 | And of a method: its optional and dynamic marks |
| ApiTexts.PropertyTexts | libtapi/lib/Core/APIJSONSerializer.cpp:226-252 | And of a property: the attribute texts that hold, its getter, and its setter unless it is read-only |
| ApiTexts.IvarTexts | libtapi/lib/Core/APIJSONSerializer.cpp:254-279 | And of an instance variable: private, protected, public or package under the access control key |
| ApiTexts.ControlTaken | libtapi/lib/Core/APIJSONSerializer.cpp:655-671 | Whatever object an instance variable is read from, its control is private or protected exactly as the access key says private or public; no other text is taken |
| ApiTexts.ProtocolTexts | libtapi/lib/Core/APIJSONSerializer.cpp:294-334 | The object of a container: its record, each non-empty list under its key with one object per element in order, methods by sort, and protocol names without empty ones |
| ApiTexts.ClassTextsSaid | libtapi/lib/Core/APIJSONSerializer.cpp:337-358 | And of an interface: superclass, exception mark and the names of its categories |
| ApiTexts.CategoryTextsSaid | libtapi/lib/Core/APIJSONSerializer.cpp:360-369 | And of a category: the name of its interface |
| ApiTexts.ChosenSplit | libtapi/lib/Core/APIJSONSerializer.cpp:301-318 | Instance and class methods together are all methods, as often as they occur |
| ApiTexts.DocumentSays | libtapi/lib/Core/APIJSONSerializer.cpp:460-484 | A document has its six lists, each left out when empty, with one object per record in order, and nothing else |
| ApiJson.GlobalBack | libtapi/lib/Core/APIJSONSerializer.cpp:673-704 | Globals come back as they were |
| ApiJson.PropertyBack | libtapi/lib/Core/APIJSONSerializer.cpp:226-252 | Properties come back, except for the setter of a read-only one |
| ApiJson.IvarBack | libtapi/lib/Core/APIJSONSerializer.cpp:655-671 | The control of an instance variable is read from its access; project access is an error |
| ApiRoundTrip.PartsBack | libtapi/lib/Core/APIJSONSerializer.cpp:294-334 | What becomes of a container's methods, properties, instance variables and protocols, and exactly when it cannot be read |
| ApiRoundTrip.ClassBack | libtapi/lib/Core/APIJSONSerializer.cpp:841-893 | Interfaces come back with superclass, linkage and exception attribute, and without categories |
| ApiRoundTrip.CategoryBack | libtapi/lib/Core/APIJSONSerializer.cpp:895-942 | Categories come back with their interface name |
| ApiStore.Serialize | libtapi/lib/Core/APIJSONSerializer.cpp:460-484 | Every non-empty list of records is under its key |
| ApiStore.API.Parse | libtapi/lib/Core/APIJSONSerializer.cpp:1107-1155 | The parser fails exactly when some array is malformed and otherwise adds all records in its order |
| ApiStore.LinkedAll | libtapi/lib/Core/API.cpp:227-246 | Reading interfaces before categories re-links every category to its interface, in order |
| ApiStore.ApiBack | libtapi/lib/Core/APIJSONSerializer.cpp:294-1165 | Writing an API and reading it fails exactly when an instance variable comes from a project header, and otherwise gives the same records in normal order |
| ApiStore.ProjectIvarFails | libtapi/lib/Core/APIJSONSerializer.cpp:655-671 | An API with one project instance variable: what is written of it cannot be read |
| ApiStore.PartsKept | libtapi/lib/Core/APIJSONSerializer.cpp:294-334 | A container comes back as it was if and only if its methods are in order, its read-only setters and protocol names are as required, and its controls follow the access |
| ApiStore.ApiKept | libtapi/lib/Core/APIJSONSerializer.cpp:294-1165 | An API comes back as it was if and only if every container does and every interface lists its categories in order |
| ApiStore.MethodsChangePlaces | libtapi/lib/Core/APIJSONSerializer.cpp:294-334 | An API whose two methods come back in the other order |
| ApiReadAgain.ReadAgain | libtapi/lib/Core/APIJSONSerializer.cpp:1107-1155 | Whatever document was read into an empty store, if no location in it lacks a file, the API has all that the round trip asks for, and what is written of it is read back as its normal form |

## Left out

- Garbage collection mode of the runtime, its callbacks, and `_Block_copy_collectable`: foreign code.
- Failing allocation, `Block_size`, the dump functions and all printing.
- C++ objects captured by blocks or held by `__block` variables: their constructors and destructors are not calls into the runtime.
- BlockRuntime.Runtime.ByrefAssignCopy: is modelled sequentially, because its check and copy are not atomic in the program; the payload of a moved variable is filled before the forwarding pointer is patched, which no other code can see.
- SharedRelease.Do: between threads only references to blocks are shared; captured objects, the forwarding of variables and the copying of literals are modelled sequentially, and addresses of freed blocks are not given out again.
- BlockRuntime.Runtime.CopyInternal: the flag that asks for a first reference matters only under garbage collection and is not a parameter.
- InterfaceOperations.InterfaceFile: documents are values, so two files that share a document by pointer, and a framework whose documents are emptied while another file holds it, are not distinguished.
- InterfaceOperations.InterfaceFile.AddUUID: the formatting of sixteen raw bytes as a uuid string is not modelled.
- `findSymbol`, `removeSymbol`, `contains` and the printing of symbols: one-line lookups.
- YAML text of stubs, with its defaults for absent keys; the text of a target, which prints bridgeOS as unknown; and version 1 stubs beyond the flags they imply.
- TextStubV3.WriteStub: asks for at least one target, because the program looks at the first platform without checking that there is one.
- TextRoundTripV3.DenormalizeOld: a class or instance variable name that is empty in an old stub stays empty; the program would assert.
- JSON text, the target triple, binary information (where the Swift ABI version is written and never read), potentially defined selectors, and the options that write only public or only exported records.
- ApiStore.API.Parse: says nothing of the store after a failure, when the program discards it.
- ApiRecords.Loc: locations that come from the compiler rather than from text, and declaration pointers.
- Mach-O readers, the file and interface file managers, the registry, diagnostics, the other archive actions and option handling: plumbing and lookups.
- Tables of architectures, platforms and CPU types: finite lookups.
- `mman` and `ld64/include`: wrappers and declarations without bodies to verify.
