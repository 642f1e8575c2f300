# A verified model of the remill tester

The remill tester runs recorded x86 instruction results against Remill's lifted semantics. A
converter turns a corpus into pooled text files, a reader turns them into rows, a backend lifts and
runs each row on a guest memory, and a comparator decides. This project models the parts that
decide what a pass means, and proves properties of them.

| file | models |
|---|---|
| Wrappers, Text, Numbers, BitLaws, Words, Remainders, LittleEndian, OrderedKeys, Expectation, XedMetadata | shared words, texts, numbers, key order and records |
| FlatMemory, GuestMemory | guest memory: a flat reference map with a sticky first fault, and the paged store that refines it |
| Intrinsics | memory intrinsics and atomics; lifted code is any finite list of calls that depends on the replies |
| X86TesterParser, HeaderScan | the line-driven reader and the header-only scan |
| PooledFormat, PooledReadable, ConvertTestVectors | the printed format, its round trip, which files are readable, and the test-vector writer |
| BitTest, PublicItems, PublicWriter, PublicReading | the public converter: bit tests, keys and values, union schemas, writing a group |
| PublicRoundTrip, PublicReadable, PublicValues, PublicConvert | its file read back: which files, which values, chunks and limits |
| BitTestExamples, HiddenBits, OwnMemory | hidden bit-string memory and own memory from converter to set-up |
| StateBridge | flags, x87 status, register files, initial state and snapshots |
| CaseRun, Backend | running one row, and the batched lift and JIT cache |
| RotateCounts, Comparator, Verdicts | shift and rotate counts, the comparison, and what a verdict can mean |
| SkipRules, Runner, RunnerLoop, RunnerCounts, RunnerCover, RunnerExact, RunnerExamples | skip predicates, the two passes of the runner, their books, and when the first covers the second |

Objects the program updates in place are classes (`GuestMemory`, `X86State`, `RemillBackend`,
`CompiledInstruction`, `OutputCorpus`, `OutputFile`, `Tester`), and its loops are methods with
invariants, each proved equal to a function on values. The theorems are about these functions.

Remill's decoder and lifter, and XED's decoder, are arbitrary functions of address and bytes. Bytes
are integers below 256 and words are integers with their modulus written out; bit vectors are used
for permissions and flags only.

Results that need a word of explanation:

- Hidden bit-test memory is not right for every row. A row with CF clear materialises nothing, and
  its bit string can reach the code page, where an opcode bit may be one. `HiddenBitReads` gives the
  exact condition and `OpcodeUnderBitString` a converted row that fails it.
- A negative element address is printed as `mem[0x-...]`, which the reader rejects, so one such row
  makes its whole file unreadable. `GroupReadsExactly` and `ConvertFile` give the exact condition on
  the rows, and `NegativeElementIsUnreadable` a row that fails it.
- The prepare pass does not cover the execute pass for every file: it counts declared rows and
  groups, the execute pass actual ones. `CoversExactly` gives the exact condition on these counts and
  on the decode keys met so far, for rows that run and without a failure that stops the run.
  `PrepareCoversExecute` proves the cover from the counts alone, for any rows and any results.
  `EmptyGroupBreaksCover` and `OverstatedCountBreaksCover` are the two ways to fail, and
  `EmptyGroupFile` is a file that does.
- When a malformed opcode text makes the backend throw, the rows defined before it stay pending. The
  cache invariant holds there too, and a later compile resolves them.

## Model

| member | source | states |
|---|---|---|
| `FlatMemory.AccessFault` | src/guest_memory.cpp:144-176 | an access raises nothing exactly when its range does not wrap and every byte of it is mapped with the required permission |
| `FlatMemory.BlockedAt` | src/guest_memory.cpp:156-174 | the fault of a blocked access: unmapped before permission, from the first blocked byte to the end of its page or of the range |
| `GuestMemory.GuestMemory.Map` | src/guest_memory.cpp:16-37 | on the paged store equals mapping a flat range: whole pages, zeros only where nothing was mapped, permissions replaced, a wrapping range refused with a fault; the page loop ends also at the last page of the address space |
| `GuestMemory.GuestMemory.CheckAccess` | src/guest_memory.cpp:144-176 | the chunk walk finds a fault exactly when the flat range has a blocked byte, and records that one, also for ranges ending at 2^64-1 |
| `GuestMemory.GuestMemory.Write` | src/guest_memory.cpp:39-71 | writes every byte of the flat range or none, across pages, and nothing outside it |
| `GuestMemory.GuestMemory.Read` | src/guest_memory.cpp:73-101 | returns the flat slice when all of it is readable, else zeros, and never changes a byte |
| `GuestMemory.GuestMemory.SetFault` | src/guest_memory.cpp:178-185 | only the first fault is kept |
| `GuestMemory.GuestMemory.SetUnsupported` | src/guest_memory.cpp:103-106 | an unsupported intrinsic leaves its name as the first fault, if there is none yet |
| `GuestMemory.WithChunkIsPoke` | src/guest_memory.cpp:61-69 | copying one chunk into a page is a write to the flat map of exactly its addresses |
| `GuestMemory.WithPageIsCover` | src/guest_memory.cpp:30-35 | mapping one page covers exactly its 4096 addresses |
| `LittleEndian.ComposeBytes` | src/guest_memory.hpp:65-69 | the shift-and-or loop yields the little-endian value of the bytes |
| `LittleEndian.OrNextByte` | src/guest_memory.hpp:67-69 | OR-ing in the next shifted byte is adding it, because the bytes below leave its bits clear |
| `LittleEndian.DecomposeValue` | src/guest_memory.hpp:76-81 | the shift-and-mask loop yields the low bytes of the value, also of a negative one |
| `LittleEndian.ComposeDecompose` | src/guest_memory.hpp:56-83 | composing the decomposed bytes of a value gives it back up to the bits above the width |
| `LittleEndian.DecomposeCompose` | src/guest_memory.hpp:56-83 | decomposing a composed value gives the bytes back |
| `Intrinsics.ReadLittleEndian` | src/guest_memory.hpp:56-72 | reads a word of 1, 2, 4 or 8 bytes from paged memory as from flat memory, zero when it faults |
| `Intrinsics.WriteLittleEndian` | src/guest_memory.hpp:74-83 | stores a truncated word in paged memory as in flat memory |
| `Intrinsics.Execute` | src/remill_intrinsics.cpp:24-80 | every intrinsic call on the paged store has the effect and the reply it has on flat memory |
| `Intrinsics.Invoke` | src/remill_intrinsics.cpp:24-80 | every finite run of intrinsic calls on the paged store ends in the state and memory of the flat run |
| `Intrinsics.StepKeepsFirstFault` | src/guest_memory.cpp:178-185 | one call leaves the recorded fault alone or records the first one it meets |
| `Intrinsics.RunKeepsFirstFault` | src/guest_memory.cpp:178-185 | after any run the recorded fault is the first one met since set-up; later faults change nothing |
| `Intrinsics.StoreWord` | src/guest_memory.hpp:74-83 | a stored word reads back modulo its width and no byte outside its range changes |
| `Intrinsics.FetchAndOpIs` | src/remill_intrinsics.cpp:40-53 | fetch-and-op returns the old word and stores the operator's result modulo 2^w, on any readable and writable range, also across pages |
| `Intrinsics.CompareExchangeIs` | src/remill_intrinsics.cpp:55-69 | compare-exchange is the sequential specification: store on equality, else report the current word |
| `Intrinsics.FetchAndOpUndone` | src/remill_intrinsics.cpp:359-371 | add then sub, sub then add and xor twice with one operand restore the whole memory |
| `Intrinsics.CombineUndone` | src/remill_intrinsics.cpp:359-371 | undoing an operator modulo the width gives back every word of the width |
| `Text.Split` | src/x86tester_parser.cpp:23-36 | the scanning loop cuts a text at every delimiter |
| `Text.SplitJoin` | src/x86tester_parser.cpp:23-36 | splitting undoes joining when no piece holds the delimiter |
| `Numbers.ParseDecimal` | src/x86tester_parser.cpp:38-45 | every 64-bit integer printed in decimal reads back |
| `Numbers.ParseHexLiteral` | src/x86tester_parser.cpp:38-45 | every 64-bit integer printed as 0x... reads back in base 0 |
| `Numbers.ParseHexBytes` | src/x86tester_parser.cpp:344-370 | the nibble loop reads the byte string that pairing the digits gives, with the same errors |
| `Numbers.HexRoundTrip` | src/x86tester_parser.cpp:344-370 | reading the hex text of any byte string gives the bytes back |
| `X86TesterParser.ParseIndexList` | src/x86tester_parser.cpp:182-227 | the loop yields exactly the listed indices, each inside the pool and as many as the schema, or the first error |
| `X86TesterParser.ApplySchemaValues` | src/x86tester_parser.cpp:229-245 | adds the pooled values of a schema in order, up to the first error |
| `X86TesterParser.ParseFile` | src/x86tester_parser.cpp:447-534 | the line loop computes the fold of the per-line transition, with every error in its place |
| `X86TesterParser.ParseInstructionHeaders` | src/x86tester_parser.cpp:407-445 | the header-only loop collects every header line in order, numbered from one |
| `PooledFormat.RoundTrip` | src/x86tester_parser.cpp:447-534 | reading the printed lines of any well-formed file succeeds without a warning and yields one row per printed row with the values its pool indices name |
| `PooledFormat.TextRoundTrip` | src/x86tester_parser.cpp:447-534 | the same for the written text, cut at its line ends: no printed line holds one |
| `PooledReadable.RowTextReads` | src/x86tester_parser.cpp:247-300 | a printed row is accepted exactly when its input keys and, unless it raises, its output keys are no memory keys without a 64-bit address |
| `PooledReadable.FileReads` | src/x86tester_parser.cpp:447-534 | the reader accepts a printed file exactly when it accepts each of its rows |
| `PooledReadable.FileReadsExactly` | src/x86tester_parser.cpp:447-534 | when every key has a value somewhere, the written text is accepted exactly when every key of every schema is readable, and then it means what was printed |
| `PooledFormat.HeaderRoundTrip` | src/x86tester_parser.cpp:73-100 | a printed group header parses to its address, opcode, assembly, row count and both schemas |
| `PooledFormat.RowRoundTrip` | src/x86tester_parser.cpp:247-300 | a printed row parses to its own input values and its own outputs or exception |
| `PooledFormat.SideHolds` | src/x86tester_parser.cpp:131-180 | a side has exactly the registers of its pairs, each with its own bytes under its canonical key, and memory cells keep their order |
| `HeaderScan.ScanAgreesWithParse` | src/x86tester_parser.cpp:407-534 | on every file the full parse accepts the header scan succeeds with the same headers and ids; test cases count from 0, state indices restart in each group, and the warnings are exactly the groups whose declared and actual counts differ |
| `ConvertTestVectors.OutputCorpus.PoolIndex` | tools/convert_test_vectors.py:64-70 | interning returns the index of the value; the pool only grows, at its end, and stays inverse to its index map |
| `ConvertTestVectors.OutputCorpus.AddRow` | tools/convert_test_vectors.py:72-98 | appends one row to the group of its key, or to a new last group, and keeps every earlier row naming its own values |
| `ConvertTestVectors.OutputCorpus.Write` | tools/convert_test_vectors.py:100-112 | writes the lines of the pool and of every group in order |
| `ConvertTestVectors.GroupingKeepsCalls` | tools/convert_test_vectors.py:72-98 | grouping loses no call and repeats none |
| `ConvertTestVectors.WriteThenRead` | tools/convert_test_vectors.py:64-112 | for every sequence of delimiter-free calls, the written text parses exactly when all memory keys name a 64-bit address, and then gives one row per call, in group order, with exactly the call's own bytes, exception, address and opcode |
| `ConvertTestVectors.Convert` | tools/convert_test_vectors.py:64-112 | the whole writer, from calls to a text that reads back exactly then and so |
| `BitTest.SignExtendIs` | tools/convert_public_parquet.py:186-189 | the one number in the register's signed range that agrees with the value modulo 2^w |
| `BitTest.ElementsIdenticalOrDisjoint` | tools/convert_public_parquet.py:247-256 | any two elements of one instruction are the same bytes or share none |
| `BitTest.ElementAvoidsMem0` | tools/convert_public_parquet.py:247-253 | an element that is not inside the 8-byte mem0 cell does not overlap it |
| `BitTest.TargetInElement` | tools/convert_public_parquet.py:242-248 | the byte and bit that floor DIV and MOD by 8 name lie in the element, at the computed bit index |
| `BitTest.OneBitDecomposed` | tools/convert_public_parquet.py:255-256 | the materialised value has its one bit in exactly one byte |
| `BitTest.CellHoldsCarry` | tools/convert_public_parquet.py:208-256 | a materialised cell holds a one at the target bit |
| `PublicItems.MemoryKeyReads` | tools/convert_public_parquet.py:168-171 | the reader takes a printed memory key back exactly when its address is in 0..2^64-1, and as that address |
| `PublicItems.MemoryKeyInjective` | tools/convert_public_parquet.py:168-171 | distinct addresses print distinct keys |
| `PublicWriter.InstructionFitsPage` | tools/convert_public_parquet.py:175-183 | for a page-aligned entry and a 0x1000 page, every opcode of at most 0x1000 bytes lies inside the one mapped code page |
| `PublicWriter.OutputFile.Intern` | tools/convert_public_parquet.py:266-281 | interning cleans the text, rejects odd or non-hex values, and keeps the pool append-only, duplicate-free and inverse to its index |
| `PublicWriter.OutputFile.SchemaIndices` | tools/convert_public_parquet.py:413-429 | the indices name, in schema order, the row's value or its default; a key with neither is the error |
| `PublicWriter.MapCase` | tools/convert_public_parquet.py:464-500 | the first loop builds the union schemas, the zero defaults and one map per row and side, or the first duplicate-key error |
| `PublicWriter.OutputFile.WriteGroup` | tools/convert_public_parquet.py:432-527 | appends one group whose rows name the widened values of the test case, or fails with the widening's error |
| `PublicReading.UnionKeys` | tools/convert_public_parquet.py:392-396 | a union schema has each key of each row exactly once |
| `PublicReading.DefaultsAre` | tools/convert_public_parquet.py:484-486 | exactly the memory keys of the group have a default: zeros, as many as some row's value has bytes |
| `PublicReading.WidenedRowsAreOwn` | tools/convert_public_parquet.py:432-527 | whenever widening succeeds, each row holds all of its own items and, elsewhere, only zeros under memory keys that other rows have; outputs are exactly its own |
| `PublicReading.WidensExactly` | tools/convert_public_parquet.py:432-527 | a group is written exactly when its opcode is paired hex digits, no row names a key twice, every row has every initial register and every row that does not raise every final key |
| `PublicRoundTrip.PublicFileReads` | tools/convert_public_parquet.py:432-527 | the reader accepts the written text exactly when every key of every group is readable, and then without a warning and with one row per widened row, holding the widened values |
| `PublicReadable.GroupReadsExactly` | tools/convert_public_parquet.py:168-256 | the keys of a group are readable exactly when mem0, wherever a row has a serialised cell, and the element address of every row that materialises one are in 0..2^64-1 |
| `PublicReadable.CleanCaseWidens` | tools/convert_public_parquet.py:432-527 | a delimiter-free test case widens to a delimiter-free group, in which every key has a value in some row |
| `BitTestExamples.NegativeElementIsUnreadable` | tools/convert_public_parquet.py:247-256 | BT with a 64-bit offset of -2^63 and CF set is written without an error, and the reader refuses every file that holds its group alone |
| `PublicValues.ValueReads` | tools/convert_public_parquet.py:127-146 | a printed value reads back modulo 2^64, flags modulo 2^32, also negative ones |
| `PublicValues.RowsReadTheirOwnState` | tools/convert_public_parquet.py:432-527 | the scalar and byte registers of a parsed row are exactly those of its own initial and final state, with their values modulo 2^64 (flags modulo 2^32), and its exception is its own |
| `PublicValues.RowsReadTheirOwnMemory` | tools/convert_public_parquet.py:432-527 | the memory a parsed row sets up is exactly its own cells, with their bytes, and zeros where only other rows have memory; the memory it checks is exactly its own final memory |
| `HiddenBits.HiddenBitReads` | tools/convert_public_parquet.py:208-256 | after conversion, parsing and set-up, the bit at the signed register offset from mem0 is the row's CF if and only if some row of the group materialises the element, or the target byte is not an opcode byte, or the opcode has a zero there; with CF set the first always holds |
| `OwnMemory.OwnMemorySurvives` | tools/convert_public_parquet.py:432-527 | after conversion, parsing and set-up every byte of a row's own memory, the 8-byte mem0 cell and the materialised element, is in memory as the row has it: zero fills for other rows' memory overwrite none of it |
| `HiddenBits.OpcodeUnderBitString` | tools/convert_public_parquet.py:252-254 | with the default addresses a converted and parsed BT row with CF clear can reach an opcode bit that is one: all demands of HiddenBitReads hold there and the loaded bit is not CF |
| `PublicConvert.RunsAreMaximal` | tools/convert_public_parquet.py:553-580 | the runs are the rows in order, each of one test case, neighbours of different ones |
| `PublicConvert.TakeRow` | tools/convert_public_parquet.py:553-580 | one row joins the open group or closes it, and the limits stop the loop exactly at the limit |
| `PublicConvert.Convert` | tools/convert_public_parquet.py:530-595 | for every chunk size and limit, exactly the first min(limit, n) rows are written, one group per maximal run, and the counters are the numbers of runs and rows; it fails exactly when one of these runs does |
| `PublicConvert.ConvertFile` | tools/convert_public_parquet.py:285-595 | conversion and flush together: for delimiter-free rows the text of the file parses exactly when all memory addresses of the written rows are in 0..2^64-1, and then to one row per written row, holding the widened values |
| `StateBridge.FlagsRoundTrip` | src/remill_state_bridge.cpp:240-271 | the packed flags read back as f with the always-one bit 1 set, for every 64-bit f, section 3.4.3 of Intel SDM Vol. 1 |
| `StateBridge.ArithFlagsWin` | src/remill_state_bridge.cpp:252-271 | the seven arithmetic flags lifted code leaves decide their bits of the packed word |
| `StateBridge.X87StatusRoundTrip` | src/remill_state_bridge.cpp:166-197 | the x87 status word reads back without its busy and summary bits, section 8.1.3 of Intel SDM Vol. 1 |
| `StateBridge.X87StatusReadsBack` | src/remill_state_bridge.cpp:166-197 | what an initial state sets is v & 0x7f7f, and that is what a snapshot shows |
| `StateBridge.ParseByteRegisterName` | src/remill_state_bridge.cpp:21-79 | an accepted name has an index inside its register file and a size that fits its slot |
| `StateBridge.X86State.SetByteRegister` | src/remill_state_bridge.cpp:199-217 | writes the front of one slot when the name and the size are right, else nothing |
| `StateBridge.X86State.ApplyInitialState` | src/remill_state_bridge.cpp:273-322 | applies scalars then bytes, each in key order, and reports the first key it cannot apply |
| `StateBridge.ScalarsApplied` | src/remill_state_bridge.cpp:273-297 | after the scalars every register, the flags and the x87 status hold what the last key naming them gives, else what they held; register files are untouched |
| `StateBridge.LatestKeyWins` | src/remill_state_bridge.cpp:299-320 | of all given registers that cover a byte the latest in key order decides it; uncovered bytes and all other registers keep their values |
| `StateBridge.WiderIsLater` | src/remill_state_bridge.cpp:299-320 | a wider vector register comes later in key order |
| `StateBridge.WidestVectorShows` | src/remill_state_bridge.cpp:299-350 | after an initial state, a snapshot of any width of vector register N shows the front of the widest of xmmN, ymmN and zmmN that was given |
| `StateBridge.SnapshotIs` | src/remill_state_bridge.cpp:324-338 | a snapshot holds the asked-for registers the state has, with their values, and nothing else |
| `StateBridge.SnapshotBytesIs` | src/remill_state_bridge.cpp:340-350 | the same for byte registers |
| `Backend.DecodeKeyInjective` | src/remill_backend.cpp:48-50 | two rows share a decode key only if they have the same address and opcode |
| `Backend.FunctionNameInjective` | src/remill_backend.cpp:52-56 | function names differ when their ids do |
| `Backend.SymbolsDiffer` | src/remill_backend.cpp:52-56 | in every valid state distinct cached entries have distinct symbols |
| `Backend.RemillBackend.FinalizePendingModule` | src/remill_backend.cpp:324-358 | resolves every pending entry to the code of its own row, changes no resolved entry, and leaves nothing pending |
| `Backend.RemillBackend.DefineInPendingModule` | src/remill_backend.cpp:360-427 | caches a success or a failure that is right for the row and keeps the invariant: caches disjoint, pending list duplicate-free and exactly the unresolved entries, names distinct |
| `Backend.RemillBackend.PrepareCases` | src/remill_backend.cpp:429-444 | prepares all rows or throws exactly when some opcode is not hex, and never changes a resolved entry |
| `Backend.RemillBackend.Compile` | src/remill_backend.cpp:446-473 | returns what compiling the row on its own returns, whatever was prepared or compiled before |
| `Backend.Session` | src/remill_backend.cpp:324-473 | over every interleaving of PrepareCases and Compile the outcomes are those of compiling on demand |
| `Backend.RunCompiled` | src/remill_backend.cpp:167-233 | set-up, run, read-back and classification on the real state and paged memory equal the specification over flat memory |
| `Backend.RemillBackend.RunCase` | src/remill_backend.cpp:137-233 | the result of a row depends only on the row and the keys asked for |
| `CaseRun.MapThenWrite` | src/remill_backend.cpp:182-187 | mapping and writing one range that does not wrap never faults and shows the bytes over what was there |
| `CaseRun.SetUpImage` | src/remill_backend.cpp:177-187 | when the code fits its page and no cell wraps, set-up does not fault and memory is the last-writer-wins fold of opcode and cells over zeroed pages |
| `CaseRun.ReadBackIs` | src/remill_backend.cpp:191-200 | the read-back gives one observation per expectation, with its address, size and mask |
| `CaseRun.FaultTextHasBlank` | src/remill_backend.cpp:216-220 | a fault text always holds a blank, so it is never mistaken for an exception kind |
| `Verdicts.ExceptionRowsPassForOneReason` | src/remill_backend.cpp:202-223 | for every run of intrinsics and every kind without a blank, an exception row passes if and only if compile and initial state succeed and the first fault since memory creation is the error intrinsic |
| `Verdicts.NormalRowsPassExactly` | src/comparator.cpp:169-281 | a row without an exception passes if and only if it compiles, its initial state applies, nothing faults from set-up on, every expected cell can be read, and registers, compared flags, byte registers and masked memory of the final state are as expected |
| `Verdicts.NothingIsMissing` | src/comparator.cpp:185-281 | for a normal result, missing memory, a wrong address or size and a missing byte state cannot be reported, and a missing scalar only for a key the state does not have |
| `Comparator.MismatchesExact` | src/comparator.cpp:144-281 | no mismatch is recorded exactly when the declarative relation holds: scalars, flags under the care mask, byte registers and masked memory |
| `Comparator.CompareExecutionResult` | src/comparator.cpp:144-281 | the loops record exactly these mismatches in order, and the row passes iff there is none |
| `Comparator.IdleRotateComparesNothing` | src/comparator.cpp:109-140 | when a rotation moves nothing no flag is compared, unless initial flags were given |
| `RotateCounts.EffectiveIsReduced` | src/comparator.cpp:91-107 | the effective count is the masked count modulo the number of rotated bits, also in the branch that does not reduce |
| `RotateCounts.RotatedBit` | src/comparator.cpp:91-98 | after n one-bit rotations position i holds bit i - n or i + n modulo the width |
| `RotateCounts.RotateCountIsSound` | src/comparator.cpp:78-107 | ROL and ROR: the effective count rotates every word as the masked count does, and is 0 iff that leaves every word alone |
| `RotateCounts.RotateCarryCountIsSound` | src/comparator.cpp:78-107 | RCL and RCR: the same for the word and the carry together, over w+1 bits |
| `SkipRules.BareSkipImpliesSkip` | src/tester_main.cpp:438-482 | a header that is skipped bare is skipped with every state |
| `Runner.BooksBalance` | src/tester_main.cpp:911-1022 | on every execute run, early stops included: selected rows are passed, failed or skipped, skip reasons and per-mnemonic counts add up, limits hold, and cached metadata is a fresh decode of the row's own address and opcode |
| `RunnerCover.GroupKeyInjective` | src/tester_main.cpp:122-125 | group keys of different files or ids differ |
| `RunnerCover.CorpusIsGroups` | src/tester_main.cpp:921-948 | a parsed corpus is its groups one after the other, each with its own header |
| `RunnerCover.PrepareCoversExecute` | src/tester_main.cpp:838-996 | for every filter and limit, with distinct paths under a limit of instructions: when at no group with rows the declared counts before it are over a limit and the actual ones are not, every row handed to RunCase was prepared, unless its class is one of the six excluded |
| `RunnerExact.CoversExactly` | src/tester_main.cpp:838-996 | where every row runs and no failure stops the run, every row handed to RunCase was prepared if and only if, at each group with rows where the prepare pass is over a limit and the execute pass is not, the prepare pass took the address and opcode of that group before; corpora that repeat an instruction included |
| `RunnerExact.CoversApartExactly` | src/tester_main.cpp:838-996 | where moreover no two headers share a decode key, if and only if the prepare pass is over a limit only where the execute pass is |
| `RunnerExamples.EmptyGroupFile` | src/tester_main.cpp:838-996 | the lines of a file with an empty group and a group of one row, read and walked by both passes with a limit of one instruction: the row runs and was not prepared |
| `RunnerCover.TruthfulFilesAreCovered` | src/tester_main.cpp:838-996 | every row handed to RunCase was prepared, unless excluded, when no header declares more rows than it has under a limit of states and none is empty under a limit of instructions, among those the filters let through |
| `RunnerCounts.CleanFilesAreTruthful` | src/tester_main.cpp:838-996 | files without parse warnings and without empty groups meet the demand of every filter and limit on declared counts |
| `RunnerCover.EmptyGroupBreaksCover` | src/tester_main.cpp:860-885 | under a limit of instructions an empty group breaks the cover: it uses up the limit in the prepare pass only |
| `RunnerCover.OverstatedCountBreaksCover` | src/tester_main.cpp:860-885 | under a limit of states a header that declares a row it does not have breaks the cover in the same way |
| `RunnerCover.ParsedRowsAreRunnable` | src/x86tester_parser.cpp:73-100 | every row the reader accepts has a hex opcode, so neither pass can throw on it |
| `RunnerLoop.PreparePass` | src/tester_main.cpp:838-898 | the prepare loops walk headers, filters and limits as the specification does |
| `RunnerLoop.Tester.ExecutePass` | src/tester_main.cpp:911-1022 | the execute loops, on the real backend and comparator, compute the specified state |
| `RunnerLoop.Run` | src/tester_main.cpp:792-1022 | the whole run: preparing in a batch first changes nothing in the summary, and the final state balances |

## Left out

- RemillBackend.PrepareCases: runs in which LLVM, the JIT or Remill's architecture set-up fails are not modelled; after such a failure the pending list outlives its module.
- FunctionNameInjective: function ids are unbounded; the 64-bit counter's wrap-around is not modelled.
- Null pointers: null buffers, a null memory handle, null row pointers and a null state in the intrinsics.
- The synchronous hypercall that sets ZF from a selector, as a step of its own: its change of state is one that lifted code, an arbitrary function of the state, may make; its unsupported branch is a call that leaves its name.
- Symbol registration, helper intrinsics under `helpers/`, barriers and the intrinsics that return their argument.
- UTF-8: a text is a sequence of characters, so `isspace` is never asked about a byte above 127.
- Error texts of the reader: kinds of error are modelled, not their path and line prefix.
- Numbers of more digits than 64 bits in `std::from_chars`, which give no value either way.
- OutputFile.WriteGroup: instruction addresses outside 0..2^64-1 are a precondition, because a group header stores a 64-bit address.
- The per-mnemonic output files of both converters: one output file is modelled, up to its text; file names and overwriting are file system work.
- JSON parsing: a state is a list of key and integer pairs; an object's values are taken after Python's `int`.
- White space in Python's `split` and `strip` beyond the six characters of the C locale.
- DuckDB queries and validation, downloads, option parsing, usage text, reports, printing and `JsonEscape`.
- Comparison texts: a mismatch has its field, values, mask and kind, not the printed detail.
- Runner.BooksBalance: undefined-flag mention counters and printed instruction lines are not modelled; neither affects a verdict.
- X87 arithmetic, denormals and descriptor tables decide skips only.
- Reset and ClearStatus of guest memory, which no run calls.
