# A model of the ART ahead-of-time linker

These Dafny modules model the back end that turns compiled methods and heap objects into an oat
file, an ELF file and a boot image, and the tool that relocates the result. Each part that works by
changing fields, vectors or bytes is a class or a method with loops, proved against functions on
values; the theorems are about those functions, for all inputs or all runs.

- **Linking code** (`Words`, `RelativeCalls`, `CodeLayout`, `CodeWriting`, `CodeAgreement`,
  `CodePlacement`, `ThunkReach`, `ThunkNeed`, `CallsLand`, `MethodCode`, `MissedThunk`, `SharedCalls`,
  `OatWriter`, `DedupeOrder`). Two passes over the methods must agree on every offset, although code is
  shared between methods and the second pass may write branch islands (thunks) earlier than the first
  one reserved them. Thunks are placed so that every relative call reaches something, and only where some call needs one; the calls
  written branch there. Whatever code is shared, each method's own code is found at its offset.
- **Maps and relocation** (`OatMaps`, `OatFile`, `Relocation`). Map offsets survive being stored as 32-bit
  differences and fixed up twice; relocating linked text equals linking it elsewhere.
- **Debug lines** (`Leb128`, `LineMachine`, `LineProgram`, `SourceMaps`, `DebugLines`). The emitted
  line number program is run on the state machine of section 6.2 of DWARF Version 4.
- **ELF** (`ElfSymbols`, `ElfSymtab`, `ElfLayout`). The hash table of the System V ABI, chapter 5,
  answers lookups like a linear search; the pieces of the file never overlap.
- **Image** (`ImageLayout`, `ImageWalk`, `ImageWriter`, `StringPacking`). A depth-first walk over a
  possibly cyclic heap gives every object one place; strings share the characters of their prefixes.
- **Smaller structures** (`GcMap`, `Barrier`, `Streams`). An open-addressing table in a byte vector,
  a condition-variable protocol as a state machine, and a buffered stream.

`dafny verify dfyconfig.toml` checks the whole project.

## What the model found

- A following thunk exactly `max_positive_displacement_` away is good enough for the reservation
  (lines 154 and 233 of compiler/oat_writer.cc compare with `>`) but not for the patcher (line 209
  compares with `<`). `EveryCallLands` shows that this is the only way to miss, and
  `ThunkAtTheLimitIsMissed` gives a file in which it happens. Whether a call can be affected shows in
  its offset in its method (`CallsOffTheLimitLand`).
- Space is reserved, and calls are queued, for a method before it is known whether its code is
  shared. Shared code that makes a call can so strand the call of another method
  (`SharedCallStrandsAnother`); shared code without calls does no harm (`EveryCallReaches`).
- The file table of the line program is keyed by the address of a name, so a name kept at two
  addresses is entered twice. `NamesEnteredOnceExactlyWhen` gives the condition, `SameNameTwice` an
  example.
- The reader of a GC map shifts bytes as `int`. On a 64-bit runtime it finds an offset exactly when
  it is below 2^31 (`ReadsExactlyWhen`, `FindBitMap`).
- A string that is placed ahead of its visit, because an equal one came first, is not walked. What
  only it refers to is left to a later visit; `WalksFindAllExactlyWhen` gives the exact condition.
- A call queued for code that turns out to be shared can lie behind the next offset, which 32-bit
  arithmetic takes for a long way off; a thunk is then asked for without need (`AskedWithoutNeed`).
- The sizes of image bins are summed in an `int`, which is right exactly below 2^31
  (`NarrowedExactly`).
- The special opcode of the line program is computed in 32-bit arithmetic and can wrap into a
  byte. `DeltaBytesExact` shows that the output is right exactly when it does not.
- `code_offset_` entries, map offsets and absolute addresses use 32-bit wrap-around, which is
  modelled by `Wrap`; in-memory sizes are unbounded.

## How outside things enter

Thunk code is any byte sequence. Trampoline offsets, image offsets of methods and types, the load
address, the text section's offset and the time left on a clock are parameters. A byte vector that
the compiler driver shares between methods is a value with an address. The heap is a finite graph
whose objects are numbers; interning is a function on it. The order in which the heap visits its
objects, and the order a sort leaves equal elements in, are arbitrary. Sorting is done by insertion
where the source calls the C++ library. Threads of the barrier interleave at every place where the
lock is taken or released. Output never fails.

## Model

| member | source | states |
|---|---|---|
| `RelativeCalls.DirectExactlyInRange` | compiler/oat_writer.cc:202-204 | The unsigned test with `&&` is true exactly of displacements outside the BL range, and inside it the wrapped difference is the true one |
| `RelativeCalls.DisplacementLandsExactlyWhen` | compiler/oat_writer.cc:200-220 | The displacement computed leads to the target or to a thunk, in range, if and only if the target is in range, the next thunk is strictly closer than the positive limit, or the previous thunk is within the negative limit |
| `RelativeCalls.DisplacementGoes` | compiler/oat_writer.cc:200-220 | A target in range gets exactly its own displacement; any other call gets that of the next thunk if that is strictly closer than the positive limit, else that of the previous thunk, else none |
| `RelativeCalls.BlThumb2Executes` | compiler/oat_writer.cc:281-302 | The four bytes stored by the Thumb2 patcher decode, by the ARM manual's T1 BL rules, to the encoded displacement |
| `RelativeCalls.BlArm64Executes` | compiler/oat_writer.cc:345-358 | The four bytes stored by the Arm64 patcher decode, by the A64 BL rules, to the encoded displacement |
| `RelativeCalls.BlExecutes` | compiler/oat_writer.cc:274-303 | For every in-range displacement between instruction boundaries the bytes written branch exactly that far, for either instruction set |
| `RelativeCalls.BlExecutesExactlyWhen` | compiler/oat_writer.cc:325-331 | The bytes written branch where they should if and only if the displacement is within the limits, which so are those of the instruction |
| `CodeLayout.HeaderReadsBack` | runtime/oat.h:174-193 | Reading the header bytes word by word in the order of the structure gives back every field of the header |
| `CodeLayout.AlignIsLeast` | compiler/oat_writer.cc:151-152 | Code is aligned to the first place where it may start |
| `CodeWriting.ThunksGrow` | compiler/oat_writer.cc:135-171 | Thunks once reserved keep their places: later lists extend earlier ones |
| `CodeAgreement.FutureThunks` | compiler/oat_writer.cc:135-171 | Thunks reserved from a point on lie at or after the aligned offset reached there |
| `CodeAgreement.SyncStep` | compiler/oat_writer.cc:997-1080 | The invariant between the passes, which lets the write pass be several thunks ahead, survives every method, shared or not |
| `CodeAgreement.WritePassAgrees` | compiler/oat_writer.cc:984-1080 | For every method list the write pass writes byte for byte the image the init pass planned, writes every thunk, and ends at the offset the init pass ended at |
| `CodeAgreement.PlannedLength` | compiler/oat_writer.cc:795-798 | The planned image is exactly as long as the init pass's offset has advanced |
| `CodePlacement.DedupeIsExact` | compiler/oat_writer.cc:744-753 | The dedupe map holds a key exactly when an earlier method has it, with the offset recorded for the first such method |
| `CodePlacement.KnownExactly` | compiler/oat_writer.cc:755-765 | The method map knows a method exactly when it has been visited |
| `CodePlacement.KnownIsFirstDefinition` | compiler/oat_writer.cc:755-765 | Of several definitions of a method the map keeps the recorded code offset of the first |
| `CodePlacement.ThunksAroundMethod` | compiler/oat_writer.cc:206-214 | No thunk lies inside a method: those before its slot are already written when it is, all others lie after its last byte |
| `CodePlacement.MethodsWrittenWhereRecorded` | compiler/oat_writer.cc:1023-1077 | A method that is the first with its key has its header and patched code in the file exactly at its recorded offset; any other has the offset of the first |
| `CodePlacement.ThunksWrittenWhereReserved` | compiler/oat_writer.cc:173-197 | Each reserved thunk's code stands in the file at its reserved offset |
| `ThunkReach.ProcessDropsReached` | compiler/oat_writer.cc:223-250 | Every call dropped from the queue reaches its target, the thunk before it or the thunk after it, even where its recorded offset is stale |
| `ThunkReach.ReachStep` | compiler/oat_writer.cc:149-170 | The reach invariant over handled and queued calls survives reserving space for any method with code of its own |
| `ThunkReach.ReachSharedStep` | compiler/oat_writer.cc:716-753 | The same for a method that shares code without relative calls in it, although space was reserved for it |
| `ThunkReach.ReachEnds` | compiler/oat_writer.cc:140-148 | After the final reservation nothing queued is left out of reach |
| `ThunkNeed.ProcessAsksWithReason` | compiler/oat_writer.cc:223-250 | A thunk is asked for only if some queued call is out of range of the last thunk and either out of range of its known target or too far for a thunk at the next offset (or queued behind that offset for shared code) |
| `ThunkNeed.AskedWithoutNeed` | compiler/oat_writer.cc:223-235 | A call queued behind the next offset: a thunk is asked for although one there would be in range |
| `ThunkNeed.ThunkOnlyWhenNeeded` | compiler/oat_writer.cc:153-163 | The same for every thunk reserved in front of a method, with the queue as it is at that point |
| `ThunkNeed.FinalThunkOnlyWhenNeeded` | compiler/oat_writer.cc:140-148 | The same for the final thunk |
| `ThunkReach.EveryCallReaches` | compiler/oat_writer.cc:135-171 | In the final layout every relative call, where its code really stands, is in range of its target, of the nearest thunk before it or of the nearest thunk after it; code may be shared if it makes no relative calls |
| `SharedCalls.SharedCallStrandsAnother` | compiler/oat_writer.cc:716-753 | A concrete list of six methods: sharing code that makes a call leaves another method's call out of reach of target and thunks, with all other conditions met |
| `CallsLand.PatchCodeLeaves` | compiler/oat_writer.cc:1046-1067 | Bytes outside all patches are the compiler's |
| `CallsLand.PatchCodeHolds` | compiler/oat_writer.cc:1046-1067 | With disjoint patches the bytes at a patch are those that patch wrote |
| `CallsLand.FinalOffsets` | compiler/oat_writer.cc:741-765 | Every recorded code offset is an instruction boundary inside the code, with the Thumb bit; every thunk is an instruction boundary |
| `CallsLand.AbsolutePatchAddresses` | compiler/oat_writer.cc:1056-1066 | The word in the file at an absolute patch is the address its target, or the trampoline for it, has in the loaded image |
| `CallsLand.CallGoes` | compiler/oat_writer.cc:200-220 | The bytes in the file at a relative call, to compiled code or to a trampoline, branch to the target itself whenever that is in range, otherwise to the nearest thunk after it if strictly closer than the positive limit, otherwise to the nearest thunk before it |
| `CallsLand.CallLands` | compiler/oat_writer.cc:1049-1055 | Whenever the target or a thunk is usable by the patcher, the bytes in the file at the call branch to it, the target first, then the next thunk, then the previous one |
| `CallsLand.OnlyTheLimitIsMissed` | compiler/oat_writer.cc:208-213 | A call in reach that the patcher cannot serve has its next thunk exactly the positive limit away |
| `CallsLand.EveryCallLands` | compiler/oat_writer.cc:200-220 | Under the reach conditions every relative call in the file lands, unless the next thunk is exactly the positive limit away |
| `CallsLand.CallsOffTheLimitLand` | compiler/oat_writer.cc:200-220 | Under the reach conditions a call lands without exception if its place in its method leaves another remainder than 2 modulo 8 (Thumb2) or 8 modulo 16 (Arm64) |
| `MissedThunk.ThunkAtTheLimitIsMissed` | compiler/oat_writer.cc:208-217 | A concrete file: all reach conditions hold, a thunk is in range at the limit, and no displacement is found for the call |
| `MethodCode.OneOffsetExactlyWhenSame` | compiler/oat_writer.h:344-373 | Two methods are given one code offset if and only if code, maps and patches are the same |
| `MethodCode.UnpatchedBytes` | compiler/oat_writer.cc:1023-1077 | For every method, shared code or not: at its code offset the file has its own code wherever no patch is |
| `MethodCode.AbsoluteWords` | compiler/oat_writer.cc:1056-1066 | For every method: at its code offset the file has the addresses its own absolute patches ask for |
| `MethodCode.RelativeCallsGo` | compiler/oat_writer.cc:1049-1055 | For every method: at its code offset the calls in the file go where its own relative patches ask for, as above |
| `MethodCode.EveryMethodFound` | compiler/oat_writer.cc:1023-1077 | All of this together for every method of every list |
| `MethodCode.ThumbBit` | compiler/oat_writer.cc:733-741 | Recorded code offsets have the Thumb bit exactly on Thumb2, and are instruction boundaries without it |
| `MethodCode.HeaderWords` | compiler/oat_writer.cc:767-793 | The seven words in the file in front of the code of the first method there are its map fields, its own frame size, core and floating point spill masks, and the size of its code |
| `OatWriter.RelativeCallPatcher.Process` | compiler/oat_writer.cc:223-250 | The loop drops calls and decides about a thunk as specified |
| `OatWriter.RelativeCallPatcher.ReserveFinalThunk` | compiler/oat_writer.cc:140-148 | Reserving the final thunk, as specified, on the patcher's fields |
| `OatWriter.RelativeCallPatcher.Reserve` | compiler/oat_writer.cc:149-170 | Reserving space for a method, as specified, on the patcher's fields |
| `OatWriter.RelativeCallPatcher.QueueCalls` | compiler/oat_writer.cc:164-169 | The relative calls of a method are queued in order at their recorded offsets |
| `OatWriter.RelativeCallPatcher.WriteNextThunk` | compiler/oat_writer.cc:173-197 | At most one thunk is written, with padding before and after, and the counter advances with it |
| `OatWriter.RelativeCallPatcher.Patch` | compiler/oat_writer.cc:274-303 | The code array changes in the four bytes of the call only, to the BL for the computed displacement |
| `OatWriter.CodeWriter.InitMethod` | compiler/oat_writer.cc:716-808 | One visit of the init pass, as specified, on the writer's maps, headers and offset |
| `OatWriter.CodeWriter.RecordAbsolute` | compiler/oat_writer.cc:799-806 | The locations of the absolute patches are appended in order |
| `OatWriter.CodeWriter.Init` | compiler/oat_writer.cc:708-714 | The whole init pass, ending with the final reservation |
| `OatWriter.CodeWriter.PatchedCode` | compiler/oat_writer.cc:1046-1067 | The copy of the method's code after all its patches, applied in place one after the other |
| `OatWriter.CodeWriter.WriteOne` | compiler/oat_writer.cc:997-1080 | One visit of the write pass, as specified |
| `OatWriter.CodeWriter.Write` | compiler/oat_writer.cc:984-995 | The whole write pass, ending with the final thunk |
| `OatWriter.PatchAddress` | compiler/oat_writer.cc:1134-1162 | An absolute address stored little-endian over four bytes |
| `OatWriter.WriteCode` | compiler/oat_writer.cc:984-1080 | Running both passes over the same fields produces the planned image, as long as the layout says, and the recorded entries |
| `DedupeOrder.Compare` | compiler/oat_writer.h:344-373 | The comparator with its early returns and loop computes the order |
| `DedupeOrder.PatchTrichotomy` | compiler/compiled_method.h:257-269 | Of two linker patches one comes before the other, and not both, exactly when they differ |
| `DedupeOrder.Trichotomy` | compiler/oat_writer.h:344-373 | Neither of two methods comes before the other exactly when their dedupe keys are equal |
| `DedupeOrder.Transitive` | compiler/oat_writer.h:344-373 | The order of the dedupe map is transitive |
| `Relocation.CheckPatches` | patchoat/patchoat.cc:634-640 | Accepts exactly the lists of unsigned locations that all start inside the text section |
| `Relocation.PatchTextSection` | patchoat/patchoat.cc:743-763 | On the mapped file: succeeds exactly when every word starts inside the section, and then adds the delta, modulo 2^32, to each word in turn, also to one that ends behind the section; otherwise changes nothing |
| `Relocation.SectionRelocated` | patchoat/patchoat.cc:751-761 | With all words inside the section, the section changes as it would alone and the rest of the file not at all |
| `Relocation.MethodRelocates` | compiler/oat_writer.cc:1046-1067 | Relocating a method's absolute words gives the code patched for the moved image base |
| `Relocation.RelocationCommutes` | patchoat/patchoat.cc:745-763 | For every method list with disjoint patches, relocating the text linked at one image base gives byte for byte the text linked at that base plus the delta |
| `Relocation.LocationsRecordedOnce` | compiler/oat_writer.cc:799-806 | No location is recorded twice and no two recorded words overlap, whatever code is shared |
| `OatMaps.InitMaps` | compiler/oat_writer.cc:877-903 | The layout pass over an array of headers fills one field of each header and returns the end of the maps |
| `OatMaps.WriteMapPass` | compiler/oat_writer.cc:1175-1204 | The write pass writes a map when its header says it goes here |
| `OatMaps.LayoutPlacesMaps` | compiler/oat_writer.cc:886-898 | Every method with a map gets the offset of the first method with the same map; offsets stay between start and end |
| `OatMaps.FixUpsCancel` | compiler/oat_writer.cc:773-787 | An offset stored against code offset zero and completed later is the distance from map to code and reads back as the map's offset |
| `OatMaps.MapsSurvive` | compiler/oat_writer.cc:509-573 | For each kind of map: code offset minus header field is where the write pass put the method's map, zero means no map, and the pass ends where the layout did |
| `OatMaps.MapsWrittenOnce` | compiler/oat_writer.cc:1186-1199 | The bytes written are the distinct maps, one after the other in order of first use |
| `OatMaps.SharedHeaderFits` | compiler/oat_writer.cc:767-793 | The header written with shared code has the map fields of every method that shares it |
| `OatFile.InitOatMaps` | compiler/oat_writer.cc:1320-1336 | The three layout passes over one array of headers leave each header with the three fields the code pass starts from, and end where the last kind ends |
| `OatFile.WriteOatMaps` | compiler/oat_writer.cc:1556-1581 | The three write passes, each continuing where the one before ended |
| `OatFile.KindsFollow` | compiler/oat_writer.cc:1556-1581 | Each kind is written from where the layout started it, right behind the bytes of the kinds before |
| `OatFile.EveryHeaderFound` | compiler/oat_writer.cc:767-793 | In front of every method's code the file has that method's map fields and code size, and the frame of the first method with this code |
| `OatFile.EveryReaderFinds` | runtime/oat.h:174-193 | From the words in front of the code in the file a reader finds exactly the method's mapping table, vmap table and GC map, and zero for none |
| `OatFile.WriteOat` | compiler/oat_writer.cc:1404-1444 | All passes in the writer's order: every method's code with its own patches, its header, and by way of that header its three maps are found in what is written; the code is the one planned |
| `Leb128.PushUnsigned` | runtime/leb128.h:151-160 | The loop appends the unsigned LEB128 encoding |
| `Leb128.PushSigned` | runtime/leb128.h:169-179 | The loop, which counts down the bits that differ from the sign, appends the signed LEB128 encoding |
| `Leb128.UnsignedRoundTrip` | runtime/leb128.h:151-160 | Section 7.6 of DWARF Version 4 reads the number back and stops right behind it |
| `Leb128.SignedRoundTrip` | runtime/leb128.h:169-179 | The same for signed numbers |
| `Leb128.UnsignedIsShortest` | runtime/leb128.h:151-160 | No shorter sequence of bytes reads as the same number |
| `Leb128.SignedIsShortest` | runtime/leb128.h:169-179 | The same for signed numbers |
| `LineMachine.RunAppend` | compiler/elf_writer_quick.cc:614-645 | A line number program is run by running its parts one after the other |
| `LineProgram.DeltaBytesExact` | compiler/elf_writer_quick.cc:282-309 | The bytes for a step add exactly the wanted row, on the state machine of section 6.2 of DWARF Version 4, if and only if the special opcode does not wrap round 32 bits |
| `LineProgram.ShortestWrongStep` | compiler/elf_writer_quick.cc:286-292 | A concrete step whose opcode wraps, and the proof that no shorter address step does |
| `LineProgram.LineTableGenerator.PutDelta` | compiler/elf_writer_quick.cc:282-309 | Advances the fields; when the opcode does not wrap, the machine keeps agreeing with the fields and gains one row |
| `LineProgram.LineTableGenerator.SetAddr` | compiler/elf_writer_quick.cc:311-322 | The machine's address becomes the given one; no row is added |
| `LineProgram.LineTableGenerator.SetLine` | compiler/elf_writer_quick.cc:324-331 | The machine's line becomes the given one if the difference fits 32 bits; no row is added |
| `LineProgram.LineTableGenerator.SetFile` | compiler/elf_writer_quick.cc:333-339 | The machine's file becomes the given one; no row is added |
| `LineProgram.LineTableGenerator.EndSequence` | compiler/elf_writer_quick.cc:341-347 | The machine adds the end row and starts afresh |
| `SourceMaps.TrimDropsTheHighest` | compiler/compiled_method.h:156-163 | Trimming a sorted map drops exactly the elements at or above the end, the first one aside |
| `SourceMaps.SrcMap.SortByFrom` | compiler/compiled_method.h:129-133 | The map becomes a permutation of itself, sorted by address |
| `SourceMaps.SrcMap.TrimHighest` | compiler/compiled_method.h:156-163 | The loop from the end trims as specified |
| `SourceMaps.SrcMap.ToDeltas` | compiler/compiled_method.h:165-171 | In place, every element becomes its difference to the one before it |
| `SourceMaps.SrcMap.DeltaFormat` | compiler/compiled_method.h:148-173 | Sorts, trims and converts to differences |
| `DebugLines.FileTable` | compiler/elf_writer_quick.cc:594-609 | There is one entry per address of a file name, in order of first use, holding the name at that address, and each address is numbered by its entry |
| `DebugLines.FileNumberNames` | compiler/elf_writer_quick.cc:598-603 | The number used for a method is that of an entry with the name of the method's file |
| `DebugLines.NamesEnteredOnceExactlyWhen` | compiler/elf_writer_quick.cc:594-609 | No name is entered twice if and only if equal names are one string in memory |
| `DebugLines.SameNameTwice` | compiler/elf_writer_quick.cc:594-609 | Two methods whose equal file names are two strings: the name is entered twice and the second method is given number 2 |
| `DebugLines.EmitMethod` | compiler/elf_writer_quick.cc:632-643 | A method's share of the program adds exactly the rows of its sorted, trimmed lines |
| `DebugLines.OrdinaryFits` | compiler/elf_writer_quick.cc:286-292 | Methods shorter than 306783377 bytes with lines that are not negative meet the non-wrapping conditions, however the sort orders equal addresses |
| `DebugLines.WriteLineProgram` | compiler/elf_writer_quick.cc:614-652 | Running the emitted program yields exactly the rows (address plus text offset, line, number of the file's address) of all methods' sorted, trimmed lines; it ends the sequence at the largest end of a method, which is behind the row of every line inside its method |
| `DebugLines.RowsBeforeEnd` | compiler/elf_writer_quick.cc:626-652 | Every row is that of a line of some method, and comes before the end if the line lies inside the method |
| `ElfSymbols.ComputeHash` | compiler/elf_builder.h:194-205 | The loop computes the hash |
| `ElfSymbols.ElfHashIsAbi` | compiler/elf_builder.h:194-205 | The hash equals the function printed in the System V ABI, chapter 5, and stays below 2^28 |
| `ElfSymbols.MembersExact` | compiler/elf_builder.h:259-268 | A bucket's list contains a symbol exactly when its name hashes to that bucket |
| `ElfSymbols.SymbolsPerBucket` | compiler/elf_builder.h:271-286 | Tables of 256 symbols and more have about 32 symbols per bucket, smaller ones fewer than 16 |
| `ElfSymbols.EnterFirst` | compiler/elf_builder.h:303-304 | Entering a symbol in an empty bucket keeps the table right for one more symbol |
| `ElfSymbols.EnterLast` | compiler/elf_builder.h:306-317 | Entering a symbol behind the last of its chain keeps the table right for one more symbol and leaves all other chains alone |
| `ElfSymtab.FindTail` | compiler/elf_builder.h:306-311 | Following an ascending chain ends, inside the table, at its last symbol |
| `ElfSymtab.Enter` | compiler/elf_builder.h:298-318 | One round of the insertion loop, in place |
| `ElfSymtab.ElfSymtabBuilder.AddSymbol` | compiler/elf_builder.h:213-224 | A symbol is appended |
| `ElfSymtab.ElfSymtabBuilder.GenerateHashContents` | compiler/elf_builder.h:241-321 | Every bucket's chain lists its symbols in insertion order; each index occurs once over buckets and chain, and zero occurs as often as there are buckets, plus one |
| `ElfSymtab.ElfSymtabBuilder.GenerateStrtab` | compiler/elf_builder.h:323-333 | Each name stands NUL-terminated at the index noted for it; the table starts with a NUL |
| `ElfSymtab.ElfSymtabBuilder.GenerateSymtab` | compiler/elf_builder.h:335-359 | Entry i + 1 describes symbol i and its name is read back from the string table; entry 0 is undefined |
| `ElfSymtab.GetSym` | compiler/elf_builder.h:259-268 | The lookup returns the first symbol added with the name, and finds nothing exactly when there is none |
| `ElfSymtab.BuildAndLookUp` | compiler/elf_builder.h:241-359 | Hash section, string table and symbol table generated from any symbol list answer every lookup with the entry that describes the first symbol of that name, or with nothing when there is none |
| `ElfLayout.LayOutOat` | compiler/elf_builder.h:777-828 | The oat sections follow each other on their boundaries, none further on than its alignment asks for; the text starts right behind the read-only data exactly when the latter fills whole pages |
| `ElfLayout.LayOutRaw` | compiler/elf_builder.h:925-940 | Each of any number of registered sections is at the first place behind the one before that has the alignment it asks for |
| `ElfLayout.LayOut` | compiler/elf_builder.h:898-956 | All section offsets are aligned, all pieces of the file follow each other, and no gap is larger than an alignment asks for |
| `ElfLayout.AllApart` | compiler/elf_builder.h:516-522 | Pieces in file order do not overlap |
| `ElfLayout.WritesHold` | compiler/elf_builder.h:515-523 | Pieces that keep apart are all in the file, in whatever order they were written |
| `ElfLayout.File.WriteFully` | compiler/elf_builder.h:434-443 | A write goes over the file from the current position; a gap reads as zeros |
| `ElfLayout.WriteOutFile` | compiler/elf_builder.h:515-523 | Seeking and writing piece by piece |
| `ElfLayout.OrderDoesNotMatter` | compiler/elf_builder.h:1012-1058 | Writing the pieces in any order leaves every one of them intact |
| `ElfLayout.WriteElf` | compiler/elf_builder.h:1012-1069 | The written file holds every piece at its offset; with a page-multiple of read-only data the text is where its header says |
| `ImageLayout.BinSlotExact` | compiler/image_writer.cc:1215-1236 | A bin slot gives back bin and index if and only if the index is below 2^29 |
| `ImageLayout.BinsByKind` | compiler/image_writer.cc:327-371 | Which objects are in which of the eight bins, both ways |
| `ImageLayout.TilesDisjoint` | compiler/image_writer.cc:222-232 | Padded extents of different owners are disjoint and lie inside the image |
| `ImageWriter.PlaceOwner` | compiler/image_writer.cc:373-387 | Placing an object at the end of its bin keeps all slots right |
| `ImageWriter.ShareSlot` | compiler/image_writer.cc:714-722 | A string that takes over the slot of its interned version keeps all slots right |
| `ImageWriter.Writer.AssignImageBinSlot` | compiler/image_writer.cc:281-391 | One object gets a slot, bin sizes, counts and image end grow with it, and no other slot changes |
| `ImageWriter.Writer.CalculateObjectBinSlots` | compiler/image_writer.cc:704-727 | The object gets a slot; a string gets that of its interned version, placed ahead of its visit if need be |
| `ImageWriter.Writer.WalkInstanceFields` | compiler/image_writer.cc:784-803 | Terminates on every finite heap, also a cyclic one, changes no slot already given, and places what a walk along the class hierarchy's fields, root first, places, in that order |
| `ImageWriter.Writer.WalkFieldsInOrder` | compiler/image_writer.cc:806-841 | Places exactly the objects, in exactly the order, of the depth-first walk from the object; slots are given once |
| `ImageWriter.Writer.AssignSlots` | compiler/image_writer.cc:885 | After the visit of all objects each has a slot, no slot was ever given twice, and slots were given in the order of one depth-first walk over the visiting order |
| `ImageWriter.Writer.BinSizeSum` | compiler/image_writer.cc:1210-1213 | The loop gives the sum of the bins before the given one as a 32-bit int holds it |
| `ImageWriter.NarrowedExactly` | compiler/image_writer.cc:1210-1213 | The int holds the sum if and only if it is below 2^31 |
| `ImageWriter.Writer.UnbinObjects` | compiler/image_writer.cc:849-865 | Every lock word goes from slot to the offset computed with the int sum, and that offset is marked in the bitmap |
| `ImageWriter.Writer.CalculateNewObjectOffsets` | compiler/image_writer.cc:867-896 | For every heap and visit order: the slot owners, bin by bin and in each bin in the order of the depth-first walk, tile the image from its first object to its end, every other string is where its interned version is, and the bitmap marks exactly the offsets given, if no bin outgrows 2^29 bytes and the image ends below 2^31 |
| `ImageWriter.BinsInOrder` | compiler/image_writer.h:104-120 | In the image all objects of a bin stand before those of later bins |
| `ImageWalk.ChainIsHierarchy` | compiler/image_writer.cc:784-791 | Fields are walked along a line of superclasses that starts at a class without one and ends at the object's own |
| `ImageWalk.ReferencesExactly` | compiler/image_writer.cc:792-836 | What a walk goes on to from an object is exactly what its fields, statics or elements refer to |
| `ImageWalk.FieldsComeFirst` | compiler/image_writer.cc:784-836 | Fields of a superclass come before those of subclasses, and all fields before statics and elements |
| `ImageWalk.WalkBoth` | compiler/image_writer.cc:842-846 | Visiting two lists in a row is visiting the first, then the second from where that left off |
| `ImageWalk.WalkDepthFirst` | compiler/image_writer.cc:806-841 | Visiting an object without a slot is placing it and then visiting all it refers to; visiting any other does nothing |
| `ImageWalk.FirstReferenceFollows` | compiler/image_writer.cc:807-810 | An object and the first new one it refers to are placed next to each other |
| `ImageWalk.WalkReaches` | compiler/image_writer.cc:806-841 | After a walk every object has a slot that is at the end of a path of objects without slots, if no interned string on the way refers to more than the strings that share its slot |
| `ImageWalk.WalkReachesOnly` | compiler/image_writer.cc:806-841 | Only objects at the end of such a path, and the interned versions of strings that are, get a slot |
| `ImageWalk.WalksFindAllExactlyWhen` | compiler/image_writer.cc:704-727 | All walks find everything on such paths if and only if every string refers to all that its interned version refers to |
| `ImageWriter.SlotsTile` | compiler/image_writer.cc:222-232 | Bins that fit, laid end to end, tile the image |
| `ImageWriter.SameOffsetSameOwner` | compiler/image_writer.cc:704-727 | Two objects share an offset exactly when they share a slot owner; offsets are 8-aligned |
| `ImageWriter.SharedExactlyByEqualStrings` | compiler/image_writer.cc:704-727 | Two different objects share an offset exactly when they are equal strings |
| `StringPacking.PrefixBetween` | compiler/image_writer.cc:483-495 | In lexicographic order the strings with a common prefix stand together |
| `StringPacking.SortStrings` | compiler/image_writer.cc:529 | A sorting permutation in lexicographic order |
| `StringPacking.CountChars` | compiler/image_writer.cc:534-548 | The counting pass adds up the strings that are not a prefix of the next one |
| `StringPacking.CountIsOptimal` | compiler/image_writer.cc:529-548 | That count is the sum of the lengths of the distinct strings that are not a proper prefix of another one |
| `StringPacking.PackOne` | compiler/image_writer.cc:555-567 | A string's own characters are copied behind the shared ones, its window holds it, and nothing before is disturbed |
| `StringPacking.PackStrings` | compiler/image_writer.cc:549-569 | After the copy loop, which compares with the previous string through its window, every string's window in the shared array holds it, and the position equals the count |
| `StringPacking.ProcessStrings` | compiler/image_writer.cc:507-570 | All strings are in their windows of one array of optimal length |
| `GcMap.WidthSuffices` | compiler/gc_map_builder.h:31-35 | Every offset up to the largest fits the width computed from leading zeros |
| `GcMap.WidthIsLeast` | compiler/gc_map_builder.h:31-35 | No smaller width would hold the largest offset |
| `GcMap.HeaderRoundTrip` | compiler/gc_map_builder.h:37-45 | The packed header decodes, with the reader's masks and shifts, to the widths and the count |
| `GcMap.EntryAdded` | compiler/gc_map_builder.h:48-57 | Writing an entry into the free slot that probing leads to keeps every entry readable and findable |
| `GcMap.GcMapBuilder.constructor` | compiler/gc_map_builder.h:29-46 | An empty table of the right size, wide enough for the largest offset |
| `GcMap.GcMapBuilder.Probe` | compiler/gc_map_builder.h:48-52 | Terminates at a free slot; all slots from the home slot to it are in use |
| `GcMap.GcMapBuilder.AddEntry` | compiler/gc_map_builder.h:48-57 | The entry is in a slot of its own and all others stay |
| `GcMap.GcMapBuilder.WriteEntry` | compiler/gc_map_builder.h:73-83 | Offset and references overwrite the slot's bytes and no others |
| `GcMap.BuildGcMap` | compiler/gc_map_builder.h:48-57 | Any acceptable list of entries ends up in a table with that many entries in its header, in which every one of them is stored and nothing else is |
| `GcMap.GetNativePcOffset` | runtime/gc_map.h:46-53 | The loop, which ors sign-extended bytes, reads the slot's offset as a pointer-sized integer, sign-extended from bit 31 on a 64-bit runtime |
| `GcMap.ReadsExactlyWhen` | runtime/gc_map.h:66-76 | What is read compares equal to an offset if and only if the slot holds it and it is below 2^31 or the runtime is 32-bit |
| `GcMap.FindBitMap` | runtime/gc_map.h:66-76 | For a stored offset, probing ends with its references if and only if the runtime is 32-bit or the offset is below 2^31, with fewer misses than there are entries |
| `GcMap.FirstUnreadableOffset` | runtime/gc_map.h:46-53 | An acceptable entry at 0x80000000, which a 64-bit runtime reads as 0xffffffff80000000 |
| `Barrier.SleepersWoken` | runtime/barrier.cc:81-86 | Every step of every thread keeps: nobody sleeps while the count is zero |
| `Barrier.ReturnsKept` | runtime/barrier.cc:44-60 | Every step keeps: who is about to return from a wait without a time-out sees the count at zero |
| `Barrier.RunsAreSafe` | runtime/barrier.cc:30-86 | All states of all runs, with spurious wake-ups and time-outs, meet the invariants |
| `Barrier.WaitsReturnAtZero` | runtime/barrier.cc:44-79 | A wait without limit, or one that reports no time-out, returns only at an instant when the count is zero and nobody sleeps |
| `Barrier.LatchOpensAfterN` | runtime/barrier.cc:30-40 | Used as a latch of n, a waiter is let go only when exactly n calls of Pass or Wait have taken effect |
| `Barrier.TimeOutsAreReal` | runtime/barrier.cc:62-79 | A wait reports a time-out only if it has slept in this call and after that the condition variable timed out or the clock had run out when it looked |
| `Barrier.CountIsConserved` | runtime/barrier.cc:30-46 | At every instant of every run the count is what it was at first plus the effects of all calls so far |
| `Streams.WriteTwice` | compiler/vector_output_stream.h:34-47 | Two writes in a row are one write of both |
| `Streams.WriteBehindEnd` | compiler/vector_output_stream.cc:26-46 | A write after a seek from the end stands behind all else, with zeros in a gap |
| `Streams.SeekBackAndRewrite` | compiler/vector_output_stream.cc:26-46 | Seeking back over a write, relatively or absolutely, and repeating it changes nothing |
| `Streams.VectorOutputStream.WriteFully` | compiler/vector_output_stream.h:34-47 | Bytes go over what is there and on past the end |
| `Streams.VectorOutputStream.SeekTo` | compiler/vector_output_stream.cc:26-46 | The position for each kind of seek, also a negative one, with zeros up to a position past the end |
| `Streams.BufferedOutputStream.Flush` | compiler/buffered_output_stream.cc:42-49 | What the stream stands for does not change; nothing is pending |
| `Streams.BufferedOutputStream.WriteFully` | compiler/buffered_output_stream.cc:26-40 | The stream stands for what an unbuffered write gives; nothing is pending after an oversized write |
| `Streams.BufferedOutputStream.SeekTo` | compiler/buffered_output_stream.cc:51-56 | Returns the unbuffered stream's position and leaves nothing pending |
| `Streams.Replay` | compiler/buffered_output_stream.cc:26-56 | For every sequence of writes and seeks that writes nothing at a negative position the stream stands for what the unbuffered one would hold |

## Left out

- ThunkReach.EveryCallReaches: covers calls to compiled code only (calls to other methods go through a trampoline, whose offset is a parameter; `CallGoes` says where they branch), and requires that shared code makes no relative calls (`SharedCallStrandsAnother` shows that it can fail otherwise; the condition is sufficient, and no exact one is stated), that header, code and thunk of each method fit within both branch limits, and that the file ends below 0xf0000000, so that differences of offsets do not wrap.
- Frame information of methods that share code: the dedupe key leaves it out, as the source does, so the header holds that of the first one (`EveryHeaderFound`); that it agrees is up to the compiler.
- MethodCode.AbsoluteWords and MethodCode.RelativeCallsGo: the patches of a method do not overlap, and for calls the file and the trampolines end below 0xf0000000.
- Relocation.PatchTextSection: the three bytes behind the section, which a word may reach into, are part of the mapped file.
- The two places where the source writes the literal "null" for a missing file name: taken to be one string in memory.
- GcMap.FindBitMap: the offset looked for is stored in the table and fits 32 bits; for any other offset the source promises nothing (a debug check fails, or the loop does not end).
- DebugLines.WriteLineProgram: promises rows only when no 32-bit arithmetic wraps (`ProgramFits`); `DeltaBytesExact` gives the exact condition for one step and `OrdinaryFits` one that is easy to check beforehand.
- ImageWriter.Writer.CalculateNewObjectOffsets: promises offsets only when every bin stays within 2^29 bytes and the image ends below 2^31; `BinSlotExact` and `NarrowedExactly` show why.
- Streams.Replay: writing at a negative position, which is undefined in the source, and failing sinks are not modelled.
- ElfSymtab.GetSym: names hold no NUL, as C strings do not.
- The x86 call patcher, portable (LLVM) code, thunk assembly and the other oat sections: the calls, maps and offsets modelled here do not depend on them.
- The frame layout sections (.eh_frame), the DIE tree and the header of the line table: fixed byte strings.
- Decoding the DEX debug stream: the (address, line) pairs are inputs.
- Lock word encoding, saved hash codes, checksums, statistics and logging.
- Copying and fixing up objects in the image and relocating the image itself.
- Progress of the barrier under a fair scheduler: safety only.
- Registers of the line number machine that do not influence address, line or file.
- Disassemblers, dumping tools, argument parsing and file handling.
