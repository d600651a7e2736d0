# wasm-ground-up in Dafny

A model of the core of `wasm-ground-up`. This is a small compiler written in Rust for the toy language
Wafer, plus the JavaScript host that reads strings out of the compiled module's memory. The model has
three layers.

- **The WebAssembly encoder** (`src/wasm.rs`, `src/wasm/*.rs`):
  - single-byte LEB128 integers, vectors and names;
  - instructions and value types;
  - the type, function, code, import, export, memory and data sections;
  - the module header.

  Each `wasm_encode` is a function on values.
  - Instructions, names, vectors, sections, imports, exports, memory limits, data segments and the
    module come with a reader that parses the bytes back, and a round-trip lemma.
  - Value types, function types, the type section, the function section and code bodies have no
    reader. They are proved to produce exact bytes: their shape, sizes and counts.
  - Each section builder that `push`es onto a vector is a class with a `seq` field.
  The unit tests of each file are methods or lemmas that prove the exact bytes those tests expect.
- **The Wafer front end** (`src/wafer.rs`, `src/wafer/strings.rs`, `src/wafer/symbols.rs`):
  - The string table `Strings::from` is a loop over the program's literals. It builds the offset map
    and the data bytes exactly as the code writes them. Each literal's entry is proved to sit at its
    recorded offset.
  - The literals are proved to be the string-literal nodes of a preorder walk of the syntax tree.
  - ASCII literals decode back to themselves in the host. Non-ASCII literals do not (see Findings).
    A corrected table, in which every literal decodes back, is proved beside the one as written.
  - The symbol table `Symbols` is a class over a map of maps.
  - The `InstructionCollector` is a class whose methods push onto `instructions`. Each method is proved
    to append exactly `Lower(ctx, n)`, the code of its node. `Lower` is a function over a syntax-tree
    datatype with one constructor per grammar rule that `collect_inner` handles.
  - `parse_function` and `Wafer::parse` assemble the program.
  - Beside these:
    - every function body is proved to be well nested (`if`/`else`/`loop`/`end`/`br`);
    - the postfix code of arithmetic is proved to evaluate left to right on a stack machine;
    - each unit test of `wafer.rs` is proved for its instructions.
- **The host decoder** (`examples/hello-world/hello.js`):
  - `toJsString` is a loop over an array of bytes. It reads a little-endian length word and then that
    many code-point words.
  - It is proved against a specification function.
  - A round trip shows it reads back every ASCII literal of the table as written, and every literal
    of the corrected table.

Two behaviours of the code are worth stating plainly:

- A negative length word decodes to the empty string and does not fail. The loop at `hello.js:10`
  does not run, and nothing reports an error.
- The length word `strings.rs` writes is a UTF-8 byte count, not a character count. `StringTable.From`, `StringTable.Layout`
  and `Wafer.Parse` write it as the code does. `StringTable.LayoutCorrected` writes the character
  count instead (see Findings).

## Model

| member | source | states |
|---|---|---|
| Wasm.AsInt32 | src/wafer/strings.rs:35 | a `usize as i32` cast keeps the value below 2^31 and is otherwise congruent to it modulo 2^32 |
| Wasm.EncodeUnsigned | src/wasm.rs:12-30 | a `u32`/`usize` below 128 is the single byte equal to it, which decodes back to the value |
| Wasm.EncodeInt32 | src/wasm.rs:32-40 | an `i32` in 0..63 is the single byte equal to it, which decodes, as signed LEB128, back to the value |
| Wasm.EncodeByte | src/wasm.rs:42-46 | a `u8` is written raw as that single byte, so it is a valid one-byte unsigned LEB128 exactly when it is below 128 |
| Wasm.EncodeUnsignedInjective | src/wasm.rs:14-15 | two values below 128 encode alike if and only if they are equal |
| Wasm.SingleByteSignedLimit | src/wasm.rs:34 | a byte in 64..127 reads back as a negative number, which is why the `i32` encoder stops at 64 |
| Wasm.EncodeVec | src/wasm.rs:48-59 | a vector is its length, which decodes back to the element count, followed by the elements' encodings |
| Wasm.EmptyVec | src/wasm.rs:52-58 | the empty vector is the single byte 0 |
| Wasm.ConcatAppend | src/wasm.rs:56 | `flat_map` over two lists in a row is the two flat-maps concatenated |
| Wasm.ConcatBytes | src/wasm.rs:42-46 | flat-mapping the `u8` encoder over bytes gives the bytes back |
| Wasm.ConcatOne | src/wasm.rs:56 | flat-mapping over one element gives that element's encoding |
| Wasm.ConcatTwo | src/wasm.rs:56 | flat-mapping over two elements gives their encodings in order |
| Wasm.ConcatWords | src/wafer/strings.rs:26 | when every element encodes to four bytes, element i occupies bytes 4i to 4i + 4 |
| Wasm.CharBytes | src/wasm.rs:63 | a character's UTF-8 form is 1 to 4 bytes; it is one byte, equal to the code point, exactly for ASCII |
| Wasm.Utf8Length | src/wasm.rs:63 | a string has between one and four UTF-8 bytes per character, exactly one per character if and only if it is ASCII, and then each byte is its character |
| Wasm.EncodeName | src/wasm.rs:61-67 | a name is its UTF-8 byte count followed by its UTF-8 bytes |
| Wasm.DecodeEncodeName | src/wasm.rs:61-67 | reading a name back yields its UTF-8 bytes and leaves whatever followed untouched |
| Wasm.NameCountIsCharCountIffAscii | src/wasm.rs:61-67 | a name's length prefix equals its character count if and only if the name is ASCII |
| Wasm.NonAsciiName | src/wasm.rs:61-67 | "é" is written as `[2, 0xC3, 0xA9]` |
| Wasm.U32LeBytes | src/wasm/module.rs:12 | `to_le_bytes` of a `u32` is four bytes whose little-endian value is the number |
| Wasm.Int32LeBytes | src/wafer/strings.rs:25-26 | `to_le_bytes` of an `i32` is the `u32` bytes of its two's-complement form |
| Wasm.Int32FromLe | examples/hello-world/hello.js:8 | `getInt32(p, true)` reads the `i32` whose little-endian bytes are the four given |
| Wasm.Int32LeRoundTrip | src/wafer/strings.rs:25-26 | reading back an `i32` written with `to_le_bytes` gives the same value |
| Sections.EncodeSection | src/wasm/section.rs:27-36 | a section is its ID, a size that decodes to the content length, then the contents |
| Sections.ParseEncodeSection | src/wasm/section.rs:27-36 | parsing an encoded section gives back its ID and contents |
| Sections.EncodeParseSection | src/wasm/section.rs:27-36 | every byte string that parses as a section is the encoding of what it parses to |
| Sections.EncodeSectionInjective | src/wasm/section.rs:19-36 | two sections encode alike if and only if their IDs and contents are equal |
| Sections.ParseSectionsCons | src/wasm/module.rs:21-23 | sections written one after another are read back one by one in order |
| Sections.ParseThreeSections | src/wasm/module.rs:21-23 | three sections in a row read back as exactly those three |
| Values.Encode | src/wasm/value.rs:8-13 | `I32` is the single byte 0x7f |
| Values.AllValueTypesEqual | src/wasm/value.rs:3-6 | the enum has one variant, so any two value types are equal and encode alike |
| Values.EncodeValueTypes | src/wasm/value.rs:8-13 | a vector of value types is its count followed by that many 0x7f bytes |
| Instructions.Encode | src/wasm/instruction.rs:14-26 | an instruction is one opcode byte plus its immediate, and it decodes back to itself |
| Instructions.DecodeEncode | src/wasm/instruction.rs:14-26 | decoding reads back an encoded instruction and its length whatever bytes follow |
| Instructions.OpcodeIdentifiesVariant | src/wasm/instruction.rs:16-24 | the first byte alone tells which variant was encoded |
| Instructions.EncodeInjective | src/wasm/instruction.rs:16-24 | distinct instructions have distinct encodings |
| Instructions.EncodeConst42 | src/wasm/instruction.rs:34-41 | `ConstI32(42)` is `[65, 42]` |
| TypeSections.NewFunctionType | src/wasm/section/type.rs:31-38 | a new function type has no parameters and no results |
| TypeSections.EncodeFunctionType | src/wasm/section/type.rs:20-29 | a function type with empty lists is `[0x60, 0, 0]` |
| TypeSections.EncodeTypeSection | src/wasm/section/type.rs:45-53 | the type section is ID 1, size `1 + 3n`, count n, then the n types |
| TypeSections.Position | src/wasm/section/type.rs:58 | `position` finds the first index holding the value, and None exactly when it is absent |
| TypeSections.TypeSection.constructor | src/wasm/section/type.rs:40-43 | a default type section holds no types |
| TypeSections.TypeSection.AddFunction | src/wasm/section/type.rs:55-66 | an existing equal type is reused at its first index; otherwise it is pushed and its new index returned |
| TypeSections.AddFunctionTwice | src/wasm/section/type.rs:55-66 | adding the same type twice returns one index and grows the list at most once |
| TypeSections.VoidTypeSection | src/wasm/section/type.rs:75-83 | one void function type encodes as `[1, 4, 1, 0x60, 0, 0]` |
| FunctionSections.EncodeFunctionSection | src/wasm/section/function.rs:8-16 | the function section is ID 3, size, count, then each type index as one byte |
| FunctionSections.FunctionSection.constructor | src/wasm/section/function.rs:3-6 | a default function section holds no indices |
| FunctionSections.FunctionSection.AddFunction | src/wasm/section/function.rs:18-24 | the type index is pushed and the returned index is its position |
| FunctionSections.SuccessiveIndices | src/wasm/section/function.rs:18-24 | three additions return 0, 1, 2 and record the three types in order |
| FunctionSections.SingleTypeIndex | src/wasm/section/function.rs:32-40 | one function of type 0 encodes as `[3, 2, 1, 0]` |
| CodeSections.EncodeBodyInstruction | src/wasm/section/code.rs:9-15 | the code section's own `End` is 0x0b |
| CodeSections.NewFunctionCode | src/wasm/section/code.rs:42-49 | a new function body has no locals and the given instructions |
| CodeSections.EncodeFunctionCode | src/wasm/section/code.rs:22-40 | a body is a size that decodes to the rest's length, the locals vector, then one 0x0b per instruction |
| CodeSections.ConcatBody | src/wasm/section/code.rs:25-29 | the flat-mapped instructions are as many 0x0b bytes as there are instructions |
| CodeSections.EncodeCodeSection | src/wasm/section/code.rs:55-63 | the code section parses back as ID 10 holding the vector of bodies |
| CodeSections.NopFunction | src/wasm/section/code.rs:77-85 | a section with one body of just `End` is `[10, 4, 1, 2, 0, 11]` |
| ImportSections.EncodeImportDescription | src/wasm/section/import.rs:9-15 | a function import is kind 0 and then the index |
| ImportSections.EncodeImport | src/wasm/section/import.rs:23-32 | an import parses back to its module name, function name and description |
| ImportSections.EncodeImportBytes | src/wasm/section/import.rs:23-32 | an import is the module name, the function name and the description, concatenated |
| ImportSections.EncodeImportSection | src/wasm/section/import.rs:39-47 | the import section parses back as ID 2 holding the vector of imports |
| ImportSections.ImportSection.constructor | src/wasm/section/import.rs:34-37 | a default import section holds no imports |
| ImportSections.ImportSection.AddFunction | src/wasm/section/import.rs:49-59 | a function import with the given names and index is pushed |
| ImportSections.OneImport | src/wasm/section/import.rs:39-47 | a one-import section is ID, size, count 1, then the import |
| ImportSections.ModAddImport | src/wasm/section/import.rs:70 | `mod`.`add` with index 123 encodes as in the test |
| ImportSections.ModAddSection | src/wasm/section/import.rs:72-75 | the section with that one import is the test's 13 bytes |
| ImportSections.ImportModAdd | src/wasm/section/import.rs:67-76 | adding the import to a default section and encoding it gives the test's bytes |
| ExportSections.EncodeExportDescription | src/wasm/section/export.rs:10-17 | a function export is kind 0 and a memory export kind 2, then the index |
| ExportSections.EncodeExport | src/wasm/section/export.rs:24-28 | an export parses back to its name and description |
| ExportSections.EncodeExportSection | src/wasm/section/export.rs:35-43 | the export section parses back as ID 7 holding the vector of exports |
| ExportSections.ExportSection.constructor | src/wasm/section/export.rs:30-33 | a default export section holds no exports |
| ExportSections.ExportSection.AddFunction | src/wasm/section/export.rs:46-48 | a function export with the name and index is pushed |
| ExportSections.ExportSection.AddMemory | src/wasm/section/export.rs:50-52 | a memory export with the name and index is pushed |
| ExportSections.ExportSection.Add | src/wasm/section/export.rs:54-60 | an export with the name and description is pushed |
| ExportSections.TwoExports | src/wasm/section/export.rs:35-43 | a two-export section is ID, size, count 2, then both exports |
| ExportSections.MainExport | src/wasm/section/export.rs:72 | `main` as function 123 encodes as in the test |
| ExportSections.MemExport | src/wasm/section/export.rs:73 | `mem` as memory 101 encodes as in the test |
| ExportSections.MainAndMemorySection | src/wasm/section/export.rs:77-82 | the section with both exports is the test's 16 bytes |
| ExportSections.ExportMainAndMemory | src/wasm/section/export.rs:69-83 | adding both exports to a default section and encoding it gives the test's bytes |
| MemorySections.EncodeMemory | src/wasm/section/memory.rs:10-19 | limits are flag 0 and a minimum, or flag 1, a minimum and a maximum, and they parse back to themselves |
| MemorySections.EncodeMemorySection | src/wasm/section/memory.rs:26-34 | the memory section parses back as ID 5 holding the vector of memories |
| MemorySections.Limits | src/wasm/section/memory.rs:38-42 | a maximum gives minimum-and-maximum limits and no maximum gives minimum-only limits |
| MemorySections.MemorySection.constructor | src/wasm/section/memory.rs:21-24 | a default memory section holds no memories |
| MemorySections.MemorySection.Add | src/wasm/section/memory.rs:37-45 | the limits for the minimum and optional maximum are pushed |
| MemorySections.MemoryWithLimits | src/wasm/section/memory.rs:54-72 | both tests: `[5, 3, 1, 0, 32]` and `[5, 4, 1, 1, 32, 64]` |
| DataSections.EncodeData | src/wasm/section/data.rs:11-21 | a segment is the memory index, `i32.const` of the offset cast to `i32`, `end`, then the bytes as a vector |
| DataSections.ParseEncodeData | src/wasm/section/data.rs:11-21 | a segment parses back to its memory, its offset after the cast, and its bytes |
| DataSections.EncodeDataSection | src/wasm/section/data.rs:28-36 | the data section parses back as ID 11 holding the vector of segments |
| DataSections.DataSection.constructor | src/wasm/section/data.rs:23-26 | a default data section holds no segments |
| DataSections.DataSection.AddSegment | src/wasm/section/data.rs:38-46 | a segment with the memory, offset and bytes is pushed |
| DataSections.OneSegment | src/wasm/section/data.rs:28-36 | a one-segment section is ID, size, count 1, then the segment |
| DataSections.SegmentAtTwelveBytes | src/wasm/section/data.rs:57 | the segment of 4 bytes at offset 12 encodes as in the test |
| DataSections.SegmentAtTwelve | src/wasm/section/data.rs:54-63 | adding that segment and encoding the section gives the test's 12 bytes |
| Modules.NewModule | src/wasm/module.rs:4-9 | a default module has empty type, function and code sections |
| Modules.Magic | src/wasm/module.rs:11 | the magic number is `\0asm` |
| Modules.Version | src/wasm/module.rs:12 | the version is 1 as four little-endian bytes |
| Modules.Header | src/wasm/module.rs:18-19 | the header is the magic number followed by the version |
| Modules.Encode | src/wasm/module.rs:14-27 | a module is the header and then the type, function and code sections, which parse back in that order |
| Modules.ParseEncodeModule | src/wasm/module.rs:14-27 | parsing an encoded module gives its three sections' IDs and contents |
| Modules.ParseHeaderAndSections | src/wasm/module.rs:15-26 | the header followed by three sections parses to those sections |
| Modules.EmptyModule | src/wasm/module.rs:4-27 | the empty module encodes as the header and three empty sections |
| VoidLang.CompileVoidLang | src/lib.rs:4-10 | it succeeds exactly on empty input, with the eight header bytes; any other input panics with the message naming it |
| VoidLang.VoidOutputIsModulePrefix | src/lib.rs:1-9 | the void-language output is a prefix of every encoded module |
| StringTable.Strings.Offset | src/wafer/strings.rs:34-36 | a literal's offset, cast to `i32`, is the recorded offset whenever that fits |
| StringTable.Strings.Len | src/wafer/strings.rs:38-40 | the length, cast to `i32`, is the data size whenever that fits |
| StringTable.CodePointWord | src/wafer/strings.rs:26 | a character's word is four bytes that read back as its code point |
| StringTable.CodePointWords | src/wafer/strings.rs:26 | a literal's characters give four bytes each |
| StringTable.CodePointWordsDecode | src/wafer/strings.rs:26 | word i of a literal's characters reads back as character i |
| StringTable.EntryAsWritten | src/wafer/strings.rs:25-26 | the entry as written is a length word and one word per character |
| StringTable.EntryAsWrittenDecodes | src/wafer/strings.rs:25-26 | its length word reads as the UTF-8 byte count and word i + 1 as character i |
| StringTable.Entry | src/wafer/strings.rs:25-26 | the corrected entry is a length word and one word per character |
| StringTable.EntryDecodes | src/wafer/strings.rs:25-26 | its length word reads as the character count and word i + 1 as character i |
| StringTable.EntryAgreesOnAscii | src/wafer/strings.rs:25 | on ASCII literals the written and the corrected entries coincide |
| StringTable.Layout | src/wafer/strings.rs:17-27 | the data as strings.rs writes it, with UTF-8 byte counts as length words, is a whole number of words |
| StringTable.Offsets | src/wafer/strings.rs:23 | the offset map has exactly the literals as keys |
| StringTable.From | src/wafer/strings.rs:12-31 | the loop builds exactly the offset map and the data as written for the literal list |
| StringTable.LayoutLength | src/wafer/strings.rs:25-26 | for the written and the corrected entries alike, the data has 4 bytes per literal plus 4 per character |
| StringTable.LayoutPrefix | src/wafer/strings.rs:17-27 | each iteration appends one entry, and earlier data is never rewritten |
| StringTable.LayoutCorrected | src/wafer/strings.rs:17-27 | the corrected table has the same size as the table as written |
| StringTable.EntryAt | src/wafer/strings.rs:23-26 | for the written and the corrected entries alike, the i-th literal's entry sits at the offset recorded before it was written |
| StringTable.StartsIncrease | src/wafer/strings.rs:23-26 | entries start on word boundaries at strictly increasing offsets |
| StringTable.OffsetOfLastOccurrence | src/wafer/strings.rs:23 | a repeated literal keeps the offset of its last occurrence, because `insert` overwrites |
| StringTable.OffsetHoldsEntry | src/wafer/strings.rs:23-26 | for the written and the corrected entries alike, at every recorded offset lies that literal's entry, word-aligned and inside the data |
| StringTable.AsciiEntryPlaced | src/wafer/strings.rs:23-26 | in the table as written, an ASCII literal's offset holds a length word equal to its character count, then its characters |
| StringTable.CorrectedEntryPlaced | src/wafer/strings.rs:23-26 | in the corrected table, every literal's offset holds its character count, then its characters |
| StringTable.LayoutsAgreeOnAscii | src/wafer/strings.rs:25 | when every literal is ASCII, the table as written and the corrected table are equal |
| StringTable.RepeatedLiteral | src/wafer/strings.rs:23 | a literal seen again is written again and its offset moves to the new copy |
| StringTable.LenIsSizeOfBytes | src/wafer/strings.rs:38-44 | `len` is the size of what `into_bytes` returns |
| StringTable.AsciiWord | src/wafer/strings.rs:26 | an ASCII character's word is its code and three zero bytes |
| StringTable.ThreeCharEntry | src/wafer/strings.rs:25-26 | a three-character ASCII literal has the 16-byte entry the test inspects |
| StringTable.FooBarLayout | src/wafer/strings.rs:67-81 | `foo` and `bar` are laid out at offsets 0 and 16 with the test's bytes |
| StringTable.FooBar | src/wafer/strings.rs:55-82 | the test: offsets 0 and 16, length 32, and the 32 bytes whose eight the test checks |
| StringTable.LayoutOfTwo | src/wafer/strings.rs:17-27 | two distinct literals are written back to back, at offset 0 and at the size of the first entry |
| SymbolTable.TableOf | src/wafer/symbols.rs:8 | a function's table holds exactly the locals `get` finds for it, and a function not seen yet gets the empty table |
| SymbolTable.Lookup | src/wafer/symbols.rs:12-17 | a lookup succeeds exactly when both the function and the local are recorded, giving the recorded index |
| SymbolTable.AddLocal | src/wafer/symbols.rs:7-10 | adding creates the function's table if needed and maps the local to the table's previous size |
| SymbolTable.Symbols.constructor | src/wafer/symbols.rs:3-4 | a default table is empty |
| SymbolTable.Symbols.Add | src/wafer/symbols.rs:7-10 | the tables become those with the local added |
| SymbolTable.Symbols.Get | src/wafer/symbols.rs:12-17 | as `Lookup`, on the object's tables |
| SymbolTable.AddLeavesOtherFunctions | src/wafer/symbols.rs:8 | adding to one function leaves every other function's table unchanged |
| SymbolTable.AddLeavesOtherLocals | src/wafer/symbols.rs:9 | adding one local leaves the other locals' indices unchanged |
| SymbolTable.FirstLocal | src/wafer/symbols.rs:8 | the first local of a new function gets index 0 in a fresh table |
| SymbolTable.AddNewLocal | src/wafer/symbols.rs:9 | a new local grows its function's table by one |
| SymbolTable.Rebind | src/wafer/symbols.rs:9 | re-adding a local keeps the table size and rebinds it to that size |
| SymbolTable.AddNewLocalKeepsDense | src/wafer/symbols.rs:8-9 | while only new locals are added, the indices are exactly 0 to n - 1 |
| SymbolTable.RebindThenAddSharesIndex | src/wafer/symbols.rs:9 | after a rebind, the next new local gets the same index as the rebound one |
| SymbolTable.MainAndOther | src/wafer/symbols.rs:24-37 | the test: `main.x` is 1, `main.y` is 0, `other.x` is 0 and `other.y` is absent |
| Nesting.Step | src/wafer.rs:76-109 | `if` and `loop` open a block, `end` needs an open block, `else` needs an open `if`, and `br d` needs more than d open blocks |
| Nesting.Enclosed | src/wafer.rs:76-92 | an opener, balanced code and `end` leave the open blocks as they were |
| Nesting.IfElseEnclosed | src/wafer.rs:206-224 | `if`, a balanced arm, `else`, a balanced arm and `end` are balanced |
| Nesting.LoopEnclosed | src/wafer.rs:93-109 | the while shape with `br 1` is balanced; when `br 1` runs, the loop and the `if` are the innermost open blocks, so its target is the loop |
| Wafer.OperationInstruction | src/wafer.rs:225-239 | each operator becomes the instruction that performs it, and distinct operators give distinct instructions |
| Wafer.InstructionCollector.constructor | src/wafer.rs:44-51 | a new collector holds the function, its tables and no instructions |
| Wafer.InstructionCollector.CollectInner | src/wafer.rs:53-295 | collecting a node appends exactly its code |
| Wafer.InstructionCollector.CollectLeaf | src/wafer.rs:266-292 | an identifier, a number, a string literal or EOI appends its code |
| Wafer.InstructionCollector.CollectLocalWrite | src/wafer.rs:60-75 | `let` appends the value's code and `LocalSetI32`, and `x := e` appends the value's code and `LocalTeeI32` |
| Wafer.InstructionCollector.CollectWhileStatement | src/wafer.rs:93-109 | a while loop appends `loop`, the condition, `if`, the body, `br 1`, `end`, `end` |
| Wafer.InstructionCollector.CollectExpressionStatement | src/wafer.rs:110-115 | an expression statement appends the expression's code and `drop` |
| Wafer.InstructionCollector.CollectCallExpression | src/wafer.rs:187-205 | a call appends its arguments in order and `call`, and `__trap` appends only `unreachable` |
| Wafer.InstructionCollector.CollectIfExpression | src/wafer.rs:206-224 | an if expression appends condition, `if (result i32)`, then-arm, `else`, else-arm, `end` |
| Wafer.InstructionCollector.CollectIfStatement | src/wafer.rs:76-92 | an if statement appends condition, `if`, then-arm, `else` and the else-arm when present, then `end` |
| Wafer.InstructionCollector.CollectArrayAssignment | src/wafer.rs:132-175 | `__mem[i] := v` stores through `$temp`, and any other array calls `__writeInt32Array` |
| Wafer.InstructionCollector.CollectArrayIndex | src/wafer.rs:240-265 | `__mem[i]` appends the index and `i32.load`, and any other array calls `__readInt32Array` |
| Wafer.InstructionCollector.CollectBinaryExpression | src/wafer.rs:176-186 | the `while let` loop appends the first operand, then each operand followed by its operator |
| Wafer.InstructionCollector.CollectAll | src/wafer.rs:55-59 | a block appends its items' code in order |
| Wafer.InstructionCollector.Collect | src/wafer.rs:297-300 | `collect` appends a body's code and then `End` |
| Wafer.LowerIsNested | src/wafer.rs:53-295 | the code of every node is balanced: it closes every block it opens and branches only to enclosing blocks |
| Wafer.IfStatementIsNested | src/wafer.rs:76-92 | an if statement's code is balanced |
| Wafer.IfExpressionIsNested | src/wafer.rs:206-224 | an if expression's code is balanced |
| Wafer.ArrayAssignmentIsNested | src/wafer.rs:132-175 | an array assignment's code is balanced |
| Wafer.ArrayIndexIsNested | src/wafer.rs:240-265 | an array read's code is balanced |
| Wafer.LowerAllIsNested | src/wafer.rs:55-59 | a block's code is balanced |
| Wafer.LowerOperandsIsNested | src/wafer.rs:176-186 | a binary expression's operator-operand code is balanced |
| Wafer.LiteralsByChildren | src/wafer/strings.rs:17-21 | a node's literals are its own text, when it is a string literal, followed by its children's literals in order |
| Wafer.LiteralsInPreorder | src/wafer/strings.rs:17-21 | a tree's literals are the texts of the string-literal nodes of its preorder walk, in order |
| Wafer.LiteralsAllInPreorder | src/wafer/strings.rs:17-21 | the same for a list of sibling trees, walked one after another |
| Wafer.StringTextsAppend | src/wafer/strings.rs:20 | filtering two walks in a row gives the two filtered lists in a row |
| Wafer.ModuleLiteralsInPreorder | src/wafer/strings.rs:17-21 | a module's literals are the string-literal texts of the walk over its function bodies, in source order |
| Wafer.ModuleLiteralsAppend | src/wafer/strings.rs:17-21 | each item contributes its literals independently, in source order |
| Wafer.ImportsOfAppend | src/wafer.rs:339-348 | each item contributes its import independently, in source order |
| Wafer.ImportsOfExactly | src/wafer.rs:339-348 | every import names an external function with its parameters, and every external function has its import |
| Wafer.FunctionsOfAppend | src/wafer.rs:339-363 | each item contributes its compiled function independently, in source order |
| Wafer.FunctionsOfExactly | src/wafer.rs:349-359 | every public or private definition is compiled with its visibility, and every compiled function comes from one |
| Wafer.ParseFunction | src/wafer.rs:303-324 | a function record carries its name, public flag, parameters, locals and collected code |
| Wafer.Parse | src/wafer.rs:326-373 | the loop yields the external functions as imports, the other functions compiled in order, and the string data |
| Wafer.CompiledFunctionsAreNested | src/wafer.rs:297-300 | every compiled function is a balanced body closed by its final `End` |
| Wafer.CompiledFunctionIsNested | src/wafer.rs:303-324 | one compiled function is a balanced body closed by its final `End` |
| Wafer.LetCode | src/wafer.rs:60-75 | `let x = a` is `ConstI32(a)`, `LocalSetI32(x)` |
| Wafer.AssignStatementCode | src/wafer.rs:116-131 | `x := b;` is `ConstI32(b)`, `LocalTeeI32(x)`, `Drop` |
| Wafer.OneOperand | src/wafer.rs:176-186 | one operator-operand pair appends the operand and then the operator |
| Wafer.MultiplyCode | src/wafer.rs:176-186 | `x * b` is `LocalGetI32(x)`, `ConstI32(b)`, `MultiplyI32` |
| Wafer.CallCode | src/wafer.rs:187-205 | `f(a, b + c)` pushes the arguments in order, then `Call(f)` |
| Wafer.ArrayStoreCode | src/wafer.rs:159-174 | `x[b] := c;` goes through `__writeInt32Array` |
| Wafer.ArrayLoadCode | src/wafer.rs:250-264 | `x[d]` goes through `__readInt32Array` |
| Wafer.MemoryAssignCode | src/wafer.rs:140-158 | `__mem[a] := b` is the index, the value, `LocalTee $temp`, `i32.store`, `LocalGet $temp` |
| Wafer.MemoryStoreCode | src/wafer.rs:140-158 | the same as a statement, followed by `Drop` |
| Wafer.MemoryLoadCode | src/wafer.rs:246-249 | `__mem[c]` is the index and `i32.load` |
| Wafer.IfExpressionCode | src/wafer.rs:206-224 | `if a { b } else { c }` has the if-expression shape |
| Wafer.WhileCode | src/wafer.rs:93-109 | `while a { b; }` has the loop shape |
| Wafer.DiscardedNumber | src/wafer.rs:110-115 | `n;` is `ConstI32(n)`, `Drop` |
| Wafer.IfWithoutElse | src/wafer.rs:76-92 | an if statement without else has no `Else` |
| Wafer.IfWithElse | src/wafer.rs:76-92 | an if statement with else has `Else` between the arms |
| Wafer.IfStatementBody | src/wafer.rs:502-527 | the body of the if-statement test lowers to the test's code |
| Wafer.IfStatementTest | src/wafer.rs:502-527 | the if-statement test's instructions |
| Wafer.LetStatementTest | src/wafer.rs:394-411 | the let-statement test's instructions |
| Wafer.ExpressionStatementTest | src/wafer.rs:413-430 | the expression-statement test's instructions |
| Wafer.CallTest | src/wafer.rs:465-481 | the call-with-parameters test's instructions |
| Wafer.IfExpressionTest | src/wafer.rs:483-500 | the if-expression test's instructions |
| Wafer.WhileTest | src/wafer.rs:529-549 | the while-loop test's instructions |
| Wafer.MemoryTest | src/wafer.rs:560-579 | the memory test's instructions |
| Wafer.ArrayBody | src/wafer.rs:581-617 | the body of the array test lowers to the test's code |
| Wafer.ArrayTest | src/wafer.rs:581-617 | the array test's instructions |
| Wafer.NumberTest | src/wafer.rs:381-392 | the number test: function `number` is `ConstI32(123)`, `End` |
| Wafer.CallPlusTest | src/wafer.rs:449-463 | the call test: `one() + 2` is `Call(0)`, `ConstI32(2)`, `AddI32`, `End` |
| Wafer.HelloWorldOffsets | src/wafer.rs:619-647 | `hello` and `world` are laid out at offsets 0 and 24 |
| Wafer.HelloWorldBody | src/wafer.rs:619-647 | the string test's body stores those offsets in its two locals |
| Wafer.StringTest | src/wafer.rs:619-647 | the string test's instructions, from the string table built by the program |
| Wafer.SampleProgram | src/wafer.rs:326-373 | an external function becomes an import, and private and public functions keep their order and flags |
| Wafer.SampleParse | src/wafer.rs:649-660 | parsing a program with an import, a private and a public function gives those records and no data |
| Postfix.ExecAppend | src/wafer.rs:176-186 | running two pieces of code in a row runs the first and then the second on what it leaves |
| Postfix.LowerEvaluates | src/wafer.rs:176-186 | the code of an arithmetic tree pushes exactly its left-to-right value |
| Postfix.OperandsEvaluate | src/wafer.rs:180-185 | the operator-operand code folds the pairs into the value on top of the stack |
| Postfix.LeftToRight | src/wafer.rs:176-186 | the flat binary expression `1`, `+ 2`, `* 3` folds from the left and computes `(1 + 2) * 3` |
| HelloHost.GetInt32Reads | examples/hello-world/hello.js:8 | `getInt32(p, true)` reads v exactly when the four bytes at p are the little-endian bytes of v |
| HelloHost.CharsAt | examples/hello-world/hello.js:10-12 | after i rounds the loop has pushed i words, word k from `offset + 4(k + 1)` |
| HelloHost.DecodeStringWords | examples/hello-world/hello.js:8-14 | a non-positive length gives nothing; otherwise there are exactly `len` characters, character i being the word at `offset + 4(i + 1)` |
| HelloHost.ToJsString | examples/hello-world/hello.js:5-15 | the loop, reading only, returns exactly the specified decoding of the buffer at the offset |
| HelloHost.EntryWords | examples/hello-world/hello.js:8-11 | in a placed entry the length word is the character count and word i + 1 is character i |
| HelloHost.DecodeEntryWords | examples/hello-world/hello.js:5-15 | a placed entry is readable and decodes to its literal's code points |
| HelloHost.DecodeLiteral | examples/hello-world/hello.js:5-15 | decoding the table as written at any ASCII literal's offset gives back that literal |
| HelloHost.DecodeLiteralCorrected | examples/hello-world/hello.js:5-15 | decoding the corrected table at any literal's offset gives back that literal |
| HelloHost.NonAsciiTable | src/wafer/strings.rs:17-27 | `["é", "a"]` is written as 16 bytes, the entry of `é` first with length word 2 |
| HelloHost.OneCharEntry | src/wafer/strings.rs:25-26 | a one-character literal below U+0100 is written as its UTF-8 byte count and its code point, one word each |
| HelloHost.NonAsciiLiteralMisread | src/wafer/strings.rs:25 | with the entries as written, `["é", "a"]` decodes at `é` to `[0xE9, 1]` |
| HelloHost.NonAsciiLiteralRead | src/wafer/strings.rs:25 | with the corrected entries, it decodes to `[0xE9]` |

## Left out

- Multi-byte LEB128 is not modelled. Every encoder branch for larger values is `unimplemented!()`
  (`src/wasm.rs:17`, `27`, `37`), so the encoders require single-byte values. Wherever the source would
  hit those branches, the model has a precondition instead of a panic.
- Wasm.EncodeInt32: requires `0 <= v < 64`. Negative and larger `i32`s reach `unimplemented!()` in
  the source. `Instructions.HasEncoding` carries the same bound for `ConstI32`.
- The empty `ValueType` enum of `src/wasm/section/type.rs:6-12` is not modelled, because Dafny cannot
  declare a type with no values here. `FunctionType` uses `value.rs`'s `ValueType`, and its encoder
  requires both lists to be empty, which is the only case the source can build.
- Instructions.Encode: only the seven variants `instruction.rs` encodes have an encoding.
  - The other variants that `src/wafer.rs` builds (`If`, `Else`, `Loop`, `Break`, `Drop`, `Call`,
    `LocalGetI32`, `LocalTeeI32`, `StoreI32`, `LoadI32`, `Unreachable` and the comparisons) are
    constructors of the datatype without bytes.
  - The file that would encode them is not part of this model.
- `Symbols::from`, `local`, `function`, `parameters` and `locals` are called by `src/wafer.rs` and
  defined nowhere in its shown files. They are the fields of `Wafer.SymbolApi`, given from outside.
  - The tests' expectations about parameter and local lists (`src/wafer.rs:399`, `446`, `557`) and
    the local indices they assume are therefore supplied by `Wafer.TestSymbols` and
    `Wafer.StringSymbols`, not derived.
- `Wafer.SampleProgram` and `Wafer.SampleParse` state the imports, the functions' names and flags,
  and the data. The parameter and local lists are whatever `SymbolApi` gives.
- The pest grammar, `src/parser.rs` and the `Pair`/`Rule` iterators are not modelled. The syntax tree is
  the `Wafer.Node` datatype, with children in the order the grammar yields them.
  - Malformed trees that hit `unwrap()` or `unreachable!()` cannot be built.
  - `Wafer.Parse` takes the program's literals in the order `into_inner().flatten()` visits them, given
    by `Wafer.Literals`.
- Operator precedence is decided by the pest grammar, which is not part of this model. The model
  takes a binary expression as the grammar hands it over: a first operand and a flat list of
  operator-operand pairs. `Postfix.LeftToRight` shows how such a flat list folds. Whether the grammar
  puts all operators at one level, as `1 + 2 * 3` in one list, is not modelled.
- `i32::from_str` failing on an out-of-range number (`src/wafer.rs:283`) is not modelled. Numbers are
  `int32` in the tree.
- `HashMap` iteration order is not modelled; maps are Dafny `map`s. A string-literal lookup at
  `src/wafer/strings.rs:35` indexes a missing key with a panic. Here it is the precondition that every
  literal of a body is in the table, which `Strings::from` guarantees (`Wafer.Parse`).
- HelloHost.ToJsString: requires `Readable`. Reading outside the buffer throws a `RangeError` from
  `DataView`. The model takes in-bounds reads as a precondition rather than modelling the exception.
- `String.fromCharCode` and its truncation of each value to 16 bits are not modelled. The decoder returns
  the integers it reads.
- The host glue of `examples/hello-world/hello.js:17-24` is I/O and runtime wiring with no logic to
  prove. This covers file reading, `WebAssembly.Module`/`Instance`, `console.log` and the `mem` global.
- The `wasmi` instantiation test of `src/lib.rs:14-27` calls a foreign runtime.
- `src/main.rs` is argument and file I/O. It also imports a `compile` function that `src/lib.rs` does
  not define, so it is not part of this model.
- `Module` derives `Default` although `CodeSection` has no `Default`. `Modules.NewModule` is the
  module that derive would describe.
- The meaning of each arithmetic and comparison operator (wrap-around, division traps) is a parameter of
  `Postfix.Exec`. The model proves the evaluation order, not the arithmetic.

## Findings

| source | as written | input that shows it | evidently intended | confidence | as-written member | corrected member |
|---|---|---|---|---|---|---|
| src/wafer/strings.rs:25 | the length word is `value.len()`, the UTF-8 byte count, but line 26 writes one word per character, and `hello.js` reads as many words as the length word says | the literals `["é", "a"]`: the entry of `é` says 2, so the host reads the length word of `a` as a second character and returns `[0xE9, 1]` | the length word is the character count (`value.chars().count()`), which agrees with the current code on every ASCII literal | high for non-ASCII literals; not executed | StringTable.EntryAsWritten, StringTable.Layout, HelloHost.NonAsciiLiteralMisread | StringTable.Entry, StringTable.LayoutCorrected, HelloHost.DecodeLiteralCorrected, HelloHost.NonAsciiLiteralRead |

`StringTable.From` and `Wafer.Parse` keep the length word as written, so the rest of the model describes
the bytes the compiler emits. The corrected table is proved beside them. Every literal of it decodes
back (`HelloHost.DecodeLiteralCorrected`), and on all-ASCII programs it equals the table as written
(`StringTable.LayoutsAgreeOnAscii`).
