# Verified models of the web server's algorithmic parts

The repository is a small C++ web server together with the LuaJIT, SQLite shell and cpp-markdown
sources it ships. This project models their algorithmic parts in Dafny and proves what they promise:

- `Allocator` (with `TreeIndex`, `Trie`, `TrieMem`, `TrieSearch`, `Bins`, `BinStores`, `BinTable` and
  the `Heap*` modules): LuaJIT's bundled memory allocator, over a flat memory of words. Chunks with
  boundary tags tile the segments got from the system; free chunks are in 32 exact-size rings, 32
  bitwise tries, the designated victim or the top chunk.
- `DasmAssemble` (with the other `Dasm*` modules): the DynASM x86 encoder. Pass 1 threads label
  references through section buffers, pass 2 shrinks branches and alignments, pass 3 writes bytes.
- `SideTrace`: the head of a side trace in LuaJIT's assembler, a parallel move emitted backwards.
- `Patterns` and `PatternMatch`: the backtracking matcher of Lua patterns against an ordered list of
  all ways to match; `PatternMeaning` says what matching means without the matcher, `PatternText`
  what the syntax is.
- `Emphasis` and `EmphasisLaws`: pairing and un-pairing of emphasis markers in cpp-markdown.
- `TableSort`: Lua's `table.sort`.
- `Config`: the nginx-style configuration parser and printer.
- `Csv`, `CString`: the SQLite shell's CSV writer and reader, and its C strings and arguments.
- `BcRead`: the refill buffer and the numbers of LuaJIT's bytecode reader.
- `Request` and `RequestGrammar`: the incremental HTTP request parser.

Objects of the source that update their fields are classes here; each method is proved against a
function of its inputs or of the old state, and lemmas prove what the source promises about that
function. `dafny verify dfyconfig.toml` checks the project.

## Model

| member | source | states |
|---|---|---|
| Allocator.Allocator.constructor | LuaJIT-2.0.4/src/lj_alloc.c:1144-1166 | a fresh heap of one segment: the invariant holds, no block is handed out, and the only chunk in use is that of the allocator state |
| Allocator.Allocator.Malloc | LuaJIT-2.0.4/src/lj_alloc.c:1180-1261 | whichever of the bins, the victim, the top chunk or the system serves it: the heap invariant is kept, a non-null block is 8-aligned, new, and has room for the request plus its head and no more to spare than alignment and a part too small for a chunk, all other blocks keep extent and contents, null is returned only when no free chunk can serve the request and the system gives no memory, and the chunks in use are always the blocks and one system chunk for each segment |
| Allocator.Allocator.Free | LuaJIT-2.0.4/src/lj_alloc.c:1263-1332 | the invariant is kept, exactly this block leaves the set of blocks, its bytes lie in one free chunk or the top chunk again, and no other block changes; since every chunk in use is a block or a system chunk, nothing leaks |
| Allocator.Allocator.Realloc | LuaJIT-2.0.4/src/lj_alloc.c:1334-1382 | a non-null result replaces the old block by one with room for the new size, and no more to spare than a new block has, that is 8-aligned and starts with the first min(old, new) bytes of the old contents; it stays in place exactly when it is large enough or the top chunk behind it has enough to add; if it moved, its old bytes lie in one free chunk or the top chunk; on null the old block stays; all other blocks keep extent and contents; null only when nothing in the heap fits and the system gives no memory |
| Allocator.Allocator.AllocF | LuaJIT-2.0.4/src/lj_alloc.c:1384-1394 | the three uses of the Lua allocator function: size 0 frees, a null pointer allocates, anything else resizes, with all promises of the three: the other blocks keep extent and contents, a new or resized block is 8-aligned, has room for the new size and little to spare, and starts with the old contents, the bytes of a block freed or moved away from are reclaimed, and null means that nothing fits and the system gives no memory |
| Allocator.Allocator.TakeBest | LuaJIT-2.0.4/src/lj_alloc.c:1048-1109 | a large request is served from the least chunk of all tree bins that fits, provided it fits better than the victim; it declines only if no tree chunk fits or the victim fits at least as well |
| Allocator.Allocator.TakeLeast | LuaJIT-2.0.4/src/lj_alloc.c:1112-1140 | a small request served from the tree bins takes a least chunk of them all; the invariant is kept, so that remainder and old victim are accounted for, and no block changes |
| Allocator.Allocator.TakeSmall | LuaJIT-2.0.4/src/lj_alloc.c:1202-1221 | a small request served from a larger small bin gets a new block of enough room; the invariant is kept and no other block changes |
| Allocator.Allocator.TakeDv | LuaJIT-2.0.4/src/lj_alloc.c:1235-1250 | serving from the victim, split or used up, hands out a new block of enough room, keeps the invariant and changes no other block |
| Allocator.Allocator.TakeTop | LuaJIT-2.0.4/src/lj_alloc.c:1251-1259 | serving from the top chunk hands out a new block of enough room, keeps the invariant and changes no other block |
| Allocator.Allocator.FreeChunk | LuaJIT-2.0.4/src/lj_alloc.c:1266-1330 | in every combination of free, victim, top and used neighbours, the chunk's bytes end up in one free chunk or the top chunk, the invariant is kept, which leaves no two free chunks adjacent, and no block changes |
| Allocator.Allocator.AllocSys | LuaJIT-2.0.4/src/lj_alloc.c:901-958 | new memory from the system, appended, prepended or as a new segment, serves the request exactly when the size computation does not wrap around and the system does not fail |
| Allocator.Allocator.PrependAlloc | LuaJIT-2.0.4/src/lj_alloc.c:820-851 | new memory right before a segment serves the request at its start and keeps the invariant, whatever the first chunk of the segment is |
| Allocator.Allocator.AddSegment | LuaJIT-2.0.4/src/lj_alloc.c:853-899 | retiring the old top chunk behind a segment record keeps the invariant and every block; the new top chunk has the size of the new memory less its foot, and only system chunks are added to those in use |
| Allocator.Allocator.ShrinkBlock | LuaJIT-2.0.4/src/lj_alloc.c:1349-1357 | a block that is large enough keeps its contents; afterwards it has no more to spare than a part too small for a chunk, as an end that makes a chunk is freed |
| Allocator.Allocator.GrowBlock | LuaJIT-2.0.4/src/lj_alloc.c:1358-1368 | a block before the top chunk grows into it and keeps its contents |
| HeapServe.SysSizeFits | LuaJIT-2.0.4/src/lj_alloc.c:913-917 | the size asked of the system is the least multiple of the granularity with room for the chunk, the segment foot and one byte; the check against wrap-around fails exactly when the sums do not fit in a word |
| Allocator.BlocksApart | LuaJIT-2.0.4/src/lj_alloc.c:1180-1382 | the bytes of two blocks never overlap |
| HeapLayout.Covered | LuaJIT-2.0.4/src/lj_alloc.c:820-958 | chunks tile the segments: every address of a segment lies in exactly one chunk |
| HeapSteps.FreeFacts | LuaJIT-2.0.4/src/lj_alloc.c:1263-1332 | a free chunk has its size in head and foot, the chunk after it is in use and knows it by its PINUSE bit, so that no two free chunks are adjacent |
| Allocator.VictimBetter | LuaJIT-2.0.4/src/lj_alloc.c:1095-1096 | the unsigned comparison of remainders prefers the tree chunk exactly when the victim is too small or leaves more over |
| Allocator.NoneFits | LuaJIT-2.0.4/src/lj_alloc.c:1235-1260 | when bins, victim and top have all been passed over, no free chunk of the heap can serve the request |
| BinTable.BinTable.FindBest | LuaJIT-2.0.4/src/lj_alloc.c:1051-1093 | the bitwise search over one trie path, the deepest untaken right subtree and the next bin finds the least chunk that fits among all tree bins, or none exactly when none fits |
| BinTable.BinTable.FindLeast | LuaJIT-2.0.4/src/lj_alloc.c:1117-1128 | following leftmost children of the first nonempty bin finds the least of all tree chunks |
| BinTable.BinTable.InsertLarge | LuaJIT-2.0.4/src/lj_alloc.c:647-684 | adds exactly this chunk to the tries: path bits, equal-size rings, parent and child links and the bitmap stay right, and no word outside link fields changes |
| BinTable.BinTable.UnlinkLarge | LuaJIT-2.0.4/src/lj_alloc.c:686-731 | removes exactly this chunk, from a ring, a leaf, or an inner node that its deepest leaf replaces, and keeps the same invariants |
| BinTable.BinTable.InsertSmall | LuaJIT-2.0.4/src/lj_alloc.c:594-607 | adds exactly this chunk to the ring of its size and keeps the bitmap exact |
| BinTable.BinTable.UnlinkSmall | LuaJIT-2.0.4/src/lj_alloc.c:609-620 | removes exactly this chunk from its ring and keeps the bitmap exact |
| BinTable.BinTable.UnlinkFirst | LuaJIT-2.0.4/src/lj_alloc.c:622-632 | removes one chunk of exactly the size of the bin |
| TreeIndex.BinBounds | LuaJIT-2.0.4/src/lj_alloc.c:533-558 | for sizes below 2^40 the bin chosen holds the size: its minimum is at most the size, and that of the next bin is larger |
| TreeIndex.BinMonotone | LuaJIT-2.0.4/src/lj_alloc.c:533-549 | for sizes below 2^40, larger sizes never go to smaller bins |
| TreeIndex.BinRight | LuaJIT-2.0.4/src/lj_alloc.c:533-558 | the bin holds the size if and only if the size is below 2^40 or its truncated shifted value is at least 0xC000 |
| TreeIndex.BinNotMonotone | LuaJIT-2.0.4/src/lj_alloc.c:533-549 | a size of 2^40 goes to bin 0 while 512 goes to bin 2 |
| DasmAssemble.Assemble | LuaJIT-2.0.4/dynasm/dasm_x86.h:167-470 | for every program of put and check calls: the result is the first error of the program, decided from the calls alone, or a pending local or PC label, or none; without an error the bytes are as many as announced and are, action by action in the order of the calls, what each asks for: literals as they are but for the opcodes of short forms, every immediate a field of its size that reads its argument, space and alignment filled as asked; every branch, decoded in its short or long form, jumps to the final offset of the definition it means, or to the address of an undefined global within reach |
| DasmAssemble.BranchLands | LuaJIT-2.0.4/dynasm/dasm_x86.h:213-244 | a branch means the next definition if it is a forward reference, else the latest one before it, else the first one after it, and the final bytes jump there; otherwise it refers to a global the program does not define |
| DasmBytes.ItemLeaves | LuaJIT-2.0.4/dynasm/dasm_x86.h:368-438 | read in the final bytes, every action has left what it asks for between its final offsets: for the kinds with a short form, the field is one byte exactly when the argument fits, with the opcode two bytes in front raised by 2 |
| DasmBytes.FitsWhenHeld | LuaJIT-2.0.4/dynasm/dasm_x86.h:184-201 | an argument is accepted for a kind of immediate exactly when some bytes of a field of that kind read it |
| DasmBytes.CallsBehind | LuaJIT-2.0.4/dynasm/dasm_x86.h:207-224 | in a program without an error every backward reference to a local label has a definition behind it |
| DasmLayout.LongIsNeeded | LuaJIT-2.0.4/dynasm/dasm_x86.h:302-322 | a branch with a short form is long only if that form would not reach its label behind it, or its label ahead is too far at worst |
| DasmEncoder.Encoder.Put | LuaJIT-2.0.4/dynasm/dasm_x86.h:167-262 | one put appends exactly the steps and label events of its actions to its section, or is refused with exactly the error of its first bad action |
| DasmTrace.PutAppends | LuaJIT-2.0.4/dynasm/dasm_x86.h:183-261 | a put that succeeds appends its start and then each action of its block once and in order, takes its arguments in order, and leaves the other sections alone |
| DasmEncoder.Encoder.PutLabel | LuaJIT-2.0.4/dynasm/dasm_x86.h:237-244 | placing a label appends its step and event and, by collapsing its chain, keeps the promise that every settled reference holds the position of the definition it means |
| DasmEncoder.Encoder.PutRel | LuaJIT-2.0.4/dynasm/dasm_x86.h:215-236 | a reference appends its step and event and keeps the promise that references are settled or in the chain of their label |
| DasmEncoder.Encoder.CheckStep | LuaJIT-2.0.4/dynasm/dasm_x86.h:455-469 | the check fails with an undefined-label error exactly when a local label 1 to 9 is pending, else with a section error exactly when another section is current; else all local labels are forgotten |
| DasmEncoder.Encoder.Link | LuaJIT-2.0.4/dynasm/dasm_x86.h:266-346 | linking fails exactly when a PC label is pending; otherwise the buffers hold every branch's shrink and every label's final offset |
| DasmEncoder.Encoder.Encode | LuaJIT-2.0.4/dynasm/dasm_x86.h:360-439 | the phase error is unreachable: exactly the announced number of bytes is written, and they are those of the program |
| DasmEncoder.Encoder.GetPcLabel | LuaJIT-2.0.4/dynasm/dasm_x86.h:442-451 | the final offset of a placed PC label, -1 for a pending and -2 for an unused one |
| DasmLabels.BindsToUnique | LuaJIT-2.0.4/dynasm/dasm_x86.h:213-244 | a reference means one definition only |
| DasmLayout.ShortReaches | LuaJIT-2.0.4/dynasm/dasm_x86.h:304-321 | a branch made short has a displacement within -128 to 127, although forward distances are judged from upper bounds and backward ones from fixed offsets |
| DasmLayout.Aligned | LuaJIT-2.0.4/dynasm/dasm_x86.h:331-331 | an alignment ends at a multiple of its alignment and never grows beyond what the put pass reserved |
| DasmLayout.OutLength | LuaJIT-2.0.4/dynasm/dasm_x86.h:368-438 | the encode pass is at the final offset of every item when it reaches it |
| DasmLayout.ExternalLands | LuaJIT-2.0.4/dynasm/dasm_x86.h:395-397 | a branch to an undefined global is long and leads to its address |
| SideTrace.Assembler.AsmHeadSide | LuaJIT-2.0.4/src/lj_asm.c:1366-1512 | unless it gives up, tracing every expected location backwards through the emitted code ends where the parent trace left the value, the stack pointer moves by the growth of the frame, and no other word of memory is written; it gives up exactly when, in some register class, more values must be stored to spill slots than there are temporaries that are no target, or, with the registers given to those values, there is a cycle of targets and parent registers and every temporary is the home of a value or where the parent left one |
| SideTrace.HeadDelivers | LuaJIT-2.0.4/src/lj_asm.c:1378-1512 | run from the parent's machine state, the head leaves every inherited value in the register and in the spill slot the trace body expects, keeps the pinned registers, moves the stack pointer down by exactly the growth of the frame, and changes no word of memory but the spill slots of inherited values |
| SideTrace.Assembler.Shuffle | LuaJIT-2.0.4/src/lj_asm.c:1478-1512 | coalescing and cycle breaking end; they give up exactly when, at the start, some class has values waiting for each other in a cycle and no temporary that is not live |
| SideTrace.OnlyCycles | LuaJIT-2.0.4/src/lj_asm.c:1481-1496 | once no live register is free, the registers still held are exactly the live ones: what is left is a permutation, and every other temporary is free |
| SideTrace.Assembler.Rename | LuaJIT-2.0.4/src/lj_asm.c:617-638 | renaming moves a value to a temporary with the inverse move and keeps every other promise |
| SideTrace.Assembler.ReloadSpilled | LuaJIT-2.0.4/src/lj_asm.c:1420-1450 | every spilled target is reloaded or already in the right slot; it gives up exactly when in some class more values need a register than there are temporaries that are no target; each value gets a register of its own, the one of the parent first |
| SideTrace.SpillSlots.Spill | LuaJIT-2.0.4/src/lj_asm.c:353-374 | a value without a spill slot gets words that no other value has, aligned for 64 bit values; the overflow error is exact |
| SideTrace.SpillSlots.SlotsDistinct | LuaJIT-2.0.4/src/lj_asm.c:353-374 | spill slots handed out differ, as the head of a side trace relies on |
| PatternMatch.MatchState.Match | LuaJIT-2.0.4/src/lib_string.c:368-451 | for a well-formed pattern, the end and captures are the first of all ways to match, in the order of preference of its items; on failure the captures are as before; an error only when the pattern is as long as the nesting limit |
| PatternMatch.MatchState.MaxExpand | LuaJIT-2.0.4/src/lib_string.c:302-315 | a greedy item tries the longest run first |
| PatternMatch.MatchState.MinExpand | LuaJIT-2.0.4/src/lib_string.c:317-329 | a lazy item tries the shortest run first |
| PatternMatch.MatchState.StartCapture | LuaJIT-2.0.4/src/lib_string.c:331-343 | opening a capture keeps the ways to match and is undone when the rest fails |
| PatternMatch.MatchState.EndCapture | LuaJIT-2.0.4/src/lib_string.c:345-354 | closing a capture keeps the ways to match and is undone when the rest fails |
| PatternMeaning.WaysAreMatches | LuaJIT-2.0.4/src/lib_string.c:368-451 | the ordered list holds exactly the ways in which the pattern matches, read as a relation item by item that names none of the functions of the matcher but the character classes |
| PatternMeaning.FirstIsChosen | LuaJIT-2.0.4/src/lib_string.c:302-451 | the first of the ways is the match in which every repetition is the longest, or for a lazy item the shortest, after which the rest matches at all |
| PatternMeaning.BalancedIs | LuaJIT-2.0.4/src/lib_string.c:281-300 | balanced text is the shortest text that opens with its first delimiter and has as many of both; with equal delimiters it ends at the second one |
| PatternText.PatternSyntax | LuaJIT-2.0.4/src/lib_string.c:205-277 | a pattern parses to items exactly when they, written one after the other without ambiguity, are the pattern |
| PatternText.LetterClasses | LuaJIT-2.0.4/src/lib_string.c:226-244 | which characters each letter behind an escape stands for; upper case stands for all others, and any other character for itself |
| PatternMatch.MatchState.Find | LuaJIT-2.0.4/src/lib_string.c:536-556 | the search returns the leftmost start where there is a match, and the match chosen there: every repetition the longest, or for a lazy item the shortest, after which the rest matches; it fails only if no start matches |
| PatternMatch.MatchState.Gsub | LuaJIT-2.0.4/src/lib_string.c:676-695 | the result and the count are those of the matches taken, as described for SubstPieces |
| PatternMatch.SubstPieces | LuaJIT-2.0.4/src/lib_string.c:676-695 | the result is the subject with the matches taken replaced and all else kept: each is chosen at the leftmost place where there is one, the search goes on behind it, or one character further if it is empty, up to the maximum, or once if anchored |
| PatternMatch.SubstIdentity | LuaJIT-2.0.4/src/lib_string.c:676-695 | replacing every match by itself, or none, gives the subject back, and the count never exceeds the maximum |
| Emphasis.Spans.Pair | cpp-markdown/markdown-tokens.cpp:509-560 | the pass comes to an end if and only if no open marker of size 3 ever meets an unmatched close marker of size 3 of another character; then all marks are paired symmetrically, no two unmatched markers that could be matched are left, and the total size is kept |
| Emphasis.EndsUnlessClash | cpp-markdown/markdown-tokens.cpp:510-560 | matching ends if and only if that clash never happens |
| Emphasis.OneCharEnds | cpp-markdown/markdown-tokens.cpp:510-560 | with triples of one character only, matching always ends |
| Emphasis.MixedTriples | cpp-markdown/markdown-tokens.cpp:542-555 | the tokens of ***a___ reach a marker of size 0, and the list grows beyond every length |
| Emphasis.Spans.Unmatch | cpp-markdown/markdown-tokens.cpp:562-580 | exactly the pairs that another pair crosses from inside are undone, and what is left nests; the stack is never read when empty |
| Emphasis.NestedKept | cpp-markdown/markdown-tokens.cpp:562-580 | where the pairs nest already, none is undone |
| Emphasis.UndoneInVain | cpp-markdown/markdown-tokens.cpp:571-574 | matching the eleven tokens of the text `*a _b* **c_ d**` gives three pairs in a chain, of which two are undone, although the first does not cross the one that stays |
| Emphasis.Spans.Match | cpp-markdown/markdown-tokens.cpp:509-580 | after both passes the tags written are balanced and nested |
| Emphasis.TagsBalanced | cpp-markdown/markdown-tokens.cpp:737-748 | when the matched markers nest, the em and strong tags written for them open and close in order |
| EmphasisLaws.NearestMates | cpp-markdown/markdown-tokens.cpp:510-560 | every open marker is matched with the nearest close marker it could have: those of the same kind in between have mates in front of it |
| EmphasisLaws.TagSizes | cpp-markdown/markdown-tokens.cpp:737-748 | a matched marker writes em for size 1, strong for size 2 and both, strong outside, for size 3 |
| EmphasisLaws.TripleTags | cpp-markdown/markdown-tokens.cpp:497-580 | the tokens of `***a***` give strong emphasis around emphasis |
| EmphasisLaws.InnerTags | cpp-markdown/markdown-tokens.cpp:517-532 | the tokens of `*a **b***` give emphasis around strong emphasis: the close marker is split so that the inner pair comes first |
| EmphasisLaws.OuterTags | cpp-markdown/markdown-tokens.cpp:542-555 | the tokens of `***a** b*` give emphasis around strong emphasis: the open marker is split so that the outer pair comes first |
| TableSort.Sorter.Auxsort | LuaJIT-2.0.4/src/lib_table.c:195-256 | the range ends up a permutation of what it was; for a strict weak order it is sorted, the scans never leave the range, so that the invalid-order error is not raised, and the depth of recursion is at most logarithmic |
| TableSort.Sorter.Sort | LuaJIT-2.0.4/src/lib_table.c:258-268 | elements 1 to n are permuted and nothing else moves; for a strict weak order they end up sorted, without an error |
| Config.RoundTrip | config_parser.cc:21-53 | for every text the parser accepts, parsing what is printed for its tree gives the same tree |
| Config.Accepts | config_parser.cc:155-238 | the grammar: a text is accepted as a configuration if and only if that is a nonempty sequence of statements and the tokens of the text are, for every statement, its words and a semicolon, or its words and its block in braces |
| Config.PrintAccepted | config_parser.cc:21-53 | every nonempty configuration, with any blocks, is accepted when it is printed, and read back |
| Config.CommentSkipped | config_parser.cc:124-128 | a comment, up to the end of its line, changes no token |
| Config.Separators | config_parser.cc:106-110 | which characters are white space and which end a word |
| Config.PrintStable | config_parser.cc:21-53 | printing is a normal form |
| Config.NginxConfigParser.Parse | config_parser.cc:155-238 | the parser accepts exactly the texts of the grammar and leaves their tree; the open blocks are always the chain of last blocks, and none is open on success |
| Config.NginxConfigParser.ParseToken | config_parser.cc:71-152 | one token of the text is read, and the position is right after it |
| Config.TrailingWord | config_parser.cc:145-151 | for every text: with a line end behind it, it is refused if it ends inside an unquoted word, and else means what it meant; so an accepted text silently loses its last word exactly when it ends inside one |
| Config.TrailingDropped | config_parser.cc:145-151 | any word behind a printed configuration is dropped without an error |
| Config.DroppedWord | config_parser.cc:145-151 | `a;b` is accepted as the one statement a, and refused with a line end behind it |
| Config.CarriageReturns | config_parser.cc:132-139 | for every accepted text: some unquoted token holds a blank if and only if the text has a carriage return inside an unquoted word |
| Config.CarriageReturn | config_parser.cc:132-139 | a word before CR LF keeps the carriage return |
| Csv.OutputCsv | sqlite-autoconf-3170000/shell.c:834-888 | a field is written bare or quoted with its quotes doubled, exactly when one of its bytes or the separator demands it |
| Csv.FieldBare | sqlite-autoconf-3170000/shell.c:834-888 | a field is bare exactly when it is not empty and has only visible ASCII characters other than quotation mark, apostrophe and separator |
| Csv.BareRead | sqlite-autoconf-3170000/shell.c:2740-2751 | any text that does not start with a quotation mark is read as it is up to the separator or row end |
| Csv.ImportCtx.ReadOneField | sqlite-autoconf-3170000/shell.c:2692-2753 | the reader takes from the input exactly the field, the terminator and the rest that the format defines |
| Csv.OutputRow | sqlite-autoconf-3170000/shell.c:1213-1218 | a row is written as its fields, each but the last with a separator, and the row end |
| Csv.ImportCtx.ReadColumns | sqlite-autoconf-3170000/shell.c:3985-3989 | fields are read up to the first that no separator ends, which is the row that the format defines |
| Csv.FieldRoundTrip | sqlite-autoconf-3170000/shell.c:2692-2753 | whatever bytes a field holds and however it ends, it is read back |
| Csv.RowRoundTrip | sqlite-autoconf-3170000/shell.c:1213-1218 | a row is read back with all its fields, for line feeds and for CR LF |
| Csv.TableRoundTrip | sqlite-autoconf-3170000/shell.c:3982-3989 | a table is read back with its fields and its row boundaries |
| CString.OutputCString | sqlite-autoconf-3170000/shell.c:767-793 | a string is written in double quotes with C escapes |
| CString.ResolveBackslashes | sqlite-autoconf-3170000/shell.c:2464-2506 | escapes are resolved in place, with a terminating zero; the write position never passes the read position, and nothing outside the text changes |
| CString.ResolveEscaped | sqlite-autoconf-3170000/shell.c:767-793 | resolving what was written gives the original string |
| CString.ReadArgs | sqlite-autoconf-3170000/shell.c:3530-3550 | the line is split in place into its arguments, up to fifty, each behind its pointer with its escapes resolved |
| CString.LineRoundTrip | sqlite-autoconf-3170000/shell.c:3530-3550 | whatever strings are written, quoted, on a line, the arguments read are those strings |
| CString.LineArgs | sqlite-autoconf-3170000/shell.c:3530-3550 | a line is read as its arguments, bare, in single or in double quotes, behind any white space; escapes are resolved except in single quotes |
| CString.QuotedPrints | sqlite-autoconf-3170000/shell.c:767-793 | a string is written in printable characters between quotation marks |
| CString.ByteKinds | sqlite-autoconf-3170000/shell.c:767-793 | which bytes are written as they are |
| CString.ResolvesAsDocumented | sqlite-autoconf-3170000/shell.c:2449-2506 | for every text: escapes are resolved as the comment above the code documents them if and only if none of them is a backslash and an s |
| CString.NoSpaceEscape | sqlite-autoconf-3170000/shell.c:2458-2506 | a backslash and an s stand for the letter, against the documentation |
| BcRead.LexState.Fill | LuaJIT-2.0.4/src/lj_bcread.c:56-94 | however the reader cuts its data into blocks, the bytes still to come stay the same; it fails exactly when too much is asked for, the end was passed, or bytes that are needed are missing |
| BcRead.LexState.Need | LuaJIT-2.0.4/src/lj_bcread.c:97-101 | afterwards the bytes are there, or an error was raised exactly when they cannot be |
| BcRead.LexState.ReadUleb | LuaJIT-2.0.4/src/lj_bcread.c:136-151 | the value of the number at the read position is returned and exactly its bytes are consumed |
| BcRead.LexState.ReadUleb33 | LuaJIT-2.0.4/src/lj_bcread.c:154-169 | the upper 32 bits of a 33 bit number are returned and exactly its bytes are consumed |
| BcRead.LexState.ReadByte | LuaJIT-2.0.4/src/lj_bcread.c:129-133 | the first byte of the stream is returned and consumed |
| BcRead.LexState.NextBlock | LuaJIT-2.0.4/src/lj_bcread.c:442-449 | a block behind its length depends on the bytes of the stream alone, not on how they arrive |
| BcRead.NumberRoundTrip | LuaJIT-2.0.4/src/lj_bcread.c:136-151 | every 32 bit number written in front of other bytes is read back, and those bytes are left |
| BcRead.WriteUleb33 | LuaJIT-2.0.4/src/lj_bcwrite.c:214-235 | the number with bit 31 forced and its last byte patched is the true 33 bit number |
| BcRead.Number33RoundTrip | LuaJIT-2.0.4/src/lj_bcread.c:154-169 | every 33 bit number written is read back |
| Request.Parser.Consume | request.cc:152-388 | one character moves the parser object exactly as the automaton of the grammar moves its value |
| Request.Parser.Parse | request.cc:29-49 | one call feeds its text up to the first complete or bad request and resets the parser after it |
| Request.NextOk | request.cc:152-388 | every character keeps the invariants - in a header line there is a header, and in the body the length read plus the length remaining is the announced one - and a complete request has as much body as its headers announce |
| Request.AnySplit | request.cc:29-49 | however a completing text is cut into calls, all are indeterminate except the last, which gives the request |
| Request.PrintedCompletes | request.cc:152-388 | a printed request, with continued header lines or without, is complete with its last character and not before, and has the method, URI, version, headers, body and raw text it was printed from |
| RequestGrammar.Grammar | request.cc:152-388 | the parser completes a request with the last character of a text exactly when the text is that of a well-formed request, and then has its parts |
| RequestGrammar.TokenChars | request.cc:121-144 | the characters of methods and header names are the token characters of section 2.2 of RFC 2616 |
| RequestGrammar.LengthRead | request.cc:361-372 | a Content-Length in decimal digits is the length of the body |
| RequestGrammar.HeaderFirst | request.cc:58-66 | the value of a header is that of the first one of its name, or empty |
| Request.AnyCalls | request.cc:29-49 | a printed request comes through any split into calls |
| Request.RestDropped | request.cc:36-40 | what follows a complete request in the same call is lost |

## Findings

Properties that turned out false of the code, each with an input and, where it applies, its exact condition:

- `compute_tree_index` shifts in 32 bits, so that for sizes from 2^40 on the bin chosen can be one that
  does not hold the size (`TreeIndex.BinRight` gives the exact condition, `TreeIndex.BinNotMonotone` an
  input). Chunks that large do not occur below the 4 GB that LuaJIT demands of its mappings; the search
  for such a request still finds correctly that nothing fits.
- Emphasis matching does not end for `***a___`: a triple meeting a triple of the other character is
  split into pieces of sizes 0 and 3 (`Emphasis.MixedTriples`). `Emphasis.EndsUnlessClash` gives the
  exact condition; in the model the search stops there and says so.
- Un-matching undoes more emphasis pairs than nesting needs, as for `*a _b* **c_ d**`
  (`Emphasis.UndoneInVain`): a pair is undone exactly if another one opens inside it and closes after
  it, even if that one is undone itself later.
- The configuration parser drops a word at the very end of a text without an error
  (`Config.DroppedWord`), exactly when the text ends inside an unquoted word (`Config.TrailingWord`).
- A carriage return ends no word, although it is white space between words, so that the last word of a
  line with CR LF keeps it (`Config.CarriageReturn`). An unquoted token holds a blank exactly when the
  text has a carriage return inside an unquoted word (`Config.CarriageReturns`).
- The comment at shell.c:2458 promises that a backslash and an s stand for a space; the code makes it
  the letter (`CString.NoSpaceEscape`). The code does what its comment says exactly for texts without
  that escape (`CString.ResolvesAsDocumented`). The model follows the code.
- Text behind a complete HTTP request in the same call is lost (`Request.RestDropped`).

## Left out

- Allocator: direct mappings (`direct_alloc`, `direct_resize`: such requests go on as if the mapping had failed), `alloc_trim`, `release_unused_segments`, `lj_alloc_destroy` and the platform code; memory from the system is an argument, an aligned range below 4 GB apart from all segments, or failure.
- Allocator: the segment list is a sequence, and the words of the segment records and of the allocator's scalar fields are not modelled; the record and state chunks are reserved and never touched. Bin headers lie below address 4096, apart from all segments. Bitmaps are sets, and find-first-set is their least element.
- Allocator: memory is modelled in words of 8 bytes, so that `memcpy` copies whole words.
- DynASM: the actions DISP, VREG, MARK, SETLABEL, EXTERN, REL_A, IMM_LG and IMM_PC; the action bytes are a sequence of parsed actions with the guarantees of the preprocessor (`DasmWalk.ListOk`). Buffers grow as sequences, alignment masks are remainders, and offsets are unbounded below the 2 GB that the branch theorem asks for.
- DasmAssemble.Assemble: stops at the first error, where the C code goes on and reports the error when linking.
- SideTrace: the BASE register, stack checks, machine code limits and the IR_RENAME records; the free choice of a register is any register of the mask after the hint; a 64 bit spill slot is one location of the machine, which `SpillSlots` justifies. Instruction selection and the rest of the assembler only appear as the state they hand over.
- PatternText.PatternSyntax: says nothing of sets with a range that ends in the escape character, such as `[a-%%]`: the search for the closing bracket and the reading of the set disagree about it, and the Lua manual gives it no meaning.
- Patterns: `string.format`, `string.dump`, plain searches, the error messages (one abstract error), and the replacement text of `string.gsub`, which is a function of the match.
- Emphasis: the regular expressions that find the markers, and all block parsing; the model starts from the list of tokens. The characters that text and unmatched markers write.
- TableSort: comparators with side effects or errors, and negative or sparse indices.
- Config: opening files and error messages.
- Csv: NULL fields, separators of several characters, headers, the unterminated-quote and line-number messages; insertion into the database.
- CString: the reading and the execution of the commands; locales other than C.
- BcRead: everything behind the numbers (prototypes, constants, debug information), the 32 bit width of the buffer counters, and unfinished numbers at the end of the data; a bitwise or of disjoint bits is an addition.
- Request: `path_` and its percent decoding, `SetUri`, and threads; characters are those of 8 bits.
- The server, the handlers, `response.cc` and the remaining LuaJIT libraries: sockets, threads and thin wrappers.
