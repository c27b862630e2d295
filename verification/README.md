# A verified model of the render pipeline

This project models the HTML pipeline of the `render` package and the state it
keeps per request, and proves what the parts promise. `dafny verify
dfyconfig.toml` checks all of it.

Bytes are modelled as `char`, byte slices as `string`. A writer that cannot fail
is the class `Sink`. A registered component is any function of its pre-rendered
children and slots. The library's `html.EscapeString` is taken to replace the
same five bytes by the same entities as the package's own escapers. What else
the model sets aside is listed at the end.

How the modules follow the program:

- `Escaping`, `NodeStreams`, `TreeWalk`: the sink and the two escapers, the
  structure-of-arrays node stream and its builder, and the recursive walk. The
  `*HTML` functions of `TreeWalk` are the reference meaning of a stream; the
  methods are the walk itself.
- `Instructions`, `Compiler`, `Executor`: packed 64-bit instructions, the
  compiler with its pending static run and back-patched calls, and the
  interpreter. A program is read as a tree of items (`Decode`); `ItemsOf` says
  which items a node stands for, `RunHTML` what items write.
- `Agreement`, `Packing`, `SlotPartition`: when bytecode and tree walk write the
  same bytes, what packing loses, and how children are split into slots.
- `HtmlParser`, `ParserShape`, `ParserPanics`: the one-pass parser, the shape of
  its results and the inputs it panics on.
- `Markup`, `RoundTrip`, `Layout`, `Identity`: sources as lists of tokens and as
  trees, and what they come to. `Markup.Feed` says what a token is to do to the
  open elements and the nodes, `RoundTrip.Doc` what document a source stands for,
  and `Identity.Shown` what a document shows; parser, tree walk, compiler and
  executor are proved against these three.
- `Bits`, `ProgramCache`, `CacheRuns`: the cache with one caller, refined to a map
  keyed by hash, over whole runs.
- `SlotProtocol`, `OwnerWrites`, `SoloRuns`, `SteadyHits`, `CacheHits`: the cache
  with many callers as interleaved atomic steps: ownership, what each operation
  leaves, its agreement with the cache of one caller, and when hits are right.
- `Suspense`, `SuspenseProgress`: the coordinator as a transition system of main
  thread, workers, writer, channel and buffers; delivery and progress.
- `Writers`: the byte writer and the per-flush writer in front of it.
- `ContextStack`, `Fluent`: the cascading-context stack, trees of synchronous
  components that succeed, fail or panic, the fork of asynchronous ones, and
  the middleware chain. A panic is an ending that every caller unwinds by hand,
  deferred calls included.
- `CopyOnWrite`, `Registries`: the load, copy and swap loop for any kind of
  snapshot, then the component map and the preload hints.
- `Assets`, `HeadState`, `PageState`, `WrittenMarkup`: asset lists, meta tags and
  ids, what a page emits after its view and layout passes, and what a parser makes
  of it.
- `Wrappers`, `Sequences`, `OutOfBand`: an optional value, facts about sequences,
  and the chunk around an out-of-band update.

Where the code does something in place the model does too: builders, compiler,
cache, writers, stacks and tables are classes over arrays and slices, each
method proved against a function of the old state. The laws are lemmas about
those functions.

## Results that are not what the comments say

The model follows the code in all of these.

- bytecode.go:22-25 calls the second operand 32 bits wide; 24 survive
  (`Instructions.InstFields`). A longer static run loses bytes and a later
  component end is cut, usually to a backward jump (`Packing.PackedExactly`,
  `Agreement.TruncatedEndGoesBack`).
- A component nested under another is not dispatched by the bytecode
  (bytecode.go:352-360), and the bytecode drops the tags of a slot wrapper
  outside components (bytecode.go:156-164), so the two paths differ exactly there
  (`Agreement.CompilationPreservesMeaning`).
- execute.go:258-261 says that children without a slot are stored under the
  empty key; they are stored under "default", which the bytecode does not do
  (`SlotPartition.ChildrenPartition`).
- The parser panics on an input that ends, inside a tag, behind an attribute's
  `=` and blanks or right behind an opening quote, and on no other
  (`ParserPanics.PanicsExactly`).
- A deleted or invalidated cache entry hides entries behind it on their probe
  path (`CacheRuns.RunGetExactly`), an entry hidden while its hash is put again
  survives the delete of that hash (`CacheRuns.DeletedComesBack`), and a tag
  outlives the entry it was given to (`CacheRuns.TagDropsExactly`).
- With many callers a hit may return the program of another hash, but only when
  its slot's word moves between the second sequence check and the load
  (`SteadyHits.SteadyHitIsStored`); as long as nothing is deleted or invalidated,
  that takes more Puts than the table has slots (`CacheHits.PutsBoundIsTight`).
- suspense.go:371-372 says that a panic without a boundary submits a
  placeholder; the code drops it (suspense.go:393-398), and the delivery theorem
  says so. The writer waits for all workers before it receives again, so more
  than 8 outstanding payloads can make it wait for ever
  (`SuspenseProgress.EightIsTight`).
- writer.go:85-87 speaks of a 64 KiB cap; the buffer keeps the capacity it
  started with (`Writers.WritersHoldLittle`).
- page.go:188-189 says that page-wide ids never collide; they do when the
  layout's context handed out ids before the view (`PageState.PageKeepsIds`). A
  title set on the layout's context before the view is lost even if the view
  sets none (`PageState.PageKeepsHead`).

## Model

| member | source | states |
|---|---|---|
| `Escaping.EscapeAppend` | bytecode.go:198-216 | The byte-wise escaper of the compiler appends exactly the input with the five bytes replaced by their entities. |
| `Escaping.EscapeBytes` | execute.go:354-387 | The run-splitting escaper of the tree walk writes those same bytes for every input. |
| `Escaping.EscapedHasNoMarkup` | execute.go:354-387 | Escaped output holds no raw `<`, `>`, `"` or `'`. |
| `Escaping.UnescapeEscape` | bytecode.go:198-216 | Decoding the five entities gives every input back. |
| `Escaping.EscapeInjective` | bytecode.go:198-216 | Different inputs have different escaped forms. |
| `Escaping.EscapeFixpoint` | bytecode.go:211-212 | Text is left alone exactly when it has none of the five bytes; escaping never shortens. |
| `Escaping.EscapeConcat` | bytecode.go:112-118 | Escaping piece by piece, as coalescing does, is escaping the whole. |
| `Escaping.FiveEntities` | execute.go:356-369 | The five entities, encoded and decoded. |
| `NodeStreams.NodeStreamBuilder.AppendNode` | soa.go:284-300 | Adds one entry to every parallel slice and returns its index; the tables stay in bounds. |
| `NodeStreams.NodeStreamBuilder.AppendText` | soa.go:321-333 | Adds a text node whose range is exactly the text copied to the end of the shared buffer. |
| `NodeStreams.NodeStreamBuilder.SetAttrsEach` | soa.go:362-374 | Adds the pairs in order to the attribute tables and gives the node exactly their range; no pairs, no change. |
| `NodeStreams.NodeStreamBuilder.FinalizeChildren` | soa.go:241-265 | The single pass leaves each first-child link at the least node with that parent and each sibling link at the least later node with the same parent, -1 when there is none. |
| `NodeStreams.ChainIsChildren` | soa.go:241-275 | After it, the sibling chain of a node is exactly its children in increasing order. |
| `NodeStreams.LinkedIsForward` | soa.go:237-240 | When parents precede children every link goes forward, so every walk ends. |
| `NodeStreams.NextSiblingIsEnd` | soa.go:252-264 | In a depth-first listing the next sibling is the first node after the whole subtree, if the parent goes on. |
| `NodeStreams.WalkVisitsAllInOrder` | soa.go:267-275 | The depth-first walk over the links visits 0..n-1 once each, in order. |
| `TreeWalk.Execute` | execute.go:16-28 | Writes the rendering of node 0 after what was there; nothing for an empty stream. |
| `TreeWalk.EmitNode` | execute.go:39-73 | The recursive walk writes exactly the node's rendering, in each of its five cases. |
| `TreeWalk.WalkChildren` | execute.go:31-35 | The sibling loop writes the renderings of all children in order. |
| `TreeWalk.EmitOpen` | execute.go:100-150 | Writes the tag with all attributes in order, values of every kind turned into strings and escaped, nil values as bare names, and the right end. |
| `TreeWalk.EmitAttr` | execute.go:116-143 | One attribute, piece by piece: blank and name, then the quoted escaped value unless it is nil. |
| `TreeWalk.EmitComponent` | execute.go:157-224 | Dispatches to the registered component with its pre-rendered children and slots, writes the placeholder for a missing one, and nothing for an unnamed one. |
| `TreeWalk.CollectChildHTML` | execute.go:233-256 | Returns one pre-rendered string per child, in order. |
| `TreeWalk.CollectSlots` | execute.go:262-285 | Returns under each slot name, "default" for none, the renderings of its children joined in order. |
| `TreeWalk.WalkRender` | execute.go:292-349 | Like the node walk, except that a slot wrapper shows only its children. |
| `Instructions.InstIsSum` | bytecode.go:49-52 | The or of the three shifted fields, cut to 64 bits, is the sum of the fields with the second operand modulo 2^24: they do not overlap. |
| `Instructions.InstFields` | bytecode.go:49-52 | Of a packed word the opcode and the first operand are read back as packed, and the second operand modulo 2^24. |
| `Instructions.FetchEncode` | bytecode.go:49-52 | An instruction is read back unchanged exactly when its operands fit their fields. |
| `Compiler.Bytecode.AddComp` | bytecode.go:68-76 | Returns the index of the name, adding it only when it is new. |
| `Compiler.Bytecode.AppendStatic` | bytecode.go:79-85 | The program means what it meant, then the bytes. |
| `Compiler.Bytecode.FlushStatic` | bytecode.go:88-95 | The pending run becomes one instruction without changing what the program means, and the runs still tile the buffer. |
| `Compiler.Bytecode.Dynamic` | bytecode.go:98-101 | Nothing is pending when the instruction is appended, and the flush before it changes no meaning. |
| `Compiler.Bytecode.EmitText` | bytecode.go:107-118 | Adds the text's bytes, escaped unless raw, with their exact count. |
| `Compiler.Bytecode.EmitComponent` | bytecode.go:119-136 | The back-patched call stands for one component whose children are exactly the instructions up to its end, static bytes included. |
| `Compiler.Bytecode.Patch` | bytecode.go:135-136 | Rewrites one word to the current end of the code and keeps the tiling of the static buffer. |
| `Compiler.CallAppended` | bytecode.go:120-136 | Why the flush before the back-patch matters: with nothing pending on either side the new range decodes to the call with its children. |
| `Compiler.Bytecode.EmitElement` | bytecode.go:141-148 | Adds open tag, children and close tag in this order. |
| `Compiler.Bytecode.EmitChildren` | bytecode.go:154-168 | Adds the children in order, slot wrappers as named regions. |
| `Compiler.Bytecode.EmitSlot` | bytecode.go:156-165 | Adds the wrapper's content between a begin marker with its name and an end marker. |
| `Compiler.AppendAttr` | bytecode.go:178-188 | The compiler's own pieces of an attribute, through its own escaper, are the bytes the tree walk writes. |
| `Compiler.Bytecode.AppendOpenTag` | bytecode.go:173-195 | Adds the same bytes that the tree walk's open tag writes. |
| `Compiler.Bytecode.Emit` | bytecode.go:104-150 | After any node, decoding the new code followed by the pending bytes gives the old pending bytes followed by the node's meaning; earlier code is untouched. |
| `Compiler.CompileBytecode` | bytecode.go:58-65 | The packed code of any tree-shaped stream decodes to its meaning, its operands are in bounds, component ranges point forward and nest, and the static runs tile the buffer, as long as 32 bits count the static bytes; the buffer is the literal text in any case. |
| `Executor.VM.Run` | bytecode.go:240-261 | Running a well-formed range terminates in bounds and writes what the range stands for. |
| `Executor.VM.RunOne` | bytecode.go:243-258 | One instruction moves strictly forward and writes its part. |
| `Executor.VM.CollectChildren` | bytecode.go:324-370 | Returns the chunks and slots that the accumulator meaning gives the range, the last flush included; nested components run in place. |
| `Executor.VM.CollectOne` | bytecode.go:346-367 | One instruction moves strictly forward and updates buffer, name, children and slots accordingly. |
| `Executor.Exec` | bytecode.go:223-229 | A whole well-formed program writes what it stands for. |
| `Executor.NestedIsInlined` | bytecode.go:352-360 | A component nested under another is not dispatched: the outer one gets what the inner one's children write, as if it stood there in plain bytes. |
| `Agreement.CompilationPreservesMeaning` | bytecode.go:154-168 | For every tree-shaped stream with named components and slot wrappers only outside components, bytecode and tree walk write the same bytes for all components that see only their joined children, exactly when no component is nested under another and every marked wrapper is a fragment or an empty text. |
| `Agreement.UnslottedPreservesMeaning` | bytecode.go:345-361 | Without slot wrappers they do exactly when no component is nested under another. |
| `Agreement.FetchedIsPacked` | bytecode.go:243-251 | The executor reads back the very program that was packed exactly when every operand fits its field. |
| `Agreement.InBoundsFits` | bytecode.go:49-52 | In a well-formed program below 2^24 instructions every operand fits except, exactly, the length of a longer static run. |
| `Agreement.ShortIsPacked` | bytecode.go:49-52 | With code and static runs below 2^24 nothing is lost in packing. |
| `Agreement.TruncatedEndGoesBack` | bytecode.go:136-136 | A component's end is read back modulo 2^24. If the call spans at most 2^24 instructions, that is ahead of the call exactly when the end is below 2^24; otherwise the executor would jump back. |
| `Packing.PackedExactly` | bytecode.go:49-136 | For every compiled program below 2^24 instructions the packed code can be executed in bounds, and it writes what the stream means, for all components, exactly when every static run is shorter than 2^24. |
| `Packing.EchoLength` | bytecode.go:240-370 | No literal byte is lost or doubled on the way through children, slots and nested components: with components that write all they are given, the output is as long as the static text. |
| `Packing.LiteralBytes` | bytecode.go:88-95 | Decoding a range uses each of its static runs exactly once. |
| `Agreement.ExecCompiled` | bytecode.go:223-229 | Executing compiled code with code and static runs below 2^24 writes the program's meaning. |
| `Agreement.RenderCompiled` | bytecode.go:223-261 | Under the conditions above it writes exactly the bytes of the tree walk. |
| `Agreement.DynamicCountIsMarks` | bytecode.go:97-101 | The compiler makes one dynamic instruction per component and two per slot wrapper. |
| `Agreement.StaticCountIsBounded` | bytecode.go:87-95 | There are at most as many instructions as dynamic ones and static bytes together, since no static run is empty. |
| `Agreement.CompileAndExec` | bytecode.go:58-65 | A stream with fewer than 2^24 static bytes and dynamic instructions compiles and runs without loss. |
| `Agreement.ItemsBalanced` | bytecode.go:155-168 | Slot markers balance within the program and within every component's range. |
| `SlotPartition.ChildrenPartition` | bytecode.go:324-370 | With plain children and slot wrappers only as direct children: the children join to the rendering of the unslotted ones, each slot holds the contents of its wrappers in order, and the tree walk agrees on a name exactly unless it is "default" and some unslotted child renders to something. |
| `SlotPartition.TreeSlots` | execute.go:262-285 | The tree walk's map holds under each name what was there, then the renderings filed under it, in order. |
| `SlotPartition.FiledIsSlotted` | execute.go:265-281 | Those are the wrappers' contents, except that "default" also gets every unslotted child. |
| `HtmlParser.ParseValue` | parse_html.go:132-155 | Reads a quoted, unquoted or absent value, or runs past the end, just as the scan function says. |
| `HtmlParser.ParseAttrs` | parse_html.go:108-157 | Reads all attributes in order, whether the tag closes itself, and where it stops. |
| `HtmlParser.AddElement` | parse_html.go:167-184 | Adds one element with flags, name, attributes and parent. |
| `HtmlParser.ParseTag` | parse_html.go:92-189 | One tag makes progress and leaves the rest of the parse as it was; or it is the failure the whole parse ends with. |
| `HtmlParser.ParseHTML` | parse_html.go:57-208 | The loop with its stack of open tags computes the recursive parse for every input, errors and panics included. |
| `ParserShape.ParseIsPreordered` | parse_html.go:71-208 | Every successful parse lists its nodes depth-first: parent -1 at the root, every later node below the one before it or one of its ancestors; only components carry names. |
| `ParserShape.Parse` | soa.go:230-235 | After linking, the stream is well formed and its links visit every node once in order; there are no slot wrappers and all components are named. |
| `ParserPanics.PanicsExactly` | parse_html.go:138-153 | The parser indexes past the end of exactly those inputs that a byte scan with finitely many states leaves behind an attribute's `=` and blanks, or right behind an opening quote. |
| `ParserPanics.PanicOnlyAtEnd` | parse_html.go:133-153 | The last byte of such an input is `=`, a blank or a quote. |
| `ParserPanics.PanicWitness` | parse_html.go:149-153 | `<a x=` is such an input, `a x=` is not. |
| `Markup.AttrsRead` | parse_html.go:111-157 | Printed attributes are read back in order up to the end of the tag, whatever white space goes before them and whether values are in double or single quotes, bare or missing. |
| `Markup.TokensRead` | parse_html.go:75-205 | Wherever it stands in a source, any list of texts, comments, opening and closing tags is read as: texts and elements go below the innermost open element, comments nowhere, and every closing tag closes the innermost element whatever its name. |
| `Markup.ParseTokens` | parse_html.go:57-208 | So every such list parses, stray closing tags and unclosed elements included, to exactly the nodes it stands for. |
| `Markup.BadTagFails` | parse_html.go:78-107 | After any such list, a `<` with nothing or no name behind it fails at its own offset with the message for its case. |
| `Markup.OpenCommentSwallows` | parse_html.go:83-90 | A comment that does not end swallows the rest of the source and adds nothing. |
| `Markup.CutTagOpens` | parse_html.go:135-152 | A tag the source ends in is an open tag all the same, and an open quote goes to the end. |
| `Markup.SlashEndsTag` | parse_html.go:119-123 | A slash ends a tag at once: what follows it is content, even in front of the `>`. |
| `RoundTrip.FeedForest` | parse_html.go:160-187 | The tokens of a forest leave the stack of open elements as it was and add its nodes in pre-order. |
| `RoundTrip.ParsePrint` | parse_html.go:57-208 | Parsing the printed form of any canonical forest, comments anywhere, yields exactly its pre-order node stream. |
| `Layout.LaidNext` | soa.go:241-265 | In a parsed stream the next sibling of a node is the first node after its subtree that hangs below the same parent. |
| `Identity.TextRenders` | execute.go:44-56 | A raw text renders to its own bytes; any other renders to bytes without markup that decode to it; the compiler emits the same bytes. |
| `Identity.AttrRenders` | execute.go:98-150 | What stands between the quotes of an attribute decodes to its value, whatever kind the value has, and has no markup; an absent value leaves the bare name. |
| `Identity.ClosedRenders` | execute.go:62-66 | An element flagged void or self-closing is one tag with all its attributes on both paths and shows no children. |
| `Identity.UnnamedRenders` | bytecode.go:345-361 | A component without a name shows nothing in the tree walk and is dispatched under the empty name by the bytecode. |
| `Identity.SourceShows` | execute.go:39-73 | For every canonical source and registry the tree walk writes what its document shows: texts and values escaped, void and self-closing elements ended by a slash, comments gone, components replaced by what they make of their children and slots, or by the comment for a missing one. |
| `Identity.WalkSource` | parse_html.go:57-208 | Parse and walk: those bytes for every canonical source. |
| `Identity.RenderMarkup` | bytecode.go:104-195 | Parse, compile, execute: the same bytes, for components that see only their joined children and are not nested, if the program needs fewer than 2^24 bytes and instructions. |
| `Identity.PlainSourceRenders` | execute.go:39-73 | A source written as the renderer writes it, without components, comments and bytes to escape, renders to itself along both paths, whatever the registry. |
| `Identity.RenderSource` | bytecode.go:104-195 | Parse, compile, execute: such a source below 2^24 bytes comes back unchanged. |
| `Bits.NextPowerOfTwo` | cache.go:359-372 | Smearing computes the least power of two at or above n, for all n up to 2^62. |
| `Bits.SmearStep` | cache.go:363-369 | One shift-and-or doubles the run of ones at the top of the word. |
| `Bits.MaskIsModulo` | cache.go:103-105 | Masking with a power of two less one is the remainder. |
| `ProgramCache.PosIsMasked` | cache.go:104-105 | The i-th probed index is the cyclic i-th slot after the home. |
| `ProgramCache.HomeIsMasked` | cache.go:103-103 | The home index is the hash modulo the capacity. |
| `ProgramCache.GetIsLookup` | cache.go:98-134 | On a table that refines a map, Get agrees with the map on every hash. |
| `ProgramCache.RoomOrEviction` | cache.go:143-164 | A Put finds room exactly when the hash is stored or some slot is empty; otherwise it evicts. |
| `ProgramCache.PutRefines` | cache.go:137-165 | A Put updates the map at its hash, after removing the victim's hash when it evicts, and keeps one reachable slot per hash. |
| `ProgramCache.TagRefines` | cache.go:232-261 | Tagging changes no lookup. |
| `ProgramCache.EvictsOldest` | cache.go:169-182 | The victim is the lowest-indexed slot of minimal sequence; slot 0 when no sequence is below the scan's bound. |
| `ProgramCache.ClearedExactly` | cache.go:110-114 | Emptied slots are no tombstones: Get agrees with the map less the emptied entries exactly when no remaining entry's probe path crosses an emptied slot. |
| `ProgramCache.DeleteExactly` | cache.go:201-227 | The same for a Delete, on the one slot of its hash. |
| `ProgramCache.InvalidateExactly` | cache.go:264-292 | The same for all slots carrying the invalidated tag bit. |
| `ProgramCache.Cache.constructor` | cache.go:74-95 | An empty table whose capacity is the least power of two that is at least 64 and the one asked for. |
| `ProgramCache.Cache.Get` | cache.go:98-134 | Returns what the probe finds and counts one hit or one miss. |
| `ProgramCache.Cache.Put` | cache.go:137-165 | The probe loop stores into the first slot that is empty or has the hash, or evicts. |
| `ProgramCache.Cache.EvictLRU` | cache.go:169-198 | Overwrites the oldest slot and counts one eviction. |
| `ProgramCache.Cache.SetTag` | cache.go:232-261 | Ors the bits into the slot of the hash; an absent hash changes nothing. |
| `ProgramCache.Cache.Delete` | cache.go:201-227 | Empties the slot of the hash, tags kept. |
| `ProgramCache.Cache.InvalidateTag` | cache.go:264-292 | Empties every slot carrying the bit, tags dropped, and no other. |
| `CacheRuns.StepExactly` | cache.go:137-292 | One operation on a table that refines a map keeps Get in agreement with the changed map exactly when it empties no slot on the probe path of an entry that stays. |
| `CacheRuns.RunRefines` | cache.go:97-292 | Over every run of Put, SetTag, Delete and InvalidateTag that cuts no probe path, evictions included, each hash has at most one slot, no empty slot lies between its home and its slot, and the table stores exactly the latest Puts minus the hashes evicted, deleted or invalidated since. |
| `CacheRuns.RunGetExactly` | cache.go:97-292 | Over all runs of the four operations: Get has agreed with that map after every step exactly when no operation has cut a path. |
| `CacheRuns.RunGet` | cache.go:97-134 | After every run of Put and SetTag Get agrees with the map. |
| `CacheRuns.RunHitWasPut` | cache.go:97-134 | After any run at all, what Get returns for a hash was put under that hash. |
| `CacheRuns.DeleteHidesWitness` | cache.go:221-223 | In a table of any size above 1, two hashes with one home: deleting the first hides the second. |
| `CacheRuns.DeletedComesBack` | cache.go:201-227 | In a table of any size above 1, a run after which a deleted hash is not found, and after one more Put of another hash is found again with a program that was replaced before the delete. |
| `CacheRuns.TagDropsExactly` | cache.go:154-160 | After any run of Put, SetTag, Delete and InvalidateTag, invalidating a bit drops a stored hash exactly when, since an invalidation last emptied its slot, the bit was given to that hash there or to another hash that had the slot before it: stores and deletions leave the tags of a slot alone. |
| `CacheRuns.StaleTagWitness` | cache.go:221-223 | In a table of any size, a deleted entry's tag drops the next entry of its slot, which was never given it. |
| `CacheRuns.WordIsTouches` | cache.go:154-160 | After any run below the wrap a slot's sequence word is twice the number of operations that have written to it. |
| `CacheRuns.VictimIsLeastWritten` | cache.go:169-182 | So an eviction takes the slot written to least often in the whole run, the first of those. |
| `ProgramCache.TaggedInCounts` | cache.go:271-290 | The count an invalidation returns is the number of slots carrying the bit. |
| `SlotProtocol.StepCells` | cache.go:154-159 | In every step a sequence word never decreases, and hash, tags and program change only in a step of the thread that owns the slot. |
| `SlotProtocol.StepKeepsInv` | cache.go:144-161 | Every atomic step of every operation keeps: odd word, one owner; even word, none; and what each thread has read so far. |
| `SlotProtocol.CasProvesRead` | cache.go:150-156 | A compare-and-swap that succeeds proves that the hash (or tags) read before is still current. |
| `SlotProtocol.WaitsOrPasses` | cache.go:209-216 | At a slot that is being written a Delete or an invalidation waits, and a Put, a Get or a SetTag goes past it. |
| `SlotProtocol.MovedWordGoesBack` | cache.go:154-156 | When the word has moved on nothing is written: a swap is tried again from the load of the word, and a Get goes past the slot. |
| `SlotProtocol.RunIsSafe` | cache.go:98-292 | The same over all interleavings: the word is odd exactly while exactly one thread owns the slot. |
| `OwnerWrites.OwnerAfter` | cache.go:157-159 | A step of an owner changes nothing about what it will leave in its slot, and its release leaves just that. |
| `OwnerWrites.ReleaseLeaves` | cache.go:221-223 | Over every interleaving: when an operation releases its slot, a Put has left its hash and program, a SetTag the hash with all its bits, a Delete and an invalidation no hash and no program, an invalidation also no tags. |
| `SoloRuns.CallAlone` | cache.go:137-292 | For every table, one Put, SetTag, Delete or InvalidateTag with no other call in between comes to its end with the slots of the table operation, while words stay below the wrap. |
| `SoloRuns.LookupAlone` | cache.go:98-134 | One Get alone hits with what the table holds and changes nothing. |
| `SoloRuns.SequentialRun` | cache.go:137-292 | Any operations one after the other, in a run of the system: the slots are those of the table after the same operations. |
| `SteadyHits.StepKeepsConsistent` | cache.go:154-160 | Every atomic step of every operation keeps: a slot with an even word holds a program stored under its hash, and one with an owner will when its owner has made its remaining writes. |
| `SteadyHits.SteadyHitIsStored` | cache.go:118-130 | Over every interleaving of all five operations, evictions and deletions included, a hit returns a program that some Put has stored under that hash, unless the slot's word has moved between the Get's second check of it and the load. |
| `CacheHits.QuietHits` | cache.go:118-130 | In every interleaving of Put, Get and SetTag in which no Put has reached the eviction scan, however many Puts there are, every hit returns a program that some Put has stored under that hash. |
| `CacheHits.FewPutsAreQuiet` | cache.go:137-164 | In every interleaving of Put, Get and SetTag with at most as many Puts as slots, no Put gives up looking for a slot: claimed slots and Puts still looking are no more than the Puts started. |
| `CacheHits.HitsAreStored` | cache.go:118-130 | With at most as many Puts as slots every hit is therefore right. |
| `CacheHits.EvictionBreaksHits` | cache.go:118-124 | For every table size, a run with one Put more than slots and a Get that hits one hash with the program of another. |
| `CacheHits.PutsBoundIsTight` | cache.go:118-164 | Hits are right in every run with at most p Puts exactly when p is at most the number of slots. |
| `Suspense.KeepsOwners` | suspense.go:338-404 | No step gives a buffer a second owner among workers, payloads and pool. |
| `Suspense.KeepsBuffers` | suspense.go:320-404 | No step loses a buffer: a worker, a payload or the pool has it. |
| `Suspense.KeepsSent` | suspense.go:390-400 | Payloads are received and released in the order of sending, each once. |
| `Suspense.KeepsOut` | suspense.go:280-328 | Every step keeps the output equal to whole chunks in that order, then a part of the current one. |
| `Suspense.KeepsInv` | suspense.go:171-406 | Every step of main thread, workers and writer keeps the whole invariant. |
| `Suspense.ReachableIsSafe` | suspense.go:220-274 | In every reachable state: once the writer has closed the channel all workers are finished, so nobody sends on it; every buffer has exactly one owner; chunks are never interleaved. |
| `Suspense.ExitDelivers` | suspense.go:250-274 | When the writer exits, the output is exactly one whole chunk for each job that rendered or whose boundary did, and nothing else. |
| `Suspense.ChunkByOutcome` | suspense.go:365-400 | By outcome: rendered bytes, a recovered boundary's bytes or the placeholder of a failed boundary, wrapped for the target; nothing after an error or a panic without boundary. |
| `Suspense.ExitOutcomes` | suspense.go:250-274 | At exit every job but those that panicked without boundary has its chunk in the output as one piece. |
| `SuspenseProgress.MeasureDecreases` | suspense.go:220-274 | Every step decreases a measure. |
| `SuspenseProgress.RunIsBounded` | suspense.go:220-274 | So every run has a bounded number of steps. |
| `SuspenseProgress.SentAtMost` | suspense.go:390-400 | At most one payload per sending job, and one less while a sender still waits. |
| `SuspenseProgress.RoomExits` | suspense.go:250-262 | With at most 8 payloads outstanding some step is possible until the writer has exited. |
| `SuspenseProgress.NoRoomSticks` | suspense.go:250-262 | With more, a waiting writer can get stuck for ever. |
| `SuspenseProgress.DrainExitsExactly` | suspense.go:250-274 | On entering drain the writer is sure to exit exactly when at most 8 payloads are unsent or queued. |
| `SuspenseProgress.EightIsTight` | suspense.go:131-131 | From the start, it is sure to exit exactly when at most 8 jobs send: 9 can reach a stuck state. |
| `Writers.WritersConserve` | writer.go:88-157 | Over every sequence of writes and flushes the sink, then the byte writer's buffer, then the per-flush buffer, hold all bytes in order; a release leaves them all in the sink. |
| `Writers.WritersHoldLittle` | writer.go:196-292 | The byte writer never outgrows its capacity; a positive threshold bounds what is held back, beyond what the parent held before; with a flusher everything in the sink is on the wire. |
| `Writers.StringsAreSlices` | writer.go:125-139 | Writing a string and writing a slice do the same exactly when the writer has a buffer. |
| `Writers.RunConserves` | writer.go:235-344 | The conservation law for any starting pipe that passes through or holds. |
| `Writers.ByteWriter.Write` | writer.go:88-108 | Buffers, flushes first, or writes through, as the capacity demands. |
| `Writers.ByteWriter.WriteString` | writer.go:125-140 | The same without making a buffer first. |
| `Writers.ByteWriter.WriteByte` | writer.go:112-120 | Flushes a full buffer, then appends. |
| `Writers.ByteWriter.Flush` | writer.go:147-157 | Moves the buffer to the sink and signals; an empty buffer signals nothing. |
| `Writers.PerFlushWriter.constructor` | writer.go:219-230 | A negative threshold counts as 0; the buffer starts empty. |
| `Writers.PerFlushWriter.FlushToParent` | writer.go:258-267 | Moves the held bytes to the sink; nothing held, nothing done. |
| `Writers.PerFlushWriter.Write` | writer.go:272-295 | Passes through, flushes and writes on, or holds back, by threshold. |
| `Writers.PerFlushWriter.WriteString` | writer.go:300-320 | The same for strings. |
| `Writers.PerFlushWriter.WriteByte` | writer.go:324-335 | Holds one byte more, flushing first when the threshold is reached. |
| `Writers.PerFlushWriter.Flush` | writer.go:339-344 | Empties both buffers into the sink. |
| `Writers.FlushDelivers` | writer.go:339-344 | A flush after any writes leaves both buffers empty and every byte in the sink, in order, and with a flusher on the wire. |
| `Writers.BelowThresholdWaits` | writer.go:272-296 | Less than the threshold stays in front: without a flush neither the byte writer nor the sink is touched. |
| `Writers.BelowCapacityWaits` | writer.go:88-110 | Without a threshold, what fits the byte writer's buffer stays in it until a flush. |
| `Writers.PerFlushWriter.Release` | writer.go:235-252 | Leaves everything in the sink and the buffer empty. |
| `ContextStack.RenderContext.PushContext` | context.go:324-343 | Pushes one binding, across the inline boundary and over stale slots. |
| `ContextStack.RenderContext.PopContextTo` | context.go:351-387 | Truncates the stack to the clamped depth and zeroes every popped slot. |
| `ContextStack.RenderContext.GetContext` | context.go:397-413 | Finds the nearest binding of the key, in either tier. |
| `ContextStack.RenderContext.Acquire` | context.go:482-488 | A reused context starts with the empty stack whatever its slots hold. |
| `ContextStack.LookupFindsNearest` | context.go:401-411 | Lookup returns the innermost binding of the key: inner bindings shadow outer ones. |
| `ContextStack.LookupFindsNothing` | context.go:401-411 | A key that no live binding has reads as nothing. |
| `ContextStack.PopToIsPrefix` | context.go:355-362 | Popping leaves the longest prefix that is no longer than the depth; a negative depth is 0. |
| `ContextStack.FrameRestores` | context.go:345-350 | Popping to the depth saved at a frame's start restores the stack after any pushes and inner pops. |
| `Fluent.StackIsRestored` | fluent.go:977-1004 | Rendering any component tree restores the context stack on success, error and panic, and when a boundary takes over. |
| `Fluent.PanicIsIsolated` | fluent.go:1006-1037 | A component with a boundary never lets a panic out; when its body panics the main stream gains only the boundary's bytes, plus the placeholder if the boundary fails or panics. |
| `Fluent.PageGoesOn` | fluent.go:1026-1032 | After a contained panic the page goes on just as if the component had been its replacement bytes. |
| `Fluent.PanicWithoutBoundary` | fluent.go:980-1036 | Without a boundary the panic goes on; only a component with a buffer keeps its partial bytes off the main stream, and the sink gains nothing but what nested components put there. |
| `Fluent.CleanPassesThrough` | fluent.go:1050-1053 | A success that changed no state renders as if there were neither boundary nor buffer. |
| `Fluent.DirtyGoesToSink` | fluent.go:1055-1085 | A success that changed state leaves the main stream alone and puts its bytes on the sink, wrapped once. |
| `Fluent.ErrorIsPassedOn` | fluent.go:1038-1040 | An error is passed on; on the buffered path nothing is written, neither to the page nor to the sink, even by a dirty body. |
| `Fluent.ProvidedIsRead` | fluent.go:239-258 | A provided value is what a later read of its key writes, whatever the body and its nested components have done in between, unless the body provided the key again. |
| `Fluent.ChildReads` | context.go:401-411 | A nested component reads the nearest value provided by the components around it. |
| `Fluent.DirtyExactly` | fluent.go:189-216 | A body that succeeds is dirty exactly when its component has a target and the body itself has changed state. |
| `Fluent.NestedError` | fluent.go:338-340 | A nested component's error ends the body if it is passed on; if not, the body goes on with what the component has left. |
| `Fluent.GuardedNeverPanics` | fluent.go:1006-1037 | A tree whose panics all sit below boundaries renders without a panic. |
| `Fluent.ComponentAppends` | fluent.go:966-1086 | What a component appends to both streams, and how it ends, does not depend on what was written before. |
| `Fluent.Render` | fluent.go:966-1086 | The rendering method computes that meaning on the real writer, sink and two-tier context stack, and unwinds the stack on every path. |
| `Fluent.RunBoundaryOn` | fluent.go:1142-1161 | Runs the boundary on the live writer and adds the placeholder unless it succeeds. |
| `Fluent.Deliver` | fluent.go:1050-1085 | Writes a clean body unchanged to the writer, a dirty one as one wrapped chunk to the sink. |
| `Fluent.FoldChain` | fluent.go:738-742 | The registration loop computes the nested composition, first middleware outermost. |
| `Fluent.ChainConcat` | fluent.go:738-742 | Further middleware wraps the base, inside what is there already. |
| `Fluent.AbortHidesTheRest` | fluent.go:726-742 | A middleware that never calls the next one makes everything inside it, base included, irrelevant. |
| `Fluent.AsyncRestoresStack` | fluent.go:863-876 | Dispatching an asynchronous component through any middleware restores the context stack, whatever its ending. |
| `Fluent.AbortPreventsFork` | fluent.go:826-831 | A middleware that does not call the next one prevents both the fallback and the worker, whatever the middleware around it does: what is inside it does not matter. |
| `Fluent.SubmitFollowsFallback` | fluent.go:905-917 | Whatever the middleware does, calling the next handler several times or swallowing its failure included: one worker is submitted for each run of the fallback that succeeded and for nothing else, and the bytes of every such run are on the main stream. |
| `Fluent.OnceSubmitsOnce` | fluent.go:826-831 | If no middleware calls the next handler twice, the fallback runs at most once and at most one worker is submitted. |
| `Fluent.AfterFollowsEnding` | fluent.go:412-424 | What a middleware does after its call depends on how that ended, success, error or panic. |
| `Fluent.FailedActEnds` | fluent.go:412-424 | A call of the middleware that fails ends it there: nothing is submitted after. |
| `Fluent.Fork` | fluent.go:891-918 | The chain around the fallback and the submit, on the real writer and stack. |
| `Fluent.Dispatch` | fluent.go:854-876 | The asynchronous path: the chain, then the pop of the context stack on every outcome. |
| `CopyOnWrite.KeepsInv` | component.go:442-454 | Every step of the load, copy, compare-and-swap loop keeps: private copies are private, published ones are never written, and the current snapshot is the sequential result so far. |
| `CopyOnWrite.PublishedIsImmutable` | preload.go:44-67 | No step writes to a snapshot that was ever published. |
| `CopyOnWrite.FailedSwapMeansProgress` | component.go:450-452 | A swap fails only when another operation was published since the load. |
| `CopyOnWrite.NoUpdateIsLost` | component.go:442-464 | Over every interleaving the current snapshot is the fold of the operations in the order they took effect, each once, every returned call among them; a reader's snapshot stays as it is. |
| `Registries.LookupIsLast` | component.go:457-464 | After any operations a lookup finds what the last one on the name left. |
| `Registries.HintsAreStanding` | preload.go:44-93 | After any Preloads and Unpreloads the list holds just the hints that stand, in the order they were added, none twice. |
| `Registries.PublishedHints` | preload.go:44-93 | In every interleaving the published hints are those, without duplicates. |
| `Registries.PublishedComponents` | page.go:255-268 | In every interleaving the published map answers with the last operation on the name. |
| `Registries.CopyRegister` | component.go:445-449 | The copy loop builds the old map with the one name set. |
| `Registries.CopyUnregister` | page.go:258-263 | The copy loop builds the old map without the name. |
| `Registries.CopyPreload` | preload.go:46-63 | Nothing for a hint that is there, else the old list with the hint at the end. |
| `Registries.CopyUnpreload` | preload.go:75-88 | Nothing when no hint matches, else the list without the matching ones. |
| `Assets.DedupIsFirstOccurrences` | assets.go:69-78 | What the calls leave is the non-empty paths sorted by first occurrence, each once. |
| `Assets.AddAllDedup` | page.go:205-210 | Handing over a deduplicated list is like handing over every call. |
| `Assets.TwoPassDedup` | page.go:201-220 | Across the two passes the list is the first-occurrence de-duplication of the calls before, during and after the view. |
| `Assets.AssetList.Requires` | assets.go:79-106 | Adds the path at the end unless it is empty or there already, across the inline boundary. |
| `Assets.AssetList.Take` | page.go:201-210 | The transfer loops require every entry of the view's list, inline ones first. |
| `Assets.AssetList.Clear` | assets.go:156-178 | Empties the list. |
| `Assets.WriteAssetTags` | assets.go:34-67 | Writes one tag per style sheet, then one per script, in list order. |
| `HeadState.SetAllNames` | head.go:127-157 | Meta names keep the position of their first call, none twice. |
| `HeadState.SetAllContents` | head.go:131-149 | Each name has the content of its last call. |
| `HeadState.SetAllTable` | page.go:191-200 | Handing over a table of meta tags is like handing over every call. |
| `HeadState.TwoPassMeta` | page.go:184-200 | Across the two passes each name keeps its first position and its last content. |
| `HeadState.MetaTable.AddMeta` | head.go:127-157 | Overwrites the content of a known name in place or appends a new one, in either tier. |
| `HeadState.MetaTable.Take` | page.go:191-200 | The transfer loops add every entry of the view's table in order. |
| `HeadState.WriteHeadTags` | head.go:55-82 | Writes the title tag unless empty, then one meta tag per entry in order. |
| `HeadState.PrecomputeIDs` | head.go:206-210 | The table holds the ids of 1 to 256. |
| `HeadState.IdInjective` | head.go:198-198 | Different numbers give different ids. |
| `HeadState.IdReads` | head.go:190-199 | An id is the prefix and a decimal that reads back as the number. |
| `HeadState.PageIdsDistinct` | page.go:221-221 | The ids of a page are pairwise distinct exactly when the layout's context handed out none before the view, or none is asked for after. |
| `PageState.RunCollects` | head.go:127-157 | Any mix of calls in a pass collects each kind on its own, and hands out consecutive ids. |
| `PageState.PageKeepsHead` | page.go:184-220 | For any calls before, during and after the view: assets by first occurrence, meta tags by first position and last content; the title is the last one set, except exactly that one set before the view is lost when nothing sets one after. |
| `PageState.PageKeepsIds` | page.go:187-221 | The page's ids are pairwise distinct exactly when the layout's context was fresh, or no further id is asked for. |
| `PageState.HeadContext.NextId` | head.go:190-199 | The next number's id, from the table or formatted. |
| `PageState.HeadContext.Do` | head.go:105-157 | Each call does to the real arrays and slices what it does to the abstract head. |
| `PageState.HeadContext.TakeFrom` | page.go:190-221 | The hand-over of title, meta tags, assets and id sequence. |
| `PageState.HeadContext.ClearHeadState` | head.go:161-177 | A reused context starts fresh. |
| `PageState.HeadContext.WriteTags` | assets.go:34-67 | What the head and asset components write for the current state. |
| `WrittenMarkup.HeadParses` | head.go:55-82 | What the head and asset components write parses: to a title unless it is empty, one meta element per entry, one link per stylesheet and one script per script, in order, and their texts and values decode to what was given. |
| `WrittenMarkup.ChunkParses` | suspense.go:250-274 | The chunk around a canonical source parses to one div with that source's document, the target's escaped id and the mark of an out-of-band swap. |

## Left out

- Write errors: every sink accepts all bytes, so error returns of writers are not modelled, and neither are errors of components in the pipeline modules.
- Request data: the data map handed to components, and with it slots left in a shared map for later siblings; a component sees its children and slots only.
- A missing request context or component registry (bytecode.go:266-273, execute.go:162-165), which makes components write nothing.
- Exec: the executor is modelled on programs whose ranges are in bounds. Compiled code of 2^24 instructions or more is left out: its component ends are cut and can lead backwards, where the loop of the source need not end.
- CompileBytecode: for 2^32 static bytes or more only the static buffer is described, since the 32-bit counters wrap.
- NodeStreamBuilder: the namespace and child-range slices are never read by the pipeline; text and attribute offsets are unbounded where the source cuts them to 32 bits.
- ParseHTML: the offset in a parse error is unbounded where the source cuts it to 32 bits; strings are copies where the source shares the input's memory.
- CompilationPreservesMeaning: for streams with named components and without slot wrappers inside components; there a component sees slots besides its children, and `ChildrenPartition` says how the two paths' children and slots relate. A component without a name shows nothing in the tree walk and is dispatched under the empty name by the bytecode. A text or childless-element wrapper that has children nevertheless is not considered.
- Hashing of engine and name pairs and of tag names: the cache operations take the hash and the bits; colliding pairs are one key, and a pair that hashes to 0 is not considered by the laws.
- RunGet: runs of Put and SetTag; with Delete and InvalidateTag the exact condition is `RunGetExactly`.
- HitsAreStored: runs of Put, Get and SetTag; a Delete or InvalidateTag frees slots for reuse, so the count of Puts is no measure then, and `SteadyHitIsStored` is what holds. Neither says that the program is the latest one.
- RunIsSafe: the sequence word is unbounded; 2^63 writes to one slot are not considered.
- Cache: the mapped memory region, Close and Stats.
- Suspense under cancellation, submits after the close, and a request that never closes: a worker may then send after the close, and an aborted buffer returns to the pool while its render goes on.
- SourceShows: canonical sources; the other inputs on which the parser succeeds (such as a name or value cut off by the end, or a slash inside a tag) are covered by `ParseIsPreordered`, and in part by `CutTagOpens`, `SlashEndsTag` and `OpenCommentSwallows`.
- CallAlone: words stay below the wrap at 2^64; the table operations wrap, the protocol's words do not.
- ExitDelivers: bytes that the main render flushes to the same response while the writer runs are not part of the output modelled; chunks are contiguous among themselves.
- Fork: the synchronous render when there is no request context or coordinator (fluent.go:892-901), and a component without a name, which submits nothing, are left out. The coordinator modules take the submitted jobs as given.
- Render: the out-of-band sink is a writer of its own; falling back to the request's writer when none is set (context.go:289-294), the trigger event of a dirty render and per-component function maps are not modelled. Components write, bind and read context values, change state and nest; state values themselves are not modelled.
- Writers without a sink, Reset (which drops held bytes) and pooling: a writer is used between acquiring and releasing. How far Go grows a full buffer beyond what is appended is not modelled; it happens only to a writer without a buffer.
- PushContext: a nil request context, on which all stack operations do nothing.
- Registry tags and variants: they change inner maps shared with published snapshots, so they are not copy-on-write.
- Memoized components, and the temporary YIELD component under concurrent page renders.
- emitPreloads: the link tags of the hints.
- Loading, watching, compression, minification, the router adapter, template engines, props, actions, form errors and response headers: wrappers over libraries, or the same patterns again.
