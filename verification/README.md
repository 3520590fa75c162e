# Verified models of the bundled LuaJIT

A Dafny model of the parts of LuaJIT that ship with the FOL compiler and carry its hardest
invariants, with proofs of what those parts are for. Every theorem is about all inputs, all runs or
all reachable states of the model; the models follow the code branch by branch.

| part | files |
|---|---|
| boundary-tag memory allocator | `AllocSizes`, `BinMaps`, `Trie`, `TrieSearch`, `Bins`, `Tiling`, `Growth`, `Heap` |
| DynASM x86 encoder, three passes | `DasmActions`, `DasmLabels`, `DasmPut`, `DasmLayout`, `DasmLink`, `DasmEncode`, `DasmBytes`, `DasmTheorems` |
| register shuffle and spill slots of the trace assembler | `Shuffle`, `Spill` |
| bytecode writer and reader | `Uleb`, `DumpSpec`, `DumpFormat`, `BcWrite`, `BcRead`, `DumpRoundTrip` |
| pattern matcher and `%q` quoting | `PatternSpec`, `PatternItems`, `Matcher`, `Quote` |
| `table.sort`, `luaL_ref`, 64-bit powers | `Sort`, `RefTable`, `Carith` |
| words as numbers, optional values | `Bits`, `Wrappers` |

`dafny verify dfyconfig.toml` checks everything.

**Allocator.** Memory is a map of 8-byte words. A ghost tiling of every segment into chunks ties the
head and foot words to it, the small bins and tries refine the set of free chunks, and ghost sets hold
the chunks in use and, among them, the records of the allocator itself. `Heap.Heap.Valid` is the
invariant: chunks tile each segment, each pinuse bit is the cinuse bit of the chunk before, a chunk with
a clear pinuse bit has the size of its free predecessor in `prev_foot`, no two free chunks are adjacent,
the free chunks are exactly `top`, `dv` and the disjoint bins, whose bitmaps tell which are empty, and
the chunks in use are exactly those handed out and one record for each segment. Every allocator operation
keeps it, and none changes a payload word of a chunk in use that it was not given. `Served` and
`StaysOrMoves` say where a block comes from: free memory before the system, a best fit in the bins, dv or
top by the rules of the source, in place whenever that is possible.

**DynASM.** Each recorded action is a ghost item that knows its buffer words and its estimate; a
history of references and definitions says what the chains threaded through the buffers must hold.
Pass 2 settles a final offset for every item, and pass 3 writes output that is described item by item,
so every byte is accounted for. `DasmBytes` reads the output back without the functions that wrote it:
`ItemMeans` says for each action number what its bytes are.

**Dumps.** `SameProto` says what it means for a prototype to come back; the writer is proved to emit
the documented grammar, the reader to undo it for any cut of the bytes into blocks. `DumpFormat` states
that grammar of the bytes alone, with plain numbers for tags and header bytes.

**Matcher.** `Results` lists all matches in order of preference, `Matches` says what a match is without
any order; the in-place matcher returns the head of the first, which holds exactly the second.
`PatternItems` gives patterns by their structure, with a meaning of its own for every item, set element
and class letter, and proves that matching the written text is matching the items.

Two places where the code does not do what a reader might expect, kept as they are:

- `compute_tree_index` truncates `S >> 8` to 32 bits, so the index depends on the size modulo 2^40 only
  (`TreeIndexWraps`). The index is the one without truncation exactly for the sizes below 2^40 and for
  those from 2^40 on whose remainder modulo 2^40 is at least 12 MB, the start of the last bin
  (`TreeIndexExact`); the size 2^40 itself gets the smallest bin (`TreeIndexTruncates`). Chunks are never
  that big, as mapped regions lie below 2^31, but a request of 2^40 bytes or more does go through the
  macro (lj_alloc.c:1054); `BestLarge` covers it.
- A back reference to a position capture never matches, since its length is taken as a huge unsigned
  number (`PositionNeverMatches`; `()%1` has no match at all, `PositionPairNeverMatches`). A back reference
  to a finished capture goes on exactly if that is no position capture and its text stands there
  (`BackRefGoesOn`).

## Model

| member | source | states |
|---|---|---|
| AllocSizes.Request2Size | LuaJIT-master/src/lj_alloc.c:351-357 | a padded request is aligned, holds the request and its header, is at least a minimal chunk and wastes less than one alignment unit |
| AllocSizes.TreeIndexMonotone | LuaJIT-master/src/lj_alloc.c:533-544 | a larger tree index means a strictly larger size, for all sizes below 2^40 |
| AllocSizes.LargePrefix | LuaJIT-master/src/lj_alloc.c:546-558 | all sizes of a tree bin agree on the bits above the one its root branches on |
| AllocSizes.IdealMonotone | LuaJIT-master/src/lj_alloc.c:533-544 | without truncation the index would order all sizes, and the last bin would take exactly those from 12 MB on |
| AllocSizes.TreeIndexWraps | LuaJIT-master/src/lj_alloc.c:533-544 | the index of every size is that of its remainder modulo 2^40 |
| AllocSizes.TreeIndexExact | LuaJIT-master/src/lj_alloc.c:533-544 | a size gets the untruncated index if and only if it is below 2^40 or its remainder modulo 2^40 is at least 12 MB |
| AllocSizes.TreeIndexTruncates | LuaJIT-master/src/lj_alloc.c:533-544 | an input that is misfiled: 2^40 gets the smallest tree bin; 2^40 + 2^24 is not |
| BinMaps.IncAdds | LuaJIT-master/src/lj_alloc.c:575-575 | the two's complement step on a bit map adds one to the number it stands for and wraps from all ones to zero |
| BinMaps.LeftBitsMask | LuaJIT-master/src/lj_alloc.c:575-575 | left_bits of a single bit is the mask of exactly the bits above it |
| BinMaps.NextBin | LuaJIT-master/src/lj_alloc.c:1080-1084 | masking the map with left_bits leaves no bit exactly if no bin above is marked, and otherwise lj_ffs gives the next marked one |
| BinMaps.NextSmallBin | LuaJIT-master/src/lj_alloc.c:1190-1206 | the same for the map shifted down by the bin index and up again |
| Trie.InsertOk | LuaJIT-master/src/lj_alloc.c:647-684 | inserting keeps the prefix invariant of the trie and adds exactly the new chunk |
| Trie.UnlinkOk | LuaJIT-master/src/lj_alloc.c:686-730 | unlinking, with a leaf replacing an inner node, keeps the invariant and removes exactly that chunk |
| Trie.DropLeafOk | LuaJIT-master/src/lj_alloc.c:696-704 | taking the replacement leaf out of its subtree removes its node and nothing else |
| TrieSearch.MinSizeLeast | LuaJIT-master/src/lj_alloc.c:1119-1128 | following leftmost children and keeping the smallest size seen finds the least size of the trie |
| TrieSearch.SmallestOnPath | LuaJIT-master/src/lj_alloc.c:1086-1093 | the walk down the leftmost path of a subtree whose sizes all fit ends with the smallest of them |
| TrieSearch.DescendFor | LuaJIT-master/src/lj_alloc.c:1057-1077 | the guided descent beats every fitting size except those in the last right subtree it passed |
| Bins.FreeBins.InsertChunk | LuaJIT-master/src/lj_alloc.c:734-736 | the chunk joins the set of binned chunks, and all bins and bitmaps stay consistent with it |
| Bins.FreeBins.UnlinkChunk | LuaJIT-master/src/lj_alloc.c:738-740 | the chunk leaves the set of binned chunks, bins and bitmaps stay consistent |
| Bins.FreeBins.PopSmall | LuaJIT-master/src/lj_alloc.c:622-630 | yields and removes a chunk of exactly the bin's size |
| Bins.FreeBins.BestLarge | LuaJIT-master/src/lj_alloc.c:1048-1093 | for every request below 2^64, truncated index or not, the chunk found is the smallest one of size at least nb over all tree bins, and none is found only if none fits |
| Bins.FreeBins.SmallestLarge | LuaJIT-master/src/lj_alloc.c:1112-1128 | the chunk found is the smallest of all tree chunks |
| Bins.BestOfAll | LuaJIT-master/src/lj_alloc.c:1048-1093 | a best fit of its own bin, or of the next non-empty one, is a best fit over all tree bins |
| Tiling.Unpack | LuaJIT-master/src/lj_alloc.c:359-374 | size and in-use bits of a head word read back, and the pinuse bit can be flipped alone |
| Tiling.RetileTiled | LuaJIT-master/src/lj_alloc.c:376-397 | replacing a run of chunks by one or two chunks keeps the tiling of all segments |
| Tiling.RetileSound | LuaJIT-master/src/lj_alloc.c:576-589 | if only the head and foot words of the new chunks are written, all tags agree with the new tiling |
| Tiling.RetileKeeps | LuaJIT-master/src/lj_alloc.c:387-397 | writing the tags of a run changes no payload word of any chunk outside it, in use or free, though payloads overlap the next prev_foot |
| Tiling.NextChunk | LuaJIT-master/src/lj_alloc.c:380-385 | the chunk found through the size in a head word is a chunk, and its pinuse bit tells the truth |
| Tiling.PrevChunk | LuaJIT-master/src/lj_alloc.c:380-389 | with a clear pinuse bit the chunk found through prev_foot is the free chunk before |
| Growth.AppendSound | LuaJIT-master/src/lj_alloc.c:925-932 | a region appended to the segment of top gives a sound heap in which top has grown and every payload is kept |
| Growth.FrontSound | LuaJIT-master/src/lj_alloc.c:934-941 | a region in front of a segment, taken as one chunk, gives a sound heap |
| Growth.OpenSound | LuaJIT-master/src/lj_alloc.c:853-897 | record, fenceposts and new top of a separate segment give a sound heap with every payload kept |
| Heap.Heap.constructor | LuaJIT-master/src/lj_alloc.c:1144-1166 | a new heap on a granted region satisfies the invariant, has nothing allocated, one record of its own, empty bins and the rest of the region as top |
| Heap.Heap.TakeWhole | LuaJIT-master/src/lj_alloc.c:582-585 | a whole free chunk becomes a chunk in use, tags and all live payloads intact |
| Heap.Heap.TakeFront | LuaJIT-master/src/lj_alloc.c:1101-1103 | the front of a free chunk becomes a chunk in use, the rest a free chunk |
| Heap.Heap.TakeTop | LuaJIT-master/src/lj_alloc.c:1251-1256 | the front of top becomes a chunk in use |
| Heap.Heap.ReplaceDv | LuaJIT-master/src/lj_alloc.c:632-642 | the old designated victim is binned and the new one installed |
| Heap.Heap.CutToDv | LuaJIT-master/src/lj_alloc.c:1130-1139 | a request is cut off a chunk, and a remainder of at least 32 bytes becomes dv |
| Heap.Heap.TmallocSmall | LuaJIT-master/src/lj_alloc.c:1112-1140 | splits the smallest of all tree chunks and keeps the invariant |
| Heap.Heap.TmallocLarge | LuaJIT-master/src/lj_alloc.c:1048-1109 | takes a true best fit over all tree bins, smaller than dv if dv fits; no result means nothing was changed and no tree chunk fits or, if dv fits, none fits better |
| Heap.Heap.CutToBin | LuaJIT-master/src/lj_alloc.c:1096-1108 | a request is cut off a chunk, and a remainder of at least 32 bytes goes into its bin |
| Heap.Heap.TakeSmall | LuaJIT-master/src/lj_alloc.c:1192-1200 | an exact small bin serves the request and keeps the invariant |
| Heap.Heap.SplitSmall | LuaJIT-master/src/lj_alloc.c:1202-1221 | a chunk of the next larger small bin is split, the rest becomes dv or stays attached |
| Heap.Heap.TakeDv | LuaJIT-master/src/lj_alloc.c:1235-1250 | the designated victim is split or used up, its front is the block |
| Heap.Heap.MallocTop | LuaJIT-master/src/lj_alloc.c:1251-1258 | the front of top is the block |
| Heap.Heap.Malloc | LuaJIT-master/src/lj_alloc.c:1180-1261 | a granted block is new, aligned, big enough and less than a minimal chunk too big; the payloads of all chunks in use are unchanged, the invariant holds. If any free chunk can serve the request, it is served and no segment changes; it comes from a best fit in the bins, else dv, else top, by the rules of the source; only else from a region of the system. Failure changes nothing and happens only for a too big request or when the system grants nothing |
| Heap.Heap.SmallFromBins | LuaJIT-master/src/lj_alloc.c:1183-1226 | the bins serve a small request, with a best fit, exactly if they have the size or the next one, or dv is too small and something fits |
| Heap.Heap.LargeFromBins | LuaJIT-master/src/lj_alloc.c:1229-1234 | the bins serve a large request, with a best fit, exactly if something fits that is smaller than dv, or dv is too small and something fits |
| Bins.FreeBins.MapsTell | LuaJIT-master/src/lj_alloc.c:1187-1206 | the two lowest bits of the shifted map tell whether there are chunks of the size and of the next; the next marked bin has the least of the rest |
| Heap.Heap.MergeTop | LuaJIT-master/src/lj_alloc.c:1292-1302 | a freed run that ends at top becomes the new top |
| Heap.Heap.FreeForward | LuaJIT-master/src/lj_alloc.c:1291-1330 | the freed run merges with what follows it and is filed as top, dv or in its bin |
| Heap.Heap.FreeIntoDv | LuaJIT-master/src/lj_alloc.c:1284-1288 | a chunk freed right behind dv joins it |
| Heap.Heap.Free | LuaJIT-master/src/lj_alloc.c:1263-1332 | exactly that block is no longer in use, the payloads of all other chunks in use, records included, are unchanged, the invariant holds |
| Heap.Heap.SetFreeWithPinuse | LuaJIT-master/src/lj_alloc.c:395-397 | a run becomes one free chunk and the chunk behind it learns of it |
| Heap.Heap.SetFree | LuaJIT-master/src/lj_alloc.c:391-393 | the same when the chunk behind already follows a free one |
| Heap.Heap.CarveFront | LuaJIT-master/src/lj_alloc.c:825-847 | the prepended region is split and its rest merged with top, dv or a free first chunk |
| Heap.Heap.WriteSegment | LuaJIT-master/src/lj_alloc.c:869-894 | exactly the words that close the old segment and open the new one |
| Heap.Heap.PrependAlloc | LuaJIT-master/src/lj_alloc.c:820-850 | the front of a prepended region is the block, the rest merges with a free first chunk, and the segment grows |
| Heap.Heap.AppendRegion | LuaJIT-master/src/lj_alloc.c:925-932 | top grows by the region |
| Heap.Heap.AddSegment | LuaJIT-master/src/lj_alloc.c:853-897 | the new region becomes top, the old top is binned or given up, and only the record of the old segment comes into use |
| Heap.Heap.AppendAlloc | LuaJIT-master/src/lj_alloc.c:925-955 | after appending, the block is the front of top, and no segment is added |
| Heap.Heap.SegmentAlloc | LuaJIT-master/src/lj_alloc.c:942-955 | after opening a segment, the block is the front of the region |
| Heap.Heap.AllocSys | LuaJIT-master/src/lj_alloc.c:901-958 | succeeds exactly if the padded size does not wrap and the system grants the region; the region joins top, or the segment behind it, or becomes a segment of its own, in this order, and serves the request |
| Heap.SysSizeExact | LuaJIT-master/src/lj_alloc.c:901-916 | the system is asked for the least multiple of 128 KB with room for the request, the top footer and a byte, unless that wraps |
| Heap.Heap.Store | LuaJIT-master/src/lj_alloc.c:341-343 | a store by the owner of a block anywhere in its payload, the next prev_foot included, disturbs neither the invariant nor another payload |
| Heap.Heap.SplitInuse | LuaJIT-master/src/lj_alloc.c:577-580 | a chunk in use is split into two, the first keeps its payload |
| Heap.Heap.GrowIntoTop | LuaJIT-master/src/lj_alloc.c:1358-1368 | a chunk takes over the front of top and keeps its payload |
| Heap.Heap.CopyPayload | LuaJIT-master/src/lj_alloc.c:1375-1376 | the prefix is copied and no other live payload changes |
| Heap.Heap.Shrink | LuaJIT-master/src/lj_alloc.c:1349-1357 | shrinking in place keeps the block, its remaining contents and all other payloads, gives back what is big enough to be a chunk, and no segment changes |
| Heap.Heap.GrowInPlace | LuaJIT-master/src/lj_alloc.c:1358-1371 | growing into top gives the block exactly what it needs and keeps its contents; no segment changes |
| Heap.Heap.MoveBlock | LuaJIT-master/src/lj_alloc.c:1372-1380 | moving copies the common prefix into a block served like a new request and frees the old one; failure changes nothing |
| Heap.Heap.Realloc | LuaJIT-master/src/lj_alloc.c:1334-1382 | a block stays where it is if and only if it is big enough or, with top behind it, can be made so; it ends less than a minimal chunk too big, and no segment changes; any other is served like a new request. The common prefix is kept, all other payloads in use are unchanged; failure changes nothing and has the reasons of malloc |
| Heap.Heap.Alloc | LuaJIT-master/src/lj_alloc.c:1384-1394 | the allocation function frees, allocates or reallocates by its arguments with those guarantees, where blocks come from and the reasons for failure included |
| Heap.LivePayloadsDisjoint | LuaJIT-master/src/lj_alloc.c:341-357 | in every valid heap the payloads of chunks in use are 8-byte aligned and pairwise disjoint, including the word each shares with the next chunk's prev_foot |
| Heap.TagsAgree | LuaJIT-master/src/lj_alloc.c:359-389 | in every valid heap the tags alone lead to the next chunk and to a free predecessor |
| Heap.OneRole | LuaJIT-master/src/lj_alloc.c:450-462 | in every valid heap each normal chunk is exactly one of top, dv, binned, handed out or a record of the allocator, of which there is one for each segment |
| Heap.NoAdjacentFree | LuaJIT-master/src/lj_alloc.c:1263-1332 | in every valid heap no two free chunks are adjacent |
| Heap.ChunksTileSegment | LuaJIT-master/src/lj_alloc.c:376-385 | in every valid heap each byte of a segment, up to its closing word, lies in exactly one chunk |
| DasmLabels.Resolution | LuaJIT-master/dynasm/dasm_x86.h:213-246 | every recorded reference holds the position of the label it means, or is pending in that label's chain |
| DasmLabels.ChainWords | LuaJIT-master/dynasm/dasm_x86.h:225-233 | the pending references of a label form an acyclic chain through the buffer words that ends in zero |
| DasmLabels.ChainExact | LuaJIT-master/dynasm/dasm_x86.h:213-246 | a label's chain runs through exactly the references to it that no label answers yet |
| DasmPut.SlotsMean | LuaJIT-master/dynasm/dasm_x86.h:213-246 | between calls each label slot holds 0 if unused, the negated position of its latest definition, or the head of a chain that the buffers themselves spell out through exactly the unanswered references, each once, down to 0 |
| DasmPut.SetRefWord | LuaJIT-master/dynasm/dasm_x86.h:241-244 | rewriting a reference word disturbs no other word of any recorded action |
| DasmPut.Dasm.constructor | LuaJIT-master/dynasm/dasm_x86.h:83-151 | empty sections and unused labels satisfy the pass 1 invariant |
| DasmPut.Dasm.PutRef | LuaJIT-master/dynasm/dasm_x86.h:215-237 | a reference stores the label's position or becomes the head of its chain; a forward local reference starts a new chain |
| DasmPut.Dasm.PutLabel | LuaJIT-master/dynasm/dasm_x86.h:239-246 | defining a label resolves exactly the references of its chain and no other word |
| DasmPut.Dasm.Step | LuaJIT-master/dynasm/dasm_x86.h:187-257 | one action fails exactly by its own check, or is recorded with its words, its estimate and its event |
| DasmPut.Dasm.Put | LuaJIT-master/dynasm/dasm_x86.h:167-264 | the status is that of the first failing check; otherwise the active section gains the items, starting at the action given, and the history the events, that the action list and arguments call for, and the invariant holds |
| DasmLayout.Distances | LuaJIT-master/dynasm/dasm_x86.h:294-347 | over all sections the final distance of two items lies between zero and the estimated one |
| DasmLayout.ShortReaches | LuaJIT-master/dynasm/dasm_x86.h:309-333 | whenever a branch is made short, forward or backward and across sections, its displacement fits a signed byte |
| DasmLayout.LongIsFar | LuaJIT-master/dynasm/dasm_x86.h:309-328 | a jmp or jcc to a label is left long only if a label behind it is out of reach, or one ahead is by the estimates |
| DasmLayout.AlignEnds | LuaJIT-master/dynasm/dasm_x86.h:338-338 | a trimmed alignment ends at a multiple of its alignment |
| DasmLink.MarkGlobals | LuaJIT-master/dynasm/dasm_x86.h:284-291 | exactly the references of globals that stay undefined are replaced by the negated global number |
| DasmLink.Reaches | LuaJIT-master/dynasm/dasm_x86.h:311-328 | the test passes exactly if the label is known and near, by final offset behind and by estimate ahead |
| DasmLink.LinkAction | LuaJIT-master/dynasm/dasm_x86.h:303-344 | one action of pass 2 settles the item's final offset and keeps every settled word and decision |
| DasmLink.LinkSection | LuaJIT-master/dynasm/dasm_x86.h:295-347 | pass 2 over one section settles all its items |
| DasmLink.AddSize | LuaJIT-master/dynasm/dasm_x86.h:348-348 | the next section starts where the settled one ends |
| DasmLink.Link | LuaJIT-master/dynasm/dasm_x86.h:268-356 | reports an earlier error or the first undefined PC label, otherwise settles a layout in which labels hold final offsets and a branch is short exactly if it may be; the size is the end of the last section |
| DasmEncode.EncodeRel | LuaJIT-master/dynasm/dasm_x86.h:406-418 | a branch is written long, as a short jmp, as a one-byte-opcode jcc or to an outside global, each in its final place |
| DasmEncode.EncodeImm | LuaJIT-master/dynasm/dasm_x86.h:396-404 | immediates as their items say; DasmBytes.ImmItem decodes them |
| DasmEncode.EncodeAbs | LuaJIT-master/dynasm/dasm_x86.h:419-426 | an absolute reference is the load address plus the label's final offset, or the address of an outside global |
| DasmEncode.EncodeSpace | LuaJIT-master/dynasm/dasm_x86.h:434-434 | the given number of fill bytes |
| DasmEncode.EncodeAlign | LuaJIT-master/dynasm/dasm_x86.h:435-438 | exactly as many nops as pass 2 kept |
| DasmEncode.EncodeAction | LuaJIT-master/dynasm/dasm_x86.h:384-446 | one action of pass 3 puts its item's bytes in place, rewriting opcode bytes only where a short form calls for it, and enters a defined global label |
| DasmEncode.EncodeSection | LuaJIT-master/dynasm/dasm_x86.h:376-446 | the bytes of a section, item by item, behind those already written |
| DasmEncode.Encode | LuaJIT-master/dynasm/dasm_x86.h:368-453 | after a successful link there is never a phase error, the output has exactly codesize bytes, each as its item calls for, and the global table gets every defined label's address |
| DasmBytes.ImmItem | LuaJIT-master/dynasm/dasm_x86.h:355-404 | the bytes of an immediate, decoded as little-endian numbers by its action number, are its value; the shorter of two forms has its own opcode |
| DasmBytes.ImmOkExact | LuaJIT-master/dynasm/dasm_x86.h:204-213 | the range check of an immediate passes exactly if some bytes of its action can hold it |
| DasmBytes.CheckMeans | LuaJIT-master/dynasm/dasm_x86.h:201-251 | the checks of each action by its number, and the status each failure gives |
| DasmBytes.CodeItem | LuaJIT-master/dynasm/dasm_x86.h:439-441 | an opcode byte is the one in the action list, escaped or not, unless a short form behind it rewrites it |
| DasmBytes.RefItem | LuaJIT-master/dynasm/dasm_x86.h:405-427 | an absolute reference holds base plus label offset or the global's address, a branch to an outside global its distance, modulo 2^32 |
| DasmBytes.AlignItem | LuaJIT-master/dynasm/dasm_x86.h:435-438 | an alignment is only nops, no more than its mask, and ends on its multiple |
| DasmBytes.ItemDecodes | LuaJIT-master/dynasm/dasm_x86.h:384-446 | every item, fills and labels included, is in the output as its action number asks |
| DasmBytes.NextAction | LuaJIT-master/dynasm/dasm_x86.h:187-257 | actions are taken one after the other, two bytes for those with an operand, until 254 or 255 |
| DasmBytes.ArgsInOrder | LuaJIT-master/dynasm/dasm_x86.h:185-257 | each argument goes to the next action that takes one |
| DasmBytes.GlobalsMean | LuaJIT-master/dynasm/dasm_x86.h:428-432 | a defined global has the address of its last label, any other keeps the one given |
| DasmTheorems.LandsOnLabel | LuaJIT-master/dynasm/dasm_x86.h:411-418 | decoded from the output, every short or long branch leads from its end to its label's final offset, with the fitting opcode in front |
| DasmTheorems.BranchCorrect | LuaJIT-master/dynasm/dasm_x86.h:167-453 | over all three passes a branch lands on the label its dasm_put meant, given the history of references and definitions |
| DasmTheorems.Assemble | LuaJIT-master/dynasm/dasm_x86.h:268-453 | after any run of dasm_put calls, link and encode report the same size, never a phase error; every item decodes from the output to what its action asks for, every branch lands as meant, every global has the address of its last label |
| DasmTheorems.GetPcLabel | LuaJIT-master/dynasm/dasm_x86.h:457-466 | a defined PC label's final offset, -1 if undefined, -2 if unused or out of range |
| Shuffle.PickBot | LuaJIT-master/src/lj_target.h:74-77 | the lowest register of a set |
| Shuffle.CoalesceFinishes | LuaJIT-master/src/lj_asm.c:1487-1496 | if the code emitted so far finishes the job from the state before a coalescing move, then with that move in front it finishes it from the state after |
| Shuffle.RenameFinishes | LuaJIT-master/src/lj_asm.c:617-630 | the same for a rename through a temporary |
| Shuffle.LeftIsCycle | LuaJIT-master/src/lj_asm.c:1498-1502 | registers left when nothing can be coalesced form cycles of the original move |
| Shuffle.Shuffler.constructor | LuaJIT-master/src/lj_asm.c:1387-1414 | the state collected from the parent's registers satisfies the shuffle's invariant |
| Shuffle.Shuffler.Coalesce | LuaJIT-master/src/lj_asm.c:1487-1496 | moves a free live register to its target and keeps the invariant |
| Shuffle.Shuffler.Rename | LuaJIT-master/src/lj_asm.c:617-638 | moves a target to a temporary and keeps the invariant |
| Shuffle.Shuffler.Run | LuaJIT-master/src/lj_asm.c:1483-1517 | terminates; gives up exactly if some class has a cycle and no register fit as a temporary; otherwise the code, run in machine order, is a parallel move that leaves all registers alone that are neither targets nor allowed temporaries |
| Spill.FitsExactly | LuaJIT-master/src/lj_asm.c:353-374 | the two counters tell exactly whether there is a free slot or pair |
| Spill.Spiller.Spill | LuaJIT-master/src/lj_asm.c:353-374 | slots of different values never overlap, 64-bit values are aligned, a value keeps its slot, and the trace is given up exactly if no slot, or for 64 bits no aligned pair, is free |
| Uleb.EncNumeral | LuaJIT-master/src/lj_bcwrite.c:67-75 | the encoding ends at its first byte below 128 |
| Uleb.DecEnc | LuaJIT-master/src/lj_bcread.c:137-152 | decoding an encoding followed by anything gives the number and stops right behind it |
| Uleb.PrefixLenExact | LuaJIT-master/src/lj_bcwrite.c:323-327 | the bytes reserved for a size prefix are exactly those its encoding takes |
| DumpSpec.UnpatchRestores | LuaJIT-master/src/lj_bcwrite.c:242-266 | undoing the JIT compiler's patches gives back the instruction that was patched |
| DumpSpec.RunTree | LuaJIT-master/src/lj_bcread.c:456-476 | reading the prototypes of a tree in dump order leaves exactly that tree on the stack |
| DumpSpec.TableSame | LuaJIT-master/src/lj_bcread.c:221-242 | a table filled from its dump holds the same value under every key |
| DumpSpec.NormIsSame | LuaJIT-master/src/lj_bcread.c:330-421 | what is read back is the same tree: header, unpatched code, numbers of equal value, equal tables, children in their places |
| DumpFormat.DecSum | LuaJIT-master/src/lj_bcread.c:137-152 | seven bits of each byte, the first lowest |
| DumpFormat.KtabkIs | LuaJIT-master/src/lj_bcdump.h:24-27 | a table key or value has its tag 0 to 5, then its number, its two words or its characters |
| DumpFormat.KtabIs | LuaJIT-master/src/lj_bcdump.h:24-26 | a table is its two sizes, the array without trailing nils, the used nodes from last to first |
| DumpFormat.KgcIs | LuaJIT-master/src/lj_bcdump.h:22-22 | a collectable constant has its tag 0 to 5, then its table, words or characters |
| DumpFormat.KnumIs | LuaJIT-master/src/lj_bcdump.h:23-23 | an integer doubled, or the low word doubled plus one and the high word |
| DumpFormat.CodeIs | LuaJIT-master/src/lj_bcdump.h:18-18 | four bytes for each instruction in the order opcode, A, C, B |
| DumpFormat.HeadIs | LuaJIT-master/src/lj_bcdump.h:19-21 | flags, parameters, frame size, upvalues, then the three counts and the debug sizes, in this order |
| DumpFormat.BodyIs | LuaJIT-master/src/lj_bcdump.h:18-18 | header, instructions, upvalues, collectable constants, numbers, debug info |
| DumpFormat.TreeIs | LuaJIT-master/src/lj_bcwrite.c:269-282 | the trees of the children, last constant first, come before the prototype |
| DumpFormat.DumpIs | LuaJIT-master/src/lj_bcdump.h:14-17 | the dump starts 27, 76, 74, 1 and the flags, then the name unless stripped, the tree and a zero |
| BcWrite.PatchIs33 | LuaJIT-master/src/lj_bcwrite.c:222-235 | forcing bit 31 and rewriting the fifth byte gives the encoding of the 33-bit number |
| BcWrite.Writer.Need | LuaJIT-master/src/lj_bcwrite.c:37-49 | the buffer has room for len more bytes and keeps its contents |
| BcWrite.Writer.Uleb | LuaJIT-master/src/lj_bcwrite.c:67-75 | appends the ULEB128 encoding and touches nothing behind it |
| BcWrite.Writer.Uleb33 | LuaJIT-master/src/lj_bcwrite.c:222-236 | appends the 33-bit number in at most five bytes |
| BcWrite.Writer.Head | LuaJIT-master/src/lj_bcwrite.c:289-305 | appends the prototype header in at most 34 bytes |
| BcWrite.Writer.Ktabk | LuaJIT-master/src/lj_bcwrite.c:80-109 | appends a table constant; the reserved space suffices |
| BcWrite.Writer.Ktab | LuaJIT-master/src/lj_bcwrite.c:112-148 | appends a template table, array part without trailing nils, then used nodes from last to first |
| BcWrite.Writer.Kgcs | LuaJIT-master/src/lj_bcwrite.c:151-203 | appends the collectable constants in ascending order within the space reserved for each |
| BcWrite.Writer.Knums | LuaJIT-master/src/lj_bcwrite.c:206-239 | appends the number constants; ten bytes for each suffice |
| BcWrite.Writer.Bytecode | LuaJIT-master/src/lj_bcwrite.c:242-266 | appends the instructions and unpatches them in place |
| BcWrite.Writer.WriteProto | LuaJIT-master/src/lj_bcwrite.c:269-330 | writes a tree children first, last constant first, each with its length filled in right before the data |
| BcWrite.Writer.WriteDump | LuaJIT-master/src/lj_bcwrite.c:333-392 | the output is the encoding of the dump, and a dump of the grammar in LuaJIT-master/src/lj_bcdump.h |
| BcRead.LexState.Fill | LuaJIT-master/src/lj_bcread.c:57-95 | for any cut of the input into blocks no byte is lost, duplicated or reordered; success leaves len bytes, or all there are if fewer are allowed; the reasons for failure |
| BcRead.LexState.Need | LuaJIT-master/src/lj_bcread.c:98-102 | success leaves at least len bytes buffered and loses none; the reasons for failure |
| BcRead.LexState.Want | LuaJIT-master/src/lj_bcread.c:105-109 | success leaves len bytes buffered, or all there are; the reasons for failure |
| BcRead.LexState.ReadUleb | LuaJIT-master/src/lj_bcread.c:137-152 | any number of up to five bytes, minimal or not, is read modulo 2^32 and exactly its bytes are consumed |
| BcRead.LexState.ReadUleb33 | LuaJIT-master/src/lj_bcread.c:155-170 | the same for a number without its lowest bit |
| BcRead.LexState.Ktabk | LuaJIT-master/src/lj_bcread.c:202-218 | reads back a table constant |
| BcRead.LexState.Ktab | LuaJIT-master/src/lj_bcread.c:221-242 | reads back a template table |
| BcRead.LexState.Kgcs | LuaJIT-master/src/lj_bcread.c:245-281 | reads back the collectable constants; fails exactly if the stack has too few children |
| BcRead.LexState.Knums | LuaJIT-master/src/lj_bcread.c:284-298 | reads back the number constants with their values |
| BcRead.LexState.ReadData | LuaJIT-master/src/lj_bcread.c:340-421 | reads back a prototype; fails if children are missing, the length is not the one consumed or a block is too big, and only then |
| BcRead.LexState.ReadProto | LuaJIT-master/src/lj_bcread.c:330-421 | the next prototype, or the end mark; fails if children are missing, and otherwise only if the input is too big |
| BcRead.LexState.ReadHeader | LuaJIT-master/src/lj_bcread.c:424-453 | accepts exactly the fixed bytes and known flags, unless the input is too big |
| BcRead.LexState.ReadLength | LuaJIT-master/src/lj_bcread.c:339-347 | reads the length prefix or the end mark, however few bytes are buffered and whatever follows; the reasons for failure |
| BcRead.LexState.ReadDump | LuaJIT-master/src/lj_bcread.c:456-476 | on any list of prototypes a result is the one left on the stack, and it is given whenever there is exactly one and the input is not too big |
| DumpRoundTrip.RoundTrip | LuaJIT-master/src/lj_bcread.c:456-476 | a tree written and read back through any cut into blocks is the same tree, with its chunk name unless stripped |
| PatternSpec.UpperIsComplement | LuaJIT-master/src/lib_string.c:232-244 | an upper case class letter is the complement of the lower case one |
| PatternSpec.BalanceMeans | LuaJIT-master/src/lib_string.c:281-300 | %b ends right behind the first character that brings the nesting to zero, and fails only if none does |
| PatternSpec.PositionNeverMatches | LuaJIT-master/src/lib_string.c:356-366 | a back reference to a position capture has no match, whatever the pattern, subject and position |
| PatternSpec.BackRefGoesOn | LuaJIT-master/src/lib_string.c:356-366 | a back reference to a finished capture goes on if and only if that is no position capture and its text stands there, and then behind that text |
| PatternSpec.PositionPairNeverMatches | LuaJIT-master/src/lib_string.c:356-366 | the pattern ()%1 has no match at any position of any subject |
| PatternItems.ClassMeans | LuaJIT-master/src/lib_string.c:226-244 | each class letter matches exactly the characters of its ranges, its capital exactly the others |
| PatternItems.SetTextMeans | LuaJIT-master/src/lib_string.c:205-267 | a written set is found up to its closing bracket and matches exactly what some element holds, a range from its first to its last character, or with ^ exactly the others |
| PatternItems.SingleMeans | LuaJIT-master/src/lib_string.c:269-277 | a written single item is read whole and matches what it is meant to |
| PatternItems.TextMeans | LuaJIT-master/src/lib_string.c:368-451 | matching the text of a list of items is matching the items, with the same ends and captures |
| PatternItems.WholeText | LuaJIT-master/src/lib_string.c:511-559 | the same for whole patterns at every start; a written pattern is never taken as anchored |
| PatternItems.Preference | LuaJIT-master/src/lib_string.c:302-329 | behind ?, * and + as many repetitions as possible come first, behind - as few, among those with which the rest has a result |
| PatternSpec.LongestFirst | LuaJIT-master/src/lib_string.c:302-315 | for * and + the first match has the most repetitions that admit a match at all |
| PatternSpec.ShortestFirst | LuaJIT-master/src/lib_string.c:317-329 | for - the first match has the fewest |
| PatternSpec.ResultsAreMatches | LuaJIT-master/src/lib_string.c:368-451 | the list of results in order of preference holds exactly the matches of the unordered definition |
| PatternSpec.MatchInside | LuaJIT-master/src/lib_string.c:331-366 | a match ends behind its start and its captures lie inside the subject |
| Matcher.MatchState.FindClassEnd | LuaJIT-master/src/lib_string.c:205-224 | the end of a single item, or malformed |
| Matcher.MatchState.MatchBracketClass | LuaJIT-master/src/lib_string.c:246-267 | membership in a set with ranges, classes and negation; PatternItems.SetTextMeans says what that means |
| Matcher.MatchState.CaptureToClose | LuaJIT-master/src/lib_string.c:196-203 | the innermost open capture, or none |
| Matcher.MatchState.CountReps | LuaJIT-master/src/lib_string.c:305-307 | how many characters in a row match |
| Matcher.MatchState.MatchBalance | LuaJIT-master/src/lib_string.c:281-300 | the end of the balanced string, failure, or malformed |
| Matcher.MatchState.MatchCapture | LuaJIT-master/src/lib_string.c:356-366 | the end of a back reference, failure, or invalid capture |
| Matcher.MatchState.StartCapture | LuaJIT-master/src/lib_string.c:331-343 | answers with the first result with the capture open; failure takes the capture back |
| Matcher.MatchState.EndCapture | LuaJIT-master/src/lib_string.c:345-354 | answers with the first result with the innermost open capture closed; failure reopens it |
| Matcher.MatchState.MaxExpand | LuaJIT-master/src/lib_string.c:302-315 | answers with the first result, most repetitions first |
| Matcher.MatchState.MinExpand | LuaJIT-master/src/lib_string.c:317-329 | answers with the first result, fewest repetitions first |
| Matcher.MatchState.MatchEscape | LuaJIT-master/src/lib_string.c:383-410 | balanced strings, frontiers and back references fail, raise an error or go on without changing the set of results |
| Matcher.MatchState.MatchItem | LuaJIT-master/src/lib_string.c:419-447 | a single character item answers with the first result or goes on without changing the results |
| Matcher.MatchState.Match | LuaJIT-master/src/lib_string.c:368-451 | answers with the head of the result list; failure restores level, captures and depth, success leaves depth as it was and its own captures; too deep only for a pattern longer than the limit allows |
| Matcher.MatchState.Find | LuaJIT-master/src/lib_string.c:511-559 | the leftmost start that has a match, and there the most preferred match; no earlier start has one |
| Quote.AddQuoted | LuaJIT-master/src/lib_string.c:711-737 | the quoted form: quote, backslash and newline behind a backslash, other control characters by their decimal number, three digits if a digit follows, all others as they are |
| Quote.QuoteWritten | LuaJIT-master/src/lib_string.c:717-734 | how each single character comes out |
| Quote.ReadChar | LuaJIT-master/src/lib_string.c:717-734 | a quoted character is read back whatever follows, because a digit behind it forces three digits |
| Quote.QuoteRoundTrip | LuaJIT-master/src/lib_string.c:711-737 | the lexer reads the literal back as the original byte string and stops at its end |
| Sort.Partition | LuaJIT-master/src/lib_table.c:226-243 | rearranges only the range and stays inside it for any comparison; under a strict weak order it never fails and parts the range around the pivot |
| Sort.AuxSort | LuaJIT-master/src/lib_table.c:195-256 | for any comparison a permutation of the range and termination, perhaps with the error; under a strict weak order sorted and without error; recursion, failed calls included, no deeper than the logarithm of the size |
| RefTable.BorderUnique | LuaJIT-master/src/lib_aux.c:272-275 | without holes any length the table may report is the highest reference |
| RefTable.Refs.Ref | LuaJIT-master/src/lib_aux.c:258-278 | a new reference is never live, the last freed one first, live ones keep their values, the free list stays acyclic, the length is asked only without holes |
| RefTable.Refs.Unref | LuaJIT-master/src/lib_aux.c:280-289 | exactly that reference is freed and becomes the head of the list |
| Carith.PowU64 | LuaJIT-master/src/lj_carith.c:320-337 | x^k modulo 2^64 for all x and k |
| Carith.PowI64 | LuaJIT-master/src/lj_carith.c:340-355 | the two's complement reading of the power; for negative exponents the reciprocal truncated to an integer, and the largest integer for base zero |

## Left out

- Direct mapping of big blocks, `alloc_trim`, `release_unused_segments`, `lj_alloc_destroy`: they only talk to the operating system. mmap is an oracle that grants a fresh region below 2 GB or fails.
- Pointers inside free chunks (`fd`, `bk`, `child`, `parent`, `index`) and the words of segment records: bins are sequences, tries are trees, the segment list is a sequence. What is not captured is that these links live in payloads of free chunks.
- Bit maps are sequences of 32 bits; `lj_ffs` is the search for the lowest set one.
- memcpy in realloc copies whole words.
- DynASM actions DISP, VREG, SETLABEL, REL_A, EXTERN and MARK, and `dasm_checkstep`: x86 operand details and host addresses.
- DasmPut.Dasm.Put: the limit of 25 positions for one call is not modelled; a section must stay within the 24 bits that a position has for its index.
- DynASM buffers grow without limit and offsets are unbounded integers; the landing theorem assumes less than 2^31 bytes of code, which is what the 32-bit displacement assumes. After a failed check nothing is claimed of a dasm_put but its status.
- Heap.Heap.Alloc: the old size argument is ignored by the code and is not modelled.
- Shuffle.Shuffler.Rename: modset, weakset and the RENAME instruction added to the IR are not modelled.
- The passes of `asm_head_side` before the shuffle: reloads and spills are instruction selection; their result is the precondition of the shuffle's constructor.
- BcWrite.Writer.WriteDump: the writer callback always succeeds.
- BcWrite.Writer.Ktab: the nodes are those of a real hash part; a table without one has none, where the code looks at its mask.
- BcWrite.Writer.Bytecode: a patched instruction whose trace does not exist is left alone; the code would read outside the trace table.
- BcRead.LexState.ReadUleb: six bytes and more shift beyond the word, which C does not define.
- BcRead.LexState.ReadDump: says nothing about input that is not a well-formed list of prototypes; the code checks only the header, the lengths and the stack there.
- Endian swapping of dumps and the layout of prototype objects in memory: line and variable info is opaque bytes.
- The conversion of doubles to integers is a parameter of the dump model.
- Matcher.MatchState.Find: the plain search for patterns without special characters and the pushing of results.
- Lua stack, garbage collection and error messages throughout: errors are outcomes.
- Sort.AuxSort: comparison is a pure function; a comparison that changes the table or raises an error is not modelled.
