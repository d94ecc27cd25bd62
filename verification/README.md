# A verified model of the moon-pprof profiling tools

This Dafny project models the parts of the profiling tools that transform, record, parse and
convert profiles, and proves what those parts are for:

* **The wasm allocation instrumentation.** A structured stack machine (blocks, loops, ifs, direct, conditional and
  indexed branches, locals, calls, returns, traps, struct/array allocation) after section 4.4 of the WebAssembly Core
  Specification 2.0 and the GC extension. A function's body stands under a label of its own, and branching to it ends
  the call. What any other instruction does to operands and store, and whether it branches (as `br_on_null` and
  `br_on_cast` may), is a parameter, so the theorems hold of every engine. The
  instrumented module is shown to run exactly as the original and to report exactly the allocations it should, and
  the in-place, worklist-driven rewrite of the sequence arena is shown to refine the rewrite of trees.
* **The native heap hook.** Threads interleaved at the grain of one lock operation or one written byte, the C
  hook's record builder on its 8192-byte buffer, the cursor parsers that tolerate a torn tail, and the replay to live
  objects. At every moment of every interleaving the stream replays to the recorded heap, and the parser reports it;
  cut anywhere, it shows an earlier recorded heap. In allocation mode the stream holds each elected call once.
* **pprof to V8 trace and back.** Trie of stacks, time spread over counts, streams demultiplexed and chunks merged,
  parent inversion, aggregation per leaf, interning tables; then the round trip across all three converters.
* **The demangler**, against a forward mangler, with the exact condition under which it inverts it.
* **Folded text, Speedscope files, the Firefox location cache and the samply symbol lookup.**

Loops, cursors, buffers and objects of the program are loops, cursors, arrays and classes here, each proved against a
function or predicate about which the theorems are then stated. `dafny verify dfyconfig.toml` checks everything.

## Layout

| file | subject |
|---|---|
| `wasm.dfy`, `instrumentation.dfy` | the machine, the rewrite on trees, simulation and hook trace |
| `seq_arena.dfy`, `module_rewriter.dfy` | the rewrite in place, and its refinement |
| `sampling.dfy`, `allocation_sampler.dfy`, `sampled_run.dfy` | 1-in-N election; the hook closure and the allocation trace; what they hold after an instrumented run |
| `record_codec.dfy`, `alloc_stream.dfy`, `retained_stream.dfy` | record bytes, both stream parsers, replay |
| `live_heap.dfy`, `alloc_run.dfy` | threads, mutex and stream, with the heap in retained mode and with the calls in allocation mode |
| `pprof.dfy`, `v8.dfy`, `text.dfy`, `int64.dfy`, `map_sums.dfy`, `ordered_keys.dfy`, `stable_sort.dfy`, `wrappers.dfy` | shared data and lemmas |
| `trace_tree.dfy`, `chunk_merge.dfy`, `cpu_profile.dfy`, `trace_round_trip.dfy` | the three converters and their round trip |
| `demangler.dfy` | the demangler |
| `stack_formats.dfy`, `folded.dfy`, `speedscope.dfy` | stack text and Speedscope files |
| `location_cache.dfy`, `firefox_threads.dfy`, `symbol_lookup.dfy` | Firefox locations and samples, samply symbols |

## What the code does that its documentation does not say

* A comment (runners/moon-pprof/src/cmd_memprofile.rs:526-527) says the scratch local is added lazily; the code adds
  one to every local function, and so does the model.
* The hook never sees an allocation whose type size is 0 or, after wrapping, negative, though the rewrite counts its
  opcode as a site (runners/moon-pprof/src/cmd_memprofile.rs:563-576, 604-635).
* `demangle` returns fewer, longer parts when a namespace count glued to the first length spells a longer span
  (`_M0FP13abc9ninechars`), and cuts a last identifier that itself ends like a generic instantiation (`LoGsE`).
* Two functions whose names or urls hold the separator U+001F can share one pprof function, and then a built profile
  shows a wrong frame (`CollisionMisleads`). All frames show right exactly when frames that share a key show alike
  (`Build`, `RoundTrip`); counts, times and stacks do not depend on it.
* Chains that differ only in a source file share one location (`FilesAreNotTold`).
* A folded stack whose root starts with `#` exports as a comment and is lost on import (`HashRootLost`); a name with
  outer whitespace, or none, does not come back either. Export, import, export gives the same text exactly when no
  stack is like that and every sum reads back as itself (`FoldedRoundTrip`).
* A samply symbol that ends inside another hides what is left of the other, unless a further symbol takes over there
  or before. Of symbols with one start only the last loaded can, and empty ones. The lookup misses no address that some
  symbol contains exactly when no symbol is hidden so (`FindsAllIff`, `TiesAreFound`).
* A trace event without an id falls in with the stream whose id is the text `none` (`ProfileKeyTells`).
* The cumulative totals of the allocation trace saturate, so they equal the sums over the samples exactly while those
  fit a signed 64-bit integer (`TotalsAgreeIff`).
* A Speedscope file in bytes, or without a unit, imports to a profile that exports no more without an explicit axis.
  With axis 1 named, a file in a unit of time, in bytes or in counts comes back, and one without a unit does not
  (`SpeedscopeRoundTrip`, `UnitSurvivesIff`). Past 2^53 only the total can tell the two files apart
  (`RoundedSurviveIff`).

## Model

| member | source | states |
|---|---|---|
| Instrumentation.InstrumentationPreservesRuns | runners/moon-pprof/src/cmd_memprofile.rs:364-393 | for every module, function, arguments, store and fuel, the instrumented run shows the same results, store, trap or suspension as the original, and its events are the original's with the owed hook calls woven in |
| Instrumentation.HookTraceIsExact | runners/moon-pprof/src/cmd_memprofile.rs:547-638 | in every run the hook receives, in order, exactly the static size or the wrapped len*elem of each allocation of positive known size and the argument of each `moonbit.malloc` entry; erasing the hook calls leaves the original events |
| Instrumentation.SizesReported | runners/moon-pprof/src/cmd_memprofile.rs:437-480 | those sizes, opcode by opcode: the wrapped sum of a struct's field bytes for both struct opcodes, the wrapped product of length and element bytes for the five array opcodes, each only when positive; nothing for an ill-typed one |
| Instrumentation.FieldSizeIs | runners/moon-pprof/src/cmd_memprofile.rs:466-483 | a field counts its bits as bytes, a reference four |
| Instrumentation.StructSizeIs | runners/moon-pprof/src/cmd_memprofile.rs:440-455 | the 32-bit running sum over a struct's fields is the wrapped sum of their bytes |
| Instrumentation.SiteIffAllocates | runners/moon-pprof/src/cmd_memprofile.rs:557-635 | exactly the well-typed allocations are sites, hooked or not |
| Instrumentation.SitesOfOne | runners/moon-pprof/src/cmd_memprofile.rs:650-669 | an instruction counts once, wherever it is nested |
| Instrumentation.RunsAlike | runners/moon-pprof/src/cmd_memprofile.rs:364-393 | the same result operands, store, trap or suspension, outcome by outcome |
| Instrumentation.SimStep | runners/moon-pprof/src/cmd_memprofile.rs:507-648 | one instruction and its rewriting end alike: same operands, store and original locals, only the scratch local differs |
| Instrumentation.SimExec | runners/moon-pprof/src/cmd_memprofile.rs:507-648 | the same simulation for whole sequences, through nested control and branches |
| Instrumentation.SimBody | runners/moon-pprof/src/cmd_memprofile.rs:403-425 | the same simulation for a called body, including the wrapped `moonbit.malloc` |
| Instrumentation.PrefixRun | runners/moon-pprof/src/cmd_memprofile.rs:563-635 | an inserted prefix restores the operands, reports what is owed, and gets stuck only where the allocation itself would |
| Instrumentation.DynamicPrefix | runners/moon-pprof/src/cmd_memprofile.rs:586-631 | the six instructions report the wrapped product of length and element size and leave stack and store as they were |
| Instrumentation.WeaveCarriesPromised | runners/moon-pprof/src/cmd_memprofile.rs:547-638 | the woven events carry exactly the promised sizes |
| Instrumentation.WeaveAddsHooksOnly | runners/moon-pprof/src/cmd_memprofile.rs:547-638 | weaving adds hook calls and nothing else |
| Instrumentation.NeverHooked | runners/moon-pprof/src/cmd_memprofile.rs:364-393 | a module without the hook never reports anything |
| Wasm.ExecAppend | runners/moon-pprof/src/cmd_memprofile.rs:547-638 | running a concatenation is running its parts in turn, which is why a prefix can be reasoned about alone |
| SeqArena.CollectSeqIds | runners/moon-pprof/src/cmd_memprofile.rs:650-669 | the worklist ends, visits each sequence of the tree exactly as often as it is nested, and its sites are the body's sites |
| SeqArena.RewriteSequence | runners/moon-pprof/src/cmd_memprofile.rs:543-638 | draining one sequence gives its rewriting and counts its own sites |
| SeqArena.RewriteHolds | runners/moon-pprof/src/cmd_memprofile.rs:538-645 | rewriting every sequence of a tree on its own leaves the arena holding the rewritten tree |
| SeqArena.RewriteNodesCode | runners/moon-pprof/src/cmd_memprofile.rs:538-645 | the rewritten tree stands for the rewritten code |
| SeqArena.RewriteKeepsIds | runners/moon-pprof/src/cmd_memprofile.rs:538-645 | the rewrite neither adds nor drops a sequence |
| SeqArena.WalkOne | runners/moon-pprof/src/cmd_memprofile.rs:654-667 | one turn of the walk keeps visited plus awaited sequences equal to the tree, and makes progress |
| ModuleRewriter.WasmModule.InstrumentGcAllocsInFunc | runners/moon-pprof/src/cmd_memprofile.rs:507-648 | one function's arena then holds the rewritten tree, no other sequence changed, one i32 local was added, and the count is the number of sites |
| ModuleRewriter.WasmModule.WrapMoonbitMalloc | runners/moon-pprof/src/cmd_memprofile.rs:403-425 | the entry sequence is headed by the hook call on the first parameter, and nothing else changes |
| ModuleRewriter.WasmModule.InstrumentGcAllocs | runners/moon-pprof/src/cmd_memprofile.rs:484-505 | every local function is rewritten once with a scratch local of its own; the total is the sum of the sites |
| ModuleRewriter.WasmModule.FindFuncByName | runners/moon-pprof/src/cmd_memprofile.rs:395-401 | the first function of that name, or none has it |
| ModuleRewriter.WasmModule.Instrument | runners/moon-pprof/src/cmd_memprofile.rs:364-393 | the in-place rewrite of the whole module is the rewrite on trees; a module with nothing to rewrite is refused |
| ModuleRewriter.RewriteRefines | runners/moon-pprof/src/cmd_memprofile.rs:484-505 | the rewritten function table decodes to the table of the rewrite on trees |
| Sampling.CeilStep | runners/moon-pprof/src/cmd_memprofile.rs:142-153 | the next call is elected exactly when it raises the ceiling of calls over rate |
| Sampling.CeilBound | runners/moon-pprof/assets/native_alloc_hook.c:205-208 | rate times elected lies in [N, N + rate) |
| AllocationSampler.HostState.AllocHook | runners/moon-pprof/src/cmd_memprofile.rs:132-172 | which calls are counted and credited, and to which stack; the event an elected call appends: its time, size, scaled size, the new totals and the top frame; the cumulative totals of the trace stay the saturated sums over the sample map |
| AllocationSampler.TotalsAgreeIff | runners/moon-pprof/src/cmd_memprofile.rs:254-268 | the totals of the trace are the sums over the samples exactly while those fit a signed 64-bit integer |
| AllocationSampler.AllocationTrace.Record | runners/moon-pprof/src/cmd_memprofile.rs:254-268 | saturating totals, recorded in the event after they are updated |
| AllocationSampler.SamplesConserve | runners/moon-pprof/src/cmd_memprofile.rs:166-170 | summed counts are the scaled number of elected calls, summed bytes their scaled sizes |
| AllocationSampler.SamplesByStack | runners/moon-pprof/src/cmd_memprofile.rs:166-171 | stack by stack: an entry exactly for the stacks of elected calls, with the rate times their number and their bytes |
| AllocationSampler.TopFrameIs | runners/moon-pprof/src/cmd_memprofile.rs:158-165 | the event shows the first frame that is neither `moonbit.malloc` nor `moonbit.gc.malloc`, or the leaf when all are, or none for an empty backtrace |
| AllocationSampler.ElectsAgain | runners/moon-pprof/src/cmd_memprofile.rs:142-153 | which calls are elected, past the wrap of the 64-bit counter too |
| AllocationSampler.ElectedIsCeil | runners/moon-pprof/src/cmd_memprofile.rs:142-153 | over N calls exactly ceil(N / rate) are elected |
| AllocationSampler.ElectionBound | runners/moon-pprof/src/cmd_memprofile.rs:142-153 | scaling back over-counts by less than one group, and not at all at rate 1 |
| SampledRun.SamplesAccountForTheRun | runners/moon-pprof/src/cmd_memprofile.rs:128-175 | after the host heard an instrumented run, its samples add up to the elected ones of the sizes that the original run's allocations promise, times the rate; stack by stack to those heard with that backtrace; to all of them at rate 1; and over-count by less than one group at any rate |
| SampledRun.Hear | runners/moon-pprof/src/cmd_memprofile.rs:128-175 | the closure, called once per hook call, leaves the history of the positive sizes with their backtraces |
| RecordCodec.ParsePrefix | runners/moon-pprof/src/cmd_memprofile_native.rs:713-786 | parsing any byte prefix of a record stream gives exactly the records wholly inside it and no error |
| RecordCodec.WhollyInsideIsLongest | runners/moon-pprof/src/cmd_memprofile_native.rs:713-786 | those are the longest run of records whose bytes fit |
| RecordCodec.RecordWhole | runners/moon-pprof/src/cmd_memprofile_native.rs:721-780 | a whole record is read back, with the rest of the stream |
| RecordCodec.RecordBytes | runners/moon-pprof/assets/native_alloc_hook.c:225-258 | an 'A' or 'F', the address and the size with their low bytes first, and the number of names, at their places |
| RecordCodec.RecordTorn | runners/moon-pprof/src/cmd_memprofile_native.rs:722-776 | a record cut anywhere reads as torn |
| RecordCodec.ParseAppend | runners/moon-pprof/src/cmd_memprofile_native.rs:713-786 | a stream with a torn record after it reads as the stream |
| RecordCodec.AppendFrames | runners/moon-pprof/assets/native_alloc_hook.c:235-256 | the frame loop stays in the buffer and keeps a leaf-side prefix of at least min(n, 32) capped names |
| RecordCodec.BuildAllocRecord | runners/moon-pprof/assets/native_alloc_hook.c:196-258 | the buffer holds the encoding of the record of the kept frames, never past 8192 bytes, the count fitting its byte |
| RecordCodec.BuildFreeRecord | runners/moon-pprof/assets/native_alloc_hook.c:279-284 | nine bytes, the encoding of the free record |
| AllocStream.SizedPrefix | runners/moon-pprof/src/cmd_memprofile_native.rs:666-711 | any byte prefix of the untagged stream gives exactly the records wholly inside it |
| AllocStream.BuildSizedRecord | runners/moon-pprof/assets/native_alloc_hook.c:121-184 | the untagged record of the kept frames, within the buffer |
| AllocStream.ParseRawStream | runners/moon-pprof/src/cmd_memprofile_native.rs:666-711 | the cursor parser gives the samples of every whole record |
| AllocStream.SamplesConserve | runners/moon-pprof/src/cmd_memprofile_native.rs:697-708 | counts and bytes sum to those of the records with a user frame, times the rate |
| AllocStream.SamplesByStack | runners/moon-pprof/src/cmd_memprofile_native.rs:697-708 | stack by stack: a sample exactly for the non-empty stacks of user frames that some record shows, with the count and bytes of those records, times the rate |
| RetainedStream.ParseRetainedRawStream | runners/moon-pprof/src/cmd_memprofile_native.rs:713-795 | fails only on a byte that is no tag, and says where; otherwise the aggregate of the replayed whole records |
| RetainedStream.UserFramesAre | runners/moon-pprof/src/cmd_memprofile_native.rs:697-702 | the internal frames at the leaf are dropped, up to the first that is not internal, and nothing else |
| RetainedStream.InternalIff | runners/moon-pprof/src/cmd_memprofile_native.rs:797-807 | behind any underscores: exactly the listed names and prefixes are internal |
| RetainedStream.ParsedStacksAreUser | runners/moon-pprof/src/cmd_memprofile_native.rs:753-772 | no reported stack is empty or has an internal leaf |
| RetainedStream.LastTouchDecides | runners/moon-pprof/src/cmd_memprofile_native.rs:753-780 | an address is live exactly when the last record that touches it allocates, and as that record says |
| RetainedStream.ParseFrameNames | runners/moon-pprof/src/cmd_memprofile_native.rs:731-752 | the frame loop reads the names the codec reads, or finds the record torn |
| RetainedStream.AggregateLive | runners/moon-pprof/src/cmd_memprofile_native.rs:788-794 | one sample per distinct stack with its summed counts and bytes, in any iteration order |
| RetainedStream.AggregatesUnique | runners/moon-pprof/src/cmd_memprofile_native.rs:788-794 | the samples are determined by the live map |
| RetainedStream.AggregationConserves | runners/moon-pprof/src/cmd_memprofile_native.rs:788-794 | grouping by stack conserves bytes |
| LiveHeap.StepInv | runners/moon-pprof/assets/native_alloc_hook.c:196-293 | every step of every thread keeps the invariant of mutex, owners, stream and replay |
| LiveHeap.RunInv | runners/moon-pprof/assets/native_alloc_hook.c:196-293 | it holds in every state of every interleaving |
| LiveHeap.StreamShowsRecordedHeap | runners/moon-pprof/src/cmd_memprofile_native.rs:611-646 | at every moment, even inside a record, the stream parses and replays to exactly the objects whose 'A' is written and whose 'F' is not |
| LiveHeap.QuiescentStreamIsTheHeap | runners/moon-pprof/src/cmd_memprofile_native.rs:611-646 | with no thread inside a hook, at rate 1 and with user frames, the replay is the allocated heap, address reuse included |
| LiveHeap.QuiescentStreamIsTheSample | runners/moon-pprof/src/cmd_memprofile_native.rs:713-795 | at any rate it is the elected part of the heap |
| LiveHeap.ParserReportsRecordedHeap | runners/moon-pprof/src/cmd_memprofile_native.rs:713-795 | at every moment of every interleaving the parser accepts the stream and reports one sample per stack with the summed counts and bytes of the objects recorded by then |
| LiveHeap.ParserReportsTheHeap | runners/moon-pprof/src/cmd_memprofile_native.rs:713-795 | at rest and sampling everything, what it reports is the allocated heap grouped by stack, and the bytes add up to the sizes of the allocated objects |
| LiveHeap.AnyCutParses | runners/moon-pprof/assets/native_alloc_hook.c:53-79 | the stream cut at any byte still parses, to the records whole by then |
| LiveHeap.AnyCutShowsAnEarlierHeap | runners/moon-pprof/assets/native_alloc_hook.c:53-79 | and replaying those gives, as the parser reports, exactly the objects recorded at some earlier moment of the run |
| LiveHeap.SamplingBound | runners/moon-pprof/assets/native_alloc_hook.c:205-212 | in every interleaving ceil(N / rate) of N counted allocations are elected |
| AllocRun.StepInv | runners/moon-pprof/assets/native_alloc_hook.c:121-184 | in allocation mode, every step of every thread keeps the invariant of mutex, counter, tickets and stream |
| AllocRun.RunInv | runners/moon-pprof/assets/native_alloc_hook.c:121-184 | it holds in every state of every interleaving |
| AllocRun.StreamShowsElected | runners/moon-pprof/assets/native_alloc_hook.c:121-184 | at every moment the stream parses to whole records of distinct elected calls |
| AllocRun.QuiescentStreamIsTheElected | runners/moon-pprof/assets/native_alloc_hook.c:121-184 | at rest it holds every elected call with a backtrace exactly once, in some order |
| AllocRun.AnyCutParses | runners/moon-pprof/assets/native_alloc_hook.c:53-79 | cut at any byte it parses to the first so many of them |
| AllocRun.SamplingBound | runners/moon-pprof/assets/native_alloc_hook.c:131-138 | in every interleaving scaling the elected calls over-counts by less than one group |
| AllocRun.ParserReportsTheElected | runners/moon-pprof/src/cmd_memprofile_native.rs:666-711 | at rest the parser's samples add up to the elected calls with a user frame and to their bytes, times the rate |
| AllocRun.ParserReportsTheCalls | runners/moon-pprof/src/cmd_memprofile_native.rs:666-711 | with a user frame in every backtrace the reported count exceeds the counted calls by less than one group; at rate 1 count and bytes are theirs |
| TraceTree.TreeBuilder.InternStack | crates/pprof-to-chrome-trace/src/lib.rs:339-359 | the returned node's path spells the frames; nothing already in the tree moves; new nodes come from the frames |
| TraceTree.TreeBuilder.InternChild | crates/pprof-to-chrome-trace/src/lib.rs:342-356 | one step down keeps the trie valid and extends the path by the frame |
| TraceTree.PathInjective | crates/pprof-to-chrome-trace/src/lib.rs:316-364 | a path leads to one node only |
| TraceTree.SameNodeIffSameStack | crates/pprof-to-chrome-trace/src/lib.rs:316-364 | two stacks have one id iff they are equal |
| TraceTree.OneParent | crates/pprof-to-chrome-trace/src/lib.rs:343-354 | each node but the root is in exactly one children list, once, under a parent of smaller id |
| TraceTree.SpreadIsFair | crates/pprof-to-chrome-trace/src/lib.rs:220-240 | expansion emits exactly count ticks of the sample's own stack, which sum to its time, differ by at most one and never grow |
| TraceTree.PushExpandedSamples | crates/pprof-to-chrome-trace/src/lib.rs:220-240 | the loop appends those deltas for that leaf, and refuses more than ten million |
| TraceTree.TicksConserveTime | crates/pprof-to-chrome-trace/src/lib.rs:83-119 | over a whole profile spreading conserves time |
| TraceTree.RoundingBound | crates/pprof-to-chrome-trace/src/lib.rs:205-218 | rounding to microseconds moves a positive sample by less than 1000 ns |
| TraceTree.ProfileRounding | crates/pprof-to-chrome-trace/src/lib.rs:83-119 | over a whole profile by less than 1000 ns per positive sample |
| TraceTree.ConvertProfile | crates/pprof-to-chrome-trace/src/lib.rs:67-154 | when it fails; otherwise a valid trie whose emitted samples are exactly the ticks of the positive samples in order, and which starts with the profile in whole microseconds and lasts as long as the profile says, or else as the emitted samples do |
| TraceTree.StackOf | crates/pprof-to-chrome-trace/src/lib.rs:88-92 | the frames of the locations, the caller first: position by position from the back |
| TraceTree.PlaceholdersSay | crates/pprof-to-chrome-trace/src/lib.rs:261-313 | a location that does not resolve shows its id, its address or its function's id |
| TraceTree.StackSamplesAre | crates/pprof-to-chrome-trace/src/lib.rs:83-107 | one stack sample for each sample of positive value with a stack, and no others |
| TraceTree.UnitsAgree | crates/pprof-to-chrome-trace/src/lib.rs:205-218 | one length of time is one number of microseconds in every unit |
| TraceTree.CountAxisIs | crates/pprof-to-chrome-trace/src/lib.rs:186-196 | the first column of sample counts, or none |
| Pprof.SelectAxisIs | crates/pprof-to-chrome-trace/src/lib.rs:161-184 | the default axis is the first cpu or wall column in an accepted unit; an explicit one is taken whatever it holds |
| ChunkMerge.MergedMeans | crates/chrome-trace-to-pprof/src/lib.rs:210-270 | merged nodes come in order of first sight with the frame first seen, and have exactly the declared edges, from either side |
| ChunkMerge.SameForestSameTree | crates/chrome-trace-to-pprof/src/lib.rs:210-270 | streams that declare the same forest, by any mix of children and parent fields, merge to the same nodes and parents |
| ChunkMerge.SameForestSameStacks | crates/cpuprofile-to-pprof/src/lib.rs:176-186 | and every leaf then has the same root-to-leaf stack |
| ChunkMerge.ForestParents | crates/cpuprofile-to-pprof/src/lib.rs:181-186 | in a forest the inverted parent map is the declared parenthood |
| ChunkMerge.ParentsOrChildren | crates/chrome-trace-to-pprof/src/lib.rs:216-244 | declaring a forest by parent links or by children lists is the same |
| ChunkMerge.ParentMapMeans | crates/cpuprofile-to-pprof/src/lib.rs:181-186 | the inversion covers exactly the nodes with an edge to them, and follows an edge |
| StableSort.SortIsStable | crates/chrome-trace-to-pprof/src/lib.rs:204 | chunks are put in time order, those of equal time keeping theirs |
| StableSort.SortUnique | crates/chrome-trace-to-pprof/src/lib.rs:204 | lists that agree on the order within each key sort alike |
| ChunkMerge.CuttingIsImmaterial | crates/chrome-trace-to-pprof/src/lib.rs:203-283 | cutting a stream into time-ordered chunks in any two ways gives the same profile |
| ChunkMerge.SplitChunk | crates/chrome-trace-to-pprof/src/lib.rs:203-283 | cutting one chunk of a time-ordered stream in two, its nodes, samples and deltas each anywhere, leaves the profile as it is |
| ChunkMerge.ChunksAdd | crates/chrome-trace-to-pprof/src/lib.rs:210-238 | nodes, samples and deltas of chunks come one chunk after the other |
| ChunkMerge.ProfileHolds | crates/chrome-trace-to-pprof/src/lib.rs:236-283 | all samples in time order with a delta for each, and the times of the stream, or 0 and the sum of the deltas |
| ChunkMerge.ChunkOfEvent | crates/chrome-trace-to-pprof/src/lib.rs:147-200 | a profile event adds one chunk at its time, with its own samples and deltas or else those of the nested profile |
| ChunkMerge.FirstTimesWin | crates/chrome-trace-to-pprof/src/lib.rs:147-175 | the first event that names a start or an end time decides it |
| ChunkMerge.ArrivalIsImmaterial | crates/chrome-trace-to-pprof/src/lib.rs:203-283 | chunks that arrive in another order, keeping the order of those of one timestamp, give the same profile |
| ChunkMerge.IntoProfile | crates/chrome-trace-to-pprof/src/lib.rs:203-283 | the loops compute the profile of the concatenated chunks |
| ChunkMerge.Demultiplex | crates/chrome-trace-to-pprof/src/lib.rs:116-136 | one stream per key, made of that key's own events |
| ChunkMerge.InterleavingIsImmaterial | crates/chrome-trace-to-pprof/src/lib.rs:112-145 | two traces that hold the same events per key, however interleaved, give the same profiles |
| ChunkMerge.ExtractCpuProfiles | crates/chrome-trace-to-pprof/src/lib.rs:112-145 | the profiles of the streams with chunks, in the order of their keys |
| CpuProfiles.Build | crates/cpuprofile-to-pprof/src/lib.rs:166-242 | ends unless a cycle is among the ancestors of a sampled node; dense ids; whatever the names hold, one sample per sampled leaf with its count and 1000 times its microseconds, whose locations stand for the nodes from leaf to root; the locations all resolve to their frames iff nodes on sampled stacks that share a function key show the same name and url; the duration is the profile's |
| CpuProfiles.DistinguishedAgree | crates/cpuprofile-to-pprof/src/lib.rs:307-340 | keys that tell frames apart meet that condition |
| CpuProfiles.CollisionMisleads | crates/cpuprofile-to-pprof/src/lib.rs:313-317 | for one profile of two nodes whose names and urls hold the separator, every result of the builder shows a wrong frame |
| CpuProfiles.StackForNode | crates/cpuprofile-to-pprof/src/lib.rs:245-264 | the walk ends, unless a cycle is among the leaf's ancestors, and yields the locations of the leaf's stack, cached or not |
| CpuProfiles.EmitSamples | crates/cpuprofile-to-pprof/src/lib.rs:199-217 | one sample per counted leaf in any iteration order |
| CpuProfiles.AggregateSamples | crates/cpuprofile-to-pprof/src/lib.rs:188-197 | the two maps are those of the samples so far |
| CpuProfiles.AggregationIsExact | crates/cpuprofile-to-pprof/src/lib.rs:188-197 | each leaf's occurrences and time, conserving both totals |
| CpuProfiles.MissingDeltas | crates/cpuprofile-to-pprof/src/lib.rs:188-197 | a sample without a delta takes no time |
| CpuProfiles.LastParent | crates/cpuprofile-to-pprof/src/lib.rs:181-186 | of several nodes that list a child the last is its parent |
| CpuProfiles.BuiltConserves | crates/cpuprofile-to-pprof/src/lib.rs:199-217 | whatever the names hold, counts sum to the samples, nanoseconds to 1000 times the deltas |
| CpuProfiles.State.Intern | crates/cpuprofile-to-pprof/src/lib.rs:297-305 | the string's own id, adding it only if new; old ids keep their strings |
| CpuProfiles.State.InternFunction | crates/cpuprofile-to-pprof/src/lib.rs:307-340 | a function with the frame's key; issued ids never change |
| CpuProfiles.State.InternLocation | crates/cpuprofile-to-pprof/src/lib.rs:342-366 | a location of the node's id; issued ids never change |
| CpuProfiles.LocationResolves | crates/cpuprofile-to-pprof/src/lib.rs:307-366 | every issued location resolves to its node's line and a function of its node's key |
| CpuProfiles.SeparatorFreeKeys | crates/cpuprofile-to-pprof/src/lib.rs:313-317 | names and urls without the separator are told apart |
| CpuProfiles.SeparatorCollides | crates/cpuprofile-to-pprof/src/lib.rs:313-317 | with it, two functions can share a key: the two of `CollisionMisleads` do |
| TraceRoundTrip.RoundTrip | crates/pprof-to-chrome-trace/src/lib.rs:67-154 | pprof to trace to pprof: exactly when it fails; otherwise, whatever the names hold, one sample per distinct stack under an added root, with the stack's summed count and 1000 times its summed microseconds, both totals conserved; the samples show their stacks iff frames of the trip that share a function key show alike; every kept sample of the input has one in the result, and every one of the result comes from one, that leaf first shows the input's own location ids in their order and then the root, with names and files when that condition holds; the start and the duration are the input's in whole microseconds |
| TraceRoundTrip.SafeFramesAgree | crates/cpuprofile-to-pprof/src/lib.rs:313-317 | names and urls without the separator meet that condition |
| TraceRoundTrip.CollidingFramesDisagree | crates/cpuprofile-to-pprof/src/lib.rs:313-317 | two one-frame stacks that do not |
| TraceRoundTrip.MergedTrie | crates/chrome-trace-to-pprof/src/lib.rs:203-283 | the written trie comes back with the same nodes, frames and parents |
| TraceRoundTrip.TraceReadBack | crates/chrome-trace-to-pprof/src/lib.rs:112-191 | the four written events hold one stream, and its profile is the one written |
| TraceRoundTrip.StackSpells | crates/cpuprofile-to-pprof/src/lib.rs:245-264 | walking up from a leaf spells its path and ends at the root |
| TraceRoundTrip.SpreadKeepsStacks | crates/pprof-to-chrome-trace/src/lib.rs:220-240 | spreading keeps every stack's count and time |
| TraceRoundTrip.LeafValues | crates/cpuprofile-to-pprof/src/lib.rs:188-197 | a leaf's aggregated values are its stack's |
| TraceRoundTrip.FirstLineKept | crates/pprof-to-chrome-trace/src/lib.rs:261-292 | across the three converters a location keeps the name, file and line of its first line |
| TraceRoundTrip.ColumnKept | crates/pprof-to-chrome-trace/src/lib.rs:261-292 | into the trace a location carries its column, and no script |
| TraceRoundTrip.ProfileKeyTells | crates/chrome-trace-to-pprof/src/lib.rs:350-361 | streams are told apart by process, thread and id, where no id and the id "none" are one |
| Demangler.DemangleInvertsMangle | crates/moonbit-demangle/src/lib.rs:42-134 | demangling gives back the path iff no bare last identifier looks generic and the namespace count does not glue onto the first length |
| Demangler.Demangle | crates/moonbit-demangle/src/lib.rs:42-66 | the peeling loop yields the parts found walking back |
| Demangler.FindSegmentEnd | crates/moonbit-demangle/src/lib.rs:75-103 | the longest segment the text ends in, or none |
| Demangler.SegmentFound | crates/moonbit-demangle/src/lib.rs:75-103 | up to 64 letters, digits and underscores, the first no digit, behind their own length are a segment |
| Demangler.SegmentReads | crates/moonbit-demangle/src/lib.rs:75-103 | what is found as the longest segment is one |
| Demangler.LastPartPeeled | crates/moonbit-demangle/src/lib.rs:51-60 | the longest segment is peeled off the end, and the text before it is read on |
| Demangler.SymbolPrefixIs | crates/moonbit-demangle/src/lib.rs:106-117 | behind any underscores: exactly the texts that start with M0 and a capital letter are symbols |
| Demangler.NotMangledStays | crates/moonbit-demangle/src/lib.rs:42-66 | any other name, and one that ends in no segment, is left alone |
| Demangler.MatchDigits | crates/moonbit-demangle/src/lib.rs:82-100 | trying every suffix of the digit run is asking whether the text ends with the number |
| Demangler.StripGenericSuffix | crates/moonbit-demangle/src/lib.rs:119-134 | cuts exactly a trailing generic instantiation |
| Demangler.Itoa | crates/moonbit-demangle/src/lib.rs:155-165 | the decimal text of the length |
| Demangler.LongestSegment | crates/moonbit-demangle/src/lib.rs:75-103 | on mangled text the greedy choice is the last segment, or the glued span |
| Demangler.PartsAreIds | crates/moonbit-demangle/src/lib.rs:51-60 | without glue the parts are the identifiers |
| Demangler.GluedParts | crates/moonbit-demangle/src/lib.rs:89-100 | with glue some part swallows a length |
| Demangler.CutFails | crates/moonbit-demangle/src/lib.rs:119-134 | a cut last identifier does not come back |
| Demangler.GlueHappens | crates/moonbit-demangle/src/lib.rs:89-100 | a concrete symbol that glues |
| Demangler.BareGenericHappens | crates/moonbit-demangle/src/lib.rs:119-134 | a concrete symbol that is cut |
| FoldedStacks.FoldedRoundTrip | crates/pprof-stack-formats/src/lib.rs:114-152 | export, import, export: the second text of axis 1 is the first iff every stack survives as text and every sum reads back as itself; when the stacks survive, the import fails iff some sum does not read back, and otherwise holds one sample per distinct stack of names with its sum as read back |
| FoldedStacks.ExactTrip | crates/pprof-stack-formats/src/lib.rs:482-496 | while no sum passes 2^53 the text comes back iff every stack survives |
| FoldedStacks.HashRootLost | crates/pprof-stack-formats/src/lib.rs:469-471 | a profile of one function whose name starts with '#' does not come back |
| FoldedStacks.ParsedSurvives | crates/pprof-stack-formats/src/lib.rs:467-508 | whatever the line, the stack it parses to has trimmed names and a root that starts no comment |
| FoldedStacks.ImportsSurvive | crates/pprof-stack-formats/src/lib.rs:220-324 | so every stack of every imported profile survives |
| FoldedStacks.RenderTells | crates/pprof-stack-formats/src/lib.rs:145-150 | different sums are written differently |
| FoldedStacks.PprofToFolded | crates/pprof-stack-formats/src/lib.rs:114-152 | the text of the summed stacks in key order |
| FoldedStacks.FoldedSums | crates/pprof-stack-formats/src/lib.rs:126-142 | line by line: exactly the texts of samples of positive value with a stack, each with the sum of the samples under it |
| OrderedKeys.LessIsLexicographic | crates/pprof-stack-formats/src/lib.rs:120 | the key order is the dictionary's |
| FoldedStacks.FoldedToPprof | crates/pprof-stack-formats/src/lib.rs:220-324 | fails on the first bad line; otherwise one sample per parsed line whose locations stand for its frames, and the two axes |
| FoldedStacks.ParseFoldedLine | crates/pprof-stack-formats/src/lib.rs:467-508 | nothing, a stack and its rounded value, or an error |
| FoldedStacks.TwoColumns | crates/pprof-stack-formats/src/lib.rs:467-508 | a line of two columns, with any whitespace around and between them: its stack cut at semicolons and trimmed, its value, or the error |
| FoldedStacks.CommentLine | crates/pprof-stack-formats/src/lib.rs:469-471 | behind any whitespace a comment parses to nothing |
| FoldedStacks.OneColumn | crates/pprof-stack-formats/src/lib.rs:472-474 | a single column is an error |
| FoldedStacks.ValueReads | crates/pprof-stack-formats/src/lib.rs:482-496 | which floats are values, and that they round to the nearest whole number |
| FoldedStacks.TrimAround | crates/pprof-stack-formats/src/lib.rs:468-481 | trimming takes away the whitespace on both sides and nothing else |
| FoldedStacks.LinesAre | crates/pprof-stack-formats/src/lib.rs:235 | the lines joined again are the text |
| FoldedStacks.JoinSplit | crates/pprof-stack-formats/src/lib.rs:499-506 | joining puts back what splitting took apart |
| FoldedStacks.LineParses | crates/pprof-stack-formats/src/lib.rs:467-508 | a written line parses back to its stack, with the value its column reads back as |
| FoldedStacks.LinesOfRender | crates/pprof-stack-formats/src/lib.rs:145-150 | the text splits into the lines it was made of |
| FoldedStacks.SplitJoin | crates/pprof-stack-formats/src/lib.rs:499-506 | splitting undoes joining when no piece holds the separator |
| FoldedStacks.RenderUnique | crates/pprof-stack-formats/src/lib.rs:145-150 | the text is determined by the sums |
| FoldedStacks.ReExported | crates/pprof-stack-formats/src/lib.rs:124-143 | importing and exporting again gives the same sums |
| FoldedStacks.CommentsVanish | crates/pprof-stack-formats/src/lib.rs:469-471 | a root starting with '#' is lost |
| Speedscope.SpeedscopeRoundTrip | crates/pprof-stack-formats/src/lib.rs:155-217 | export, import, export: always the same stacks in order, with their values as read back; the default axis is found iff the unit is one of time, and gives the same file iff, besides, all weights and their total survive as floats; axis 1 gives the same file iff the unit and the weights survive |
| Speedscope.SameFileIff | crates/pprof-stack-formats/src/lib.rs:195-211 | the export of what was read back is the first file iff the unit and the weights survive |
| Speedscope.UnitSurvivesIff | crates/pprof-stack-formats/src/lib.rs:647-656 | the units that survive are those of time, bytes and counts |
| Speedscope.ExactSurvive | crates/pprof-stack-formats/src/lib.rs:382-391 | values up to 2^53 are read back as themselves, and survive |
| Speedscope.RoundedSurviveIff | crates/pprof-stack-formats/src/lib.rs:382-391 | past 2^53, with a conversion that rounds, every weight survives and only the total can tell |
| Speedscope.PprofToSpeedscope | crates/pprof-stack-formats/src/lib.rs:155-217 | the frame table in first-use order, samples that spell the stacks in it, weights and total |
| Speedscope.TableFrames | crates/pprof-stack-formats/src/lib.rs:165-193 | the frame table holds the frames of the exported stacks and no others, once each; further stacks only add at its end |
| Speedscope.CountedSingle | crates/pprof-stack-formats/src/lib.rs:170-195 | a sample is exported when its value is positive and it has a stack, with that stack and value |
| Speedscope.SpeedscopeToPprof | crates/pprof-stack-formats/src/lib.rs:327-453 | when it fails; otherwise one function and location per frame, the kept samples, and the duration of the file's span |
| Speedscope.WeightReads | crates/pprof-stack-formats/src/lib.rs:381-388 | weights round to the nearest whole number within the range of an i64; a missing one is 1 |
| Speedscope.ImportedSamplesAdd | crates/pprof-stack-formats/src/lib.rs:381-405 | samples are imported in order, each with the weight at its own place |
| Speedscope.LocationIdsAdd | crates/pprof-stack-formats/src/lib.rs:392-396 | frame indices come as location ids from the back, those out of range left out |
| Speedscope.FrameShown | crates/pprof-stack-formats/src/lib.rs:593-640 | any frame shows again without what is empty or not positive, and never without a name |
| StackFormats.PlaceholdersSay | crates/pprof-stack-formats/src/lib.rs:593-640 | a location that does not resolve shows its id, its address or its function's id |
| StackFormats.UnitsAgree | crates/pprof-stack-formats/src/lib.rs:510-524 | one length of time is one duration in every unit |
| Speedscope.ExportUnique | crates/pprof-stack-formats/src/lib.rs:195-211 | a file is determined by the stacks and their values |
| Speedscope.StacksKept | crates/pprof-stack-formats/src/lib.rs:381-405 | the imported samples show the exported stacks, in order, with their values as read back |
| Speedscope.FrameKept | crates/pprof-stack-formats/src/lib.rs:593-640 | a frame shows again as itself after an import |
| Speedscope.TimeAxis | crates/pprof-stack-formats/src/lib.rs:526-548 | the imported profile has a default axis exactly for units of time |
| LocationCache.SameLocationIff | crates/firefox-to-pprof/src/lib.rs:264-317 | two pairs whose names hold no separator share a location iff their resolved chains agree on mapping, address, name and line |
| LocationCache.SharedIffCanonical | crates/firefox-to-pprof/src/lib.rs:264-317 | any two pairs share a location iff their chains have the same canonical string |
| LocationCache.CachedAgreesWithFresh | crates/firefox-to-pprof/src/lib.rs:264-317 | when no name resolved so far holds a separator, a cached location shows what resolving afresh gives, line by line, every function id resolving |
| LocationCache.StoredFiles | crates/firefox-to-pprof/src/lib.rs:243-262 | a stored location shows the files of the chain it was made from: two functions of one name in two files stay two |
| LocationCache.CanonicalInjective | crates/firefox-to-pprof/src/lib.rs:278-287 | the canonical string tells exactly that much apart |
| LocationCache.State.InternLocation | crates/firefox-to-pprof/src/lib.rs:264-317 | the pair is cached under the returned id, and nothing issued changes |
| LocationCache.State.InternFunction | crates/firefox-to-pprof/src/lib.rs:243-262 | a function of the key; issued ids never change |
| LocationCache.FilesAreNotTold | crates/firefox-to-pprof/src/lib.rs:278-287 | the file takes no part |
| FirefoxThreads.BuildThread | crates/firefox-to-pprof/src/lib.rs:167-190 | one sample per distinct sampled stack of the thread with its own summed count and time, whose locations are the cached ones of its frames from leaf to root; the thread's nanoseconds |
| FirefoxThreads.StackFrames | crates/firefox-to-pprof/src/lib.rs:368-386 | the walk along the prefixes ends with the frames of the stack, cached or not |
| FirefoxThreads.LeafFirst | crates/firefox-to-pprof/src/lib.rs:368-386 | the leaf first, and then the frames of the stack it was called from |
| FirefoxThreads.AggregateSamples | crates/firefox-to-pprof/src/lib.rs:169-177 | the sums of the samples so far; samples without a stack are skipped |
| FirefoxThreads.AggregateIsExact | crates/firefox-to-pprof/src/lib.rs:169-177 | exactly the sampled stacks, each with its own sums |
| FirefoxThreads.AggregateConserves | crates/firefox-to-pprof/src/lib.rs:169-177 | the sums conserve the counts and the nanoseconds of the samples with a stack |
| SymbolLookup.FindsAllIff | crates/firefox-to-pprof/src/samply.rs:112-155 | after the sort, on any symbols: every answer a lookup may give, at every address, is a chain exactly where some symbol contains the address, iff no symbol is hidden |
| SymbolLookup.HiddenAlike | crates/firefox-to-pprof/src/samply.rs:71-78 | loading, being stable, changes nothing about which symbols are hidden |
| SymbolLookup.HiddenIsMissed | crates/firefox-to-pprof/src/samply.rs:112-155 | unless the hiding symbol is empty and shares its start, a hidden symbol is missed for certain at the end of the one that hides it |
| SymbolLookup.LookupIsScan | crates/firefox-to-pprof/src/samply.rs:112-155 | after the sort, on disjoint symbols nothing is hidden, and a lookup answers iff some symbol contains the address, with that symbol's chain |
| SymbolLookup.Lookup | crates/firefox-to-pprof/src/samply.rs:112-155 | on any sorted table: the chain, if it contains the address, of a symbol that starts there, or else of the last one that starts before |
| SymbolLookup.BinarySearch | crates/firefox-to-pprof/src/samply.rs:115-120 | a match, or the insertion point |
| SymbolLookup.ChainOf | crates/firefox-to-pprof/src/samply.rs:125-154 | leaf first, empty names replaced by the symbol's |
| SymbolLookup.FrameShows | crates/firefox-to-pprof/src/samply.rs:125-154 | an inline frame shows its own name, file and line where it has them, the symbol's name otherwise, and the address |
| SymbolLookup.FallbackTells | crates/firefox-to-pprof/src/samply.rs:195-206 | unresolved addresses of one library are told apart, under its name if it has one |
| SymbolLookup.SortIsRight | crates/firefox-to-pprof/src/samply.rs:71-78 | loading sorts and keeps the symbols |
| SymbolLookup.Resolve | crates/firefox-to-pprof/src/samply.rs:159-206 | the chain under the frame's library and address, or one fallback frame; never empty |
| SymbolLookup.OverlapHides | crates/firefox-to-pprof/src/samply.rs:115-124 | one such table: an inner symbol that ends early hides the rest of the outer one |
| SymbolLookup.TiesAreFound | crates/firefox-to-pprof/src/samply.rs:115-124 | of two symbols with one start nothing is hidden if the longer was loaded last, and something is if it was loaded first |

## Left out

- AllocHook: the trace is always there, where the program records it only when asked to; the hook has no effect on wasm state, and backtraces and clocks are inputs.
- SamplesConserve: additions are unbounded where the program adds signed 64-bit integers; the same holds of every sum in the converters, and of the u64 counter of the native hook.
- FindsAllIff: `rva + size` is unbounded, where the program adds unsigned 64-bit integers; at an address where several symbols start any of them may be found, as the binary search promises no more.
- FoldedRoundTrip: parsing a value column as a float is a parameter, about which the theorem asks nothing; `ExactTrip` asks that it read whole numbers up to 2^53 exactly.
- SpeedscopeRoundTrip: converting to a float is a parameter, about which the theorem asks nothing; JSON is taken to carry floats unchanged.
- InstrumentationPreservesRuns: a host function acts on operands and store only; it cannot call back into the module.
- RoundTrip: the trace is the list of its decoded events; a column is lost, as the code loses it, and only the first profile of a trace is taken.
- DemangleInvertsMangle: identifiers hold no digits, as the forward mangler writes them; symbols are sequences of bytes.
- Build: the mapping entry, the averaged period and the mapping file name in the string table are not modelled.
- Gzip, protobuf and JSON encoding, files, command lines, environment variables and subprocesses.
- walrus and wasmtime: module parsing and emission, validation, exceptions and tail calls; sequences nested by anything but block, loop and if, which the walk does not follow.
- The size of GC objects is the code's own proxy (the sum of field sizes, 32-bit and wrapping as in a release build); nothing is said about the engine's heap.
- `libc_malloc` failing, `realloc`, and allocations made before the hook's file is open; a free is of an allocated object and happens once.
- The brace scan and text replacement that patch the generated C; what the patched functions do is modelled, not their text.
- Signal handling inside `fclose`: finishing is modelled as cutting the stream at a byte.
- The second encoder of the memory profiles (functions, locations and display names of `encode_pprof`), which interns as the cpuprofile builder does.
- Firefox sample weighting (floats), the loop over threads, and reading a frame's address and library off the thread's tables.
- `heapprofile-to-pprof`, `perf-to-pprof` and `cmd_summary.rs`, which aggregate and intern in the same ways.
- The wasm host, the benchmark command, the shell and JavaScript runners.
