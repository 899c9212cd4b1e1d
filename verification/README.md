# STeP: a verified model of the telemetry dispatcher

STeP queues measurements, decides for each registered node chain whether its
filters match, and runs the matching chains. This project models that core in
Dafny and proves what it is for: which chains run, in which order, under
interference from other threads, with and without the filter cache; what the
cache holds over whole runs; that payload sizes and pool accounting are right;
and that the space-vector modulation sample refines a closed form.

`dafny verify dfyconfig.toml` checks everything.

## How it is organised

| file | models |
|---|---|
| `Common.dfy`, `Header.dfy` | optional values, error numbers; the filter word, its bit fields and masks |
| `Filter.dfy` | the filter engine: methods over C integers, and what a chain means |
| `Cache.dfy`, `Lru.dfy` | the cache as an object over a record array; runs of look-up-then-insert |
| `Node.dfy` | node chains, handlers, decisions; handlers are arbitrary functions of the world |
| `Handlers.dfy` | what handlers and subscribers do, on a node's own fields |
| `Registry.dfy` | the registry as values, and the order it promises |
| `Dispatch.dfy` | one undisturbed pass as a function, and the shape of its callback trace |
| `ProcMgr.dfy` | the processor manager as an object: records threaded by links, changed in place |
| `InitCodes.dfy` | what a registration's return code says |
| `Interleaving.dfy` | the dispatcher thread and other threads as one state machine over the lock |
| `Traversal.dfy`, `Chains.dfy`, `Clearing.dfy` | a pass under interference: which records it reaches, what it executes, what a clear does to it |
| `Solo.dfy` | agreement of the two models of a pass |
| `Transparency.dfy`, `Protocol.dfy` | when the cache makes no difference; what the cache goes through in a run |
| `Twice.dfy` | the run that shows their conditions to be necessary |
| `Pool.dfy`, `Lifecycle.dfy` | byte accounting of the sample pool; measurements from allocation to release |
| `Sizing.dfy` | payload sizing over rounded arithmetic |
| `Svm.dfy` | space-vector modulation over exact reals |

Objects that the source updates in place are classes (`FilterCache`, `ProcMgr`,
`SamplePool`). Their methods are proved against functions on values, and the
properties are lemmas about those functions. A record of the static array is
named by its index, so a link is the index of the record it points to. The
clock, the square root, the heap's answer and the two float roundings are
parameters. What a chain or a subscriber does is computed from its handlers, which
are arbitrary functions of the world they run in; other threads may write to that
world at any moment.

## Where the code and its documentation differ

The model follows the code.

- `include/step/cache.h:95-98` promises to evict the least recently used
  record. The stamps are milliseconds, so two uses can carry the same stamp;
  `EvictsLeastRecentIff` gives the exact condition and
  `SameTickEvictsTheWrongRecord` an input.
- `include/step/node.h:117-125` offers the matched handler for filtering on
  secondary information. A cache hit bypasses it, and it skips whatever else the
  evaluate and matched handlers would have done, such as the counting of
  `tests/src/data.c:22-38`. `TransparentIff` gives the exact condition, and
  `CacheHidesMatchedHandler` and `CacheHidesSideEffects` inputs.
- `src/proc_mgr.c:170` looks the filter word up before the handlers run and
  `:192` inserts it as they left it. `UniqueIff` gives the exact condition for no
  key to be cached twice, and `RewritingEvaluator` an input.
- `include/step/measurement/measurement.h:411-419` promises the minimum number
  of bytes. For BASE45 the code allocates more; `SizeIsLeastIff` gives the exact
  condition.
- `include/step/proc_mgr.h:80` promises a negative code on failure. The code of
  the last init handler is returned; `RegisterIsHonestIff` gives the chains for
  which that is enough.
- `include/step/node.h:144-148` says the stop handler fires on success; it
  always fires.
- `include/step/filter.h:148-153` makes a NULL chain a catch-all even with a
  positive count; `src/filter.c:122` does not look. A chain here is its
  sequence of filters.
- `src/proc_mgr.c:371`, `:463`, `:482` and `:504` let through a handle equal to
  the handle counter, which names no record. The methods require another
  handle.

## Model

| member | source | states |
|---|---|---|
| Filter.EvaluateFilter | src/filter.c:63-105 | one filter on C integers: the result is 0 or 1, and on a previous result of 0 or 1 it is the operand's logical meaning |
| Filter.Evaluate | src/filter.c:107-153 | all four exits of the engine: NULL measurement, NULL chain, refused first operand, and a result that is the chain's meaning |
| Filter.OperatorsOnWords | src/filter.c:82-103 | what each operator makes of the set of words matched so far: its own masked comparison replaces it (IS, NOT), intersects it (AND, AND_NOT), joins it (OR, OR_NOT) or flips it (XOR); no filters match every word; a chain is accepted exactly when it begins with IS or NOT, and a refused one matches nothing |
| Filter.FoldConcat | src/filter.c:135-144 | evaluating a concatenation is evaluating the suffix seeded with the prefix's result |
| Filter.LastDeciderWins | src/filter.c:81-104 | the last filter that decides regardless of its prefix settles the chain, flipped once per later XOR hit, whatever the seed |
| Filter.MatchesBackward | src/filter.c:127-148 | every accepted chain has such a filter, so a backward reading gives the forward loop's result |
| Filter.MatchesLocal | src/filter.c:71-79 | measurements that differ only in bits every filter ignores get the same result |
| Filter.FieldFilterTestsField | include/step/measurement/measurement.h:231-247 | a filter built from a field's position and mask holds exactly when that header field has the value |
| Header.PackUnpack | include/step/measurement/measurement.h:254-280 | the packed filter word and its bit fields are mutually inverse views |
| Header.GetReadsTheField | include/step/measurement/measurement.h:252-280 | shifting and masking the word reads the struct member of that name |
| Header.MasksPartitionTheWord | include/step/measurement/measurement.h:231-247 | the masks at their positions cover the word but for the reserved bits, each bit once |
| Cache.FilterCache.Check | src/cache.c:76-100 | the linear scan answers from the first live record of the key, refreshes its stamp and counts; a miss changes only the count |
| Cache.FilterCache.Add | src/cache.c:102-136 | the record goes to the first empty slot, else to the first slot with the smallest stamp; nothing else changes |
| Cache.FilterCache.Clear | src/cache.c:68-74 | every slot becomes empty and only the clear count changes |
| Cache.Oldest | src/cache.c:119-124 | the victim has the smallest stamp, and every lower slot a larger one |
| Lru.KeysStayUnique | src/cache.c:84-133 | over any run on any clock that inserts under the key looked up, no two live records share a key; `Protocol.UniqueIff` says which dispatchers' runs do |
| Lru.CountersBalance | src/cache.c:80-108 | over any run, whatever key is inserted, insertions are checks minus matches, in 32-bit arithmetic |
| Lru.CountersCountCalls | src/cache.c:70-108 | each counter by itself counts its calls: look-ups, hits, insertions and flushes, in 32-bit arithmetic; every look-up is a hit or an insertion |
| Lru.LiveCountIsInsertions | src/cache.c:110-133 | on a positive clock, whatever key is inserted, the live count is the smaller of the depth and the insertions since the last clear |
| Lru.StampsFollowUse | src/cache.c:84-133 | on a clock that never goes back the stamps of live records follow the order of use |
| Lru.EvictsLeastRecentIff | src/cache.c:118-127 | the evicted record is the least recently used one if and only if no lower slot has its stamp |
| Lru.SameTickEvictsTheWrongRecord | src/cache.c:118-127 | a run in one clock tick after which the more recently used record would be evicted |
| Lru.LruStack | src/cache.c:84-133 | on an increasing clock a key is live exactly when it was used and fewer than DEPTH other keys were used since |
| Lru.Inclusion | src/cache.c:84-133 | what is live at one depth is live at every greater depth after the same run |
| Lru.InclusionOfHits | src/cache.c:84-133 | and hits at least as often over the same run |
| Node.ChainAttemptsEverything | src/proc_mgr.c:202-239 | every start, exec and stop handler along the chain is called once, in order, whatever the earlier ones returned |
| Node.ChainPairsErrors | src/proc_mgr.c:205-235 | every nonzero return is followed at once by its error call, and no error call comes from elsewhere |
| Node.NthNext | src/proc_mgr.c:385-391 | following a link moves one instance along the chain |
| Handlers.NodeRunsItsHandlers | src/proc_mgr.c:205-235 | the node's start, exec and stop fields are called in that order with handle and index, each in the world the one before left, NULL skipped, and on a nonzero return its error field with that code; the trace reports exactly that |
| Handlers.ChainThreads | src/proc_mgr.c:202-239 | along a chain each node so runs, under its own index, in the world the node before it left |
| Handlers.InitThreads | src/proc_mgr.c:345-356 | the same of the init handlers at registration |
| Handlers.NotifyThreads | src/proc_mgr.c:241-248 | each subscriber is called with the handle and its own user data, in the world the one before it left |
| Handlers.WorkThreads | src/proc_mgr.c:200-248 | a record that fires runs its nodes and then calls its subscribers, in the worlds so threaded |
| Handlers.EvaluateHandlerOrFilters | src/proc_mgr.c:175-182 | a node with an evaluate handler decides as that handler returns, whatever its filters; one without matches exactly the words of its filter chain, leaves the world alone, and yields the engine's code |
| Handlers.MatchedHandlerHasTheLastWord | src/proc_mgr.c:184-188 | verdict and world are what the matched handler returns, in the world the positive decision left; it is not asked about negative ones |
| Handlers.VetoedRecordDoesNotFire | src/proc_mgr.c:184-200 | a record whose matched handler returns 0 does not fire |
| Handlers.SubscriberIsToldLast | src/proc_mgr.c:241-248 | after a subscription a pass decides as before, and when the record fires the new subscriber is called once, last |
| Registry.RegisterKeepsOk | src/proc_mgr.c:298-343 | registration keeps the list sorted and complete and appends one record; at the limit it returns 0xFFFFFFFF and changes nothing |
| Registry.SubscribeAppends | src/proc_mgr.c:510-524 | a subscription goes to the end of one record's list; nothing else changes |
| Registry.SetEnabledSetsTheFlag | src/proc_mgr.c:468-487 | the flag of one record takes the value given; nothing else changes |
| Registry.PlaceAt | src/proc_mgr.c:319-343 | the new record goes after every record of at least its priority |
| Registry.PositionIsRank | src/proc_mgr.c:319-343 | a record's position is the number of records that come before it by priority, then handle, so the order is the only one possible |
| Registry.ListHoldsEachHandle | src/proc_mgr.c:305-343 | the list holds each handle below the counter exactly once |
| Registry.NextFollows | src/proc_mgr.c:155-155 | a link leads to the very next record in the promised order |
| Dispatch.SweepIsFaithful | src/proc_mgr.c:154-264 | the callbacks of a pass are the chains and subscribers of the fired records, in the order they fired |
| Dispatch.FiredAsDecided | src/proc_mgr.c:155-200 | a record fires exactly when it is enabled and the decision taken when the pass reaches it, in the world (header and payload included) that the records before it left, is positive |
| Dispatch.CodeIsTheLastAnswer | src/proc_mgr.c:128-181 | a pass returns what the filter engine said the last time it was asked, whatever handlers returned |
| Dispatch.SweepConcat | src/proc_mgr.c:155-264 | a pass over a list in two parts is a pass over the second from the cache, world, trace and code the first left |
| Dispatch.SweepAddressed | src/proc_mgr.c:202-239 | every return came from the handler of the node found under the handle and index passed |
| Dispatch.PassTrace | src/proc_mgr.c:154-264 | the four statements above, with error pairing, for one whole pass |
| ProcMgr.ProcMgr.Register | src/proc_mgr.c:284-363 | the records and links represent the registry after registration; init handlers all run; the code returned is the last one's |
| ProcMgr.ProcMgr.Link | src/proc_mgr.c:319-343 | the walk and the three list insertions splice the record in at its spot and change no other link's meaning |
| ProcMgr.ProcMgr.NodeGet | src/proc_mgr.c:365-393 | the node at that position of the chain, or NULL exactly when the index is at least its length |
| ProcMgr.ProcMgr.SetEnabled | src/proc_mgr.c:455-491 | only the named record's enabled flag changes, to the value given; an unknown handle changes nothing |
| ProcMgr.ProcMgr.Subscribe | src/proc_mgr.c:493-529 | the subscriber is appended to the named record; the two failures change nothing |
| ProcMgr.ProcMgr.Clear | src/proc_mgr.c:422-453 | registry and cache are empty and every record is zero |
| ProcMgr.ProcMgr.Process | src/proc_mgr.c:128-282 | an empty registry is left at once, else following the links with the prefetched successor computes the pass of the reference: world, trace, return code, match count and cache; either way the measurement is freed iff asked |
| ProcMgr.RunNodes | src/proc_mgr.c:200-239 | the do-while loop runs the whole chain |
| ProcMgr.NotifySubscribers | src/proc_mgr.c:241-248 | the subscribers are called in subscription order, NULL callbacks skipped |
| ProcMgr.EvaluateRecord | src/proc_mgr.c:175-188 | evaluate handler or filter chain, then the matched handler's veto |
| ProcMgr.InitChain | src/proc_mgr.c:345-356 | all init handlers run, and the code is that of the last |
| InitCodes.RegisterIsHonestIff | src/proc_mgr.c:345-362 | the return code tells success from failure for all handler behaviours if and only if the chain has at most one init handler |
| Interleaving.StepKeepsSane | src/proc_mgr.c:284-529 | every step of every thread keeps the registry in its promised order |
| Transparency.StepKeepsCoherent | src/proc_mgr.c:168-194 | every step keeps each live cache record truthful about its handle's current chain, handle reuse after a clear in mid-pass included |
| Transparency.RunKeepsCoherent | src/proc_mgr.c:422-453 | the same over every interleaving |
| Transparency.CacheIsTransparent | src/proc_mgr.c:155-264 | if deciding again on the word a decision left repeats the verdict and changes nothing, every interleaving, with the effects of its chains computed from their handlers, ends in the same registry, world, looks, evaluations and executions as without the cache, of any depth on any clock |
| Transparency.FilterChainsAreTransparent | src/filter.c:107-153 | nodes decided by their filter chains alone always meet that condition |
| Transparency.TransparentIff | src/proc_mgr.c:168-194 | from an empty registry and an empty cache, on a clock that never reads zero, over all runs that register from a given family of nodes, the cache makes no difference if and only if every node of the family meets the condition under every handle |
| Transparency.SecondDecisionIff | src/proc_mgr.c:168-194 | an empty cache gives every second decision its uncached verdict (and world) if and only if the node's verdicts (and worlds) can be replayed |
| Transparency.CacheHidesMatchedHandler | src/proc_mgr.c:184-188 | a matched handler that looks at the payload, and vetoes one and accepts the other of two measurements with the same filter word, is bypassed by a hit |
| Transparency.CacheHidesSideEffects | src/proc_mgr.c:174-182 | with verdicts that depend on the filter word alone and a right cached answer, the call a hit saves can change which later record fires |
| Protocol.CacheFollowsProtocol | src/proc_mgr.c:168-194 | over any interleaving and whatever the handlers do, the cache goes through a run of look-up-then-insert, so the run properties above hold of it |
| Protocol.CacheBookkeeping | src/proc_mgr.c:170-193 | so the counters balance after every run, and on a positive clock the live count is the smaller of the depth and the insertions since the last clear |
| Protocol.KeysStayUnique | src/proc_mgr.c:170-193 | while the evaluate and matched handlers leave the filter word alone, no run caches a key twice |
| Protocol.UniqueIff | src/proc_mgr.c:192-192 | from an empty registry and an empty cache, on a clock that never reads zero, over all runs that register from a given family of nodes, keys stay unique if and only if the depth is 1 or every node of the family leaves the filter word alone |
| Protocol.DeeperHitsMore | src/cache.c:80-99 | over any interleaving, on increasing clocks and with silent nodes, a deeper cache hits at least as often, and the counters of matches count the hits in 32-bit arithmetic |
| Protocol.RewriterDuplicates | src/proc_mgr.c:192-192 | any handler that rewrote the word, consulted twice in the same world, leaves two live records with one key |
| Protocol.RewritingEvaluator | src/proc_mgr.c:192-192 | such a handler |
| Traversal.PassUnderInterference | src/proc_mgr.c:155-264 | with other threads registering, subscribing, enabling, disabling and writing memory, one pass looks once at every record registered at its start, at most once at later arrivals, in the promised order, evaluates every one of the former that stays enabled, and executes every node and subscriber under the handle and index that find it |
| Traversal.ArrivalIsReachedIff | src/proc_mgr.c:155-264 | a record registered in the middle of a pass is still looked at (and, if it stays enabled, evaluated) if and only if the successor fetched before it came has at least its priority |
| Chains.PassRunsWholeChains | src/proc_mgr.c:199-248 | under the same interference a finished pass has executed exactly, for each record it evaluated with a positive verdict and in that order, every node of the chain from first to last and then the subscribers found at that point |
| Traversal.StepKeepsPass | src/proc_mgr.c:155-264 | the invariant behind it: nothing not yet looked at lies before the prefetched successor |
| Traversal.PassTerminates | src/proc_mgr.c:155-264 | the dispatcher always has a step to take, each brings the end nearer, and no other thread takes it back |
| Traversal.PassIsBounded | src/proc_mgr.c:155-264 | however the others interfere, a pass takes at most one step for each record looked at, two and one for each node of its chain for each record evaluated, and one to finish |
| Traversal.RunIsAddressed | src/proc_mgr.c:202-239 | over any part of such a pass, whatever was executed is still found under its handle and index at the end |
| Clearing.ClearBreaksThePass | src/proc_mgr.c:430-447 | with a clear during the unlocked window, and room for two records, a pass can evaluate any handle twice, whatever was registered or cached before |
| Clearing.RepeatIff | src/proc_mgr.c:430-447 | a handle can be evaluated twice in one pass if and only if the registry has room for two records |
| Clearing.TwiceOnlyIfHandedOutAgain | src/proc_mgr.c:430-447 | a given pass evaluates a handle twice only if that handle was handed out again after a clear |
| Clearing.StrandedPassEnds | src/proc_mgr.c:441-447 | if nothing was registered in the slot of the fetched successor since the clear, the pass ends there |
| Solo.SoloPassIsSweep | src/proc_mgr.c:128-282 | left alone, every run of the dispatcher thread from the start of a pass to its end performs the reference pass: same cache, world, order and executions |
| Solo.SoloPassExists | src/proc_mgr.c:128-282 | and there is such a run |
| Pool.Charge | src/sample_pool.c:42-44 | a charge is a multiple of 8, more than the block and at most 8 more |
| Pool.AllocChanges | src/sample_pool.c:54-98 | field by field, what a granted and a refused allocation change |
| Pool.FreeChanges | src/sample_pool.c:30-52 | field by field, what a release changes |
| Pool.SamplePool.Alloc | src/sample_pool.c:54-98 | the statistics and blocks after an allocation or a refusal |
| Pool.SamplePool.Free | src/sample_pool.c:30-52 | the statistics and blocks after a release, charged by the header's length |
| Pool.AllocKeepsBalance | src/sample_pool.c:77-80 | allocation keeps the current count equal to the live blocks' charges and to the difference of the totals |
| Pool.FreeKeepsBalanceIff | src/sample_pool.c:42-46 | release keeps that if and only if the header's length is charged like the size asked for |
| Pool.SameStep | src/sample_pool.c:42-44 | lengths are charged alike exactly when they fall in the same 8-byte step |
| Lifecycle.RunKeepsBalance | src/sample_pool.c:42-80 | the counts balance after every run whose blocks are so charged when freed, by the dispatcher or by their owner |
| Lifecycle.RunIsBilled | src/sample_pool.c:20-26 | over every run each of the four unsigned counters, by itself, goes up by what was charged at allocation, what was charged at release, and how often each was called |
| Lifecycle.Lifecycle | src/proc_mgr.c:115-126 | measurements are processed in submission order and the passes, over whatever registry they find, free exactly the submissions so flagged, once; at any time a block is in use if and only if its history says it was never submitted, or last submitted to be kept, and not freed by its owner since, or it still waits to be freed; drained, the blocks in use are the set of the first two |
| Lifecycle.StageIsHistory | src/proc_mgr.c:395-420 | where each block stands is what the actions since its allocation say, in both directions |
| Lifecycle.NothingKept | src/proc_mgr.c:271-278 | with the allocator's flag left alone, the blocks in use after draining are exactly those allocated and neither submitted nor freed by their owner since |
| Sizing.Base64Exact | src/measurement.c:165-170 | the float division and ceiling give the padded length of section 4 of RFC 4648 exactly |
| Sizing.Base45Suffices | src/measurement.c:171-178 | the float product and ceiling are at least the length of section 4 of RFC 9285 and at most 1.67 a byte rounded up |
| Sizing.SizeRange | src/measurement.c:130-187 | the result is -1, or between 1 and 2^21 |
| Sizing.SizeSuffices | src/measurement.c:130-187 | the size is enough for the encoded payload, exact for BASE64 and no encoding |
| Sizing.SizeIsLeastIff | include/step/measurement/measurement.h:411-419 | the size is the least that will do if and only if the encoding is not BASE45 or the raw payload is one byte |
| Sizing.SizeMonotone | src/measurement.c:130-187 | more samples, longer vectors or wider values never need less room |
| Sizing.ComputePow2 | src/measurement.c:35-44 | the loop computes the power of two |
| Sizing.RawLengthIsLayout | src/measurement.c:136-163 | the raw length is that of a payload laid out sample by sample, component by component, each as wide as its C type, after the timestamp |
| Sizing.CtypeSizeIsWidth | src/measurement.c:87-128 | every fixed-size C type is as wide as its name says |
| Sizing.TimestampSizeIsWidth | src/measurement.c:55-75 | so is every timestamp |
| Sizing.UntoldIff | src/measurement.c:136-154 | the size is -1 if and only if the sample count is arbitrary or the type has no fixed size |
| Sizing.SizePayload | src/measurement.c:130-187 | the code's steps compute the size, each within 32 bits |
| Sizing.Validate | src/measurement.c:189-209 | a buffer is accepted exactly when it holds the size computed; then it holds the encoded payload, and without BASE45 it is refused only when it does not |
| Sizing.RefusesEnoughIff | src/measurement.c:199-203 | some buffer that would do is refused if and only if the encoding is BASE45, the raw payload is not one byte, and a buffer of 16-bit length could hold it |
| Svm.Set | samples/foc_controller/src/foc_svm.c:53-136 | the six sector branches give the centred duties of the limited vector |
| Svm.Modulate | samples/foc_controller/src/foc_svm.c:72-135 | in every sector the duty differences are the line-to-line voltages and the extremes are symmetric about one half |
| Svm.CentredIsUnique | samples/foc_controller/src/foc_svm.c:72-135 | only one triple of duties has those properties |
| Svm.CentringIsOptimal | samples/foc_controller/src/foc_svm.c:72-135 | if any common shift keeps the duties within 0 and 1, the computed one does |
| Svm.LimitKeepsDirection | samples/foc_controller/src/foc_svm.c:58-63 | limiting scales both components by one positive gain, to at most sqrt(3)/2 |
| Svm.VoltageBound | samples/foc_controller/src/foc_svm.c:65-70 | no line-to-line voltage exceeds the vector's magnitude |
| Svm.SaturationIsIdentity | samples/foc_controller/src/foc_driver.c:181-200 | every duty stays inside the stated band, so the driver's saturation never acts |
| Svm.NegationMirrors | samples/foc_controller/src/foc_svm.c:53-136 | reversing the vector mirrors each duty about one half |

## Left out

- Transparency.CacheIsTransparent: says nothing of the return code, which a hit does not reproduce.
- Traversal.PassUnderInterference: excludes clearing during the pass, which breaks it (`Clearing.ClearBreaksThePass`) wherever there is room for two records (`Clearing.RepeatIff`).
- Sizing.Base45Suffices: is an inequality, because 1.67 a byte allocates more than the encoding needs (`Base45IsLeastIff`).
- Svm.Set: works on exact reals with a symbol for the square root of 3; the float rounding of `SQRT_3` and of each step is not modelled.
- Interleaving.Step: runs the three handlers of a node in one step and calls a record's subscribers in one step, so other threads act between nodes, and a subscription during the calls is seen before or after all of them; one pass runs at a time, as on the single work queue thread.
- Pool.SamplePool.Alloc: does not model the addresses handed out, the bytes cleared, or the mutex, which the code leaves locked when it refuses.
- ProcMgr.ProcMgr.Subscribe: does not model the callback pool's blocks, which a clear drops without returning.
- Lifecycle.Lifecycle: takes a waiting measurement as neither submitted again nor freed by its owner, and the queue as a FIFO of one thread.
- Full IEEE 754: rounding is any function with the formats' relative error on their normal range and exact on small integers.
- The work queue's start-up, instrumentation timers, printing, listing, logging and the shell are input and output only.
- `k_heap`, `k_mutex`, `k_work` and `sys_slist` are not part of this model beyond their ordinary behaviour.
- The `removals` statistic is never changed by the code.
- The samples other than the modulation, and all drivers, belong to hardware and foreign libraries.
