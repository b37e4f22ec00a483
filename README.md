# Elasticsearch ingestion pipeline and blacklist configuration, modelled in Dafny

This project models two plugins of an EOSIO node and proves properties of the model.

**The elasticsearch plugin's ingestion pipeline** (`elasticsearch_plugin_impl`):
- Four chain-event entry points append to four queues: accepted transactions, applied transaction traces, accepted blocks and irreversible blocks.
- Each entry point runs the adaptive `queue_sleep_time` throttle first.
- A single consumer, `consume_blocks`, repeatedly moves every queue into its private process buffer and drains the buffers in a fixed order: traces, metadata, accepted blocks, irreversible blocks.
- Accepted blocks pass a start-block gate. They then become a `block_states` document and a `blocks` document on the search backend. The actions in a `blocks` document are rendered through an LRU cache of ABI serializers (`get_abi_serializer`, `purge_abi_cache`, `search_abi_by_account`). The cache rewrites the system account's `setabi.abi` field from `bytes` to `abi_def`.

**The blacklist plugin's `plugin_initialize`**:
- It splits the `PUB=TYPE:DATA` signature-provider spec.
- It loads the key pair only for type `KEY`.
- It builds the string from the sorted `actor-blacklist` entries, and keeps the hash of that string.

Modules, one per file:
- `Wrappers`: `Option`.
- `ChainTypes`: names, block numbers and block states, plus the process clock as a `Clock` object.
- `SeqSearch`: `std::find_if` and `std::string::find`.
- `AbiPatch`: the `setabi` rewrite.
- `AbiCache`: the serializer cache, a class whose `entries` map is updated in place.
- `Throttle`: the sleep-time step and its long-run behaviour.
- `Events`: the four event categories and per-category views of event logs.
- `Ingestion`: the `Pipeline` class, whose eight deques are `seq` fields updated in place.
- `StringOrder`: `std::string` ordering and sorting.
- `Blacklist`: the blacklist plugin.

The pipeline carries ghost logs:
- per category, the entries enqueued and the entries handled;
- across categories, the order in which entries were handled;
- the documents the backend accepted.

`Accounted()` states that, per category, the handled entries, then the process buffer, then the queue, are exactly the enqueued entries. It also states that every handled accepted block made exactly one submission to the backend, in order and as the start-block gate at its turn allowed, and that the backend holds exactly the submitted documents it accepted. Every entry point, every drain loop and every drain cycle preserves it; the per-entry `Process*` handlers run inside a drain loop and do not state it themselves. From it, `Shutdown` proves that everything enqueued is handled exactly once and in order.

`Valid()` of the pipeline includes the agreement of the cache with the backend: every cached serializer is the one a direct lookup of its account on the backend yields (`AbiCache.Resolved`). So every `blocks` document renders each action exactly as that lookup says (`Ingestion.Rendered`). The backend's account search and the `set_abi` acceptance are fixed for the life of the pipeline, and this agreement depends on it; the plugin writes account documents only in `init()`.

External collaborators are parameters:
- The search backend is a datatype of functions: the status of each index request, and the response of each account search.
- The `variant`-to-`abi_def` conversion, `abi_serializer::set_abi` acceptance, the key decoders and `sha256` are function parameters.

Behaviour of the code worth noting:
- Transaction and irreversible-block documents are disabled in the code; their calls are commented out. The handlers therefore only record that the entry was handled.
- A cache miss purges before `set_abi`, which may throw. When the cache is full, a failed `set_abi` therefore leaves it one entry smaller, because the purge already ran. Below capacity the purge does nothing, so a failed `set_abi` leaves the cache unchanged. A capacity of 0 still admits the one entry inserted after the (empty) purge.
- The consumer exits after a cycle in which nothing was captured while shutdown was requested. A cycle always drains its buffers, so at that point every queue and every buffer is empty.
- A rejected `block_states` document throws out of the block handler. That block's `blocks` document is then never built or sent. Later blocks are still processed.

## Model

| member | source | states |
|---|---|---|
| Throttle.NextSleepTime | plugins/elasticsearch_plugin/elasticsearch_plugin.cpp:168-180 | an over-limit enqueue raises the sleep time, an under-limit one lowers it strictly, floored at 0; a non-negative sleep time stays non-negative |
| Throttle.Delay | plugins/elasticsearch_plugin/elasticsearch_plugin.cpp:169-176 | the producer sleeps only when over the limit, and then for the raised sleep time |
| Throttle.SleepTimeNeverNegative | plugins/elasticsearch_plugin/elasticsearch_plugin.cpp:172-179 | no sequence of enqueues drives the sleep time below zero |
| Throttle.SustainedOverload | plugins/elasticsearch_plugin/elasticsearch_plugin.cpp:169-172 | k over-limit enqueues raise the sleep time by exactly 10k |
| Throttle.Recovery | plugins/elasticsearch_plugin/elasticsearch_plugin.cpp:177-180 | k under-limit enqueues lower it by 10k, floored at 0, so the added delay returns to zero |
| Throttle.SleepTimeBound | plugins/elasticsearch_plugin/elasticsearch_plugin.cpp:169-180 | the sleep time never exceeds its start plus 10 per over-limit enqueue |
| Ingestion.Pipeline.AdjustSleepTime | plugins/elasticsearch_plugin/elasticsearch_plugin.cpp:166-180 | the throttle step on the shared sleep time, with the delay slept |
| Ingestion.Pipeline.AcceptedTransaction | plugins/elasticsearch_plugin/elasticsearch_plugin.cpp:186-196 | throttles on the metadata queue, appends at its tail, changes no other queue, keeps the pipeline accounted |
| Ingestion.Pipeline.AppliedTransaction | plugins/elasticsearch_plugin/elasticsearch_plugin.cpp:198-208 | the same for the trace queue |
| Ingestion.Pipeline.AppliedIrreversibleBlock | plugins/elasticsearch_plugin/elasticsearch_plugin.cpp:210-220 | the same for the irreversible-block queue |
| Ingestion.Pipeline.AcceptedBlock | plugins/elasticsearch_plugin/elasticsearch_plugin.cpp:222-232 | the same for the block-state queue |
| Ingestion.Pipeline.ProcessAcceptedTransaction | plugins/elasticsearch_plugin/elasticsearch_plugin.cpp:337-348 | handling metadata produces nothing; it is logged as handled |
| Ingestion.Pipeline.ProcessAppliedTransaction | plugins/elasticsearch_plugin/elasticsearch_plugin.cpp:350-362 | handling a trace produces nothing; it is logged as handled |
| Ingestion.Pipeline.ProcessIrreversibleBlock | plugins/elasticsearch_plugin/elasticsearch_plugin.cpp:364-376 | handling an irreversible block produces nothing; it is logged as handled |
| Ingestion.Pipeline.ProcessAcceptedBlock | plugins/elasticsearch_plugin/elasticsearch_plugin.cpp:378-395 | the gate opens at the first block at or past the start block and never closes; the block's submission is nothing while the gate is shut, and otherwise its `block_states` document followed by its `blocks` document exactly when the first was accepted; the backend gains exactly the accepted documents of that submission, and the per-block submissions stay accounted; a shut gate changes neither the cache nor the clock |
| Ingestion.Pipeline.SubmitBlock | plugins/elasticsearch_plugin/elasticsearch_plugin.cpp:385-387 | with the gate open, the block's documents as `ProcessAcceptedBlockDocuments` gives them; with it shut, no document and no change to the cache or the clock; the backend gains exactly the accepted ones |
| Ingestion.Pipeline.ProcessAcceptedBlockDocuments | plugins/elasticsearch_plugin/elasticsearch_plugin.cpp:397-434 | one clock reading stamps both documents; the `block_states` document comes first; the `blocks` document is built only when the first was accepted, and holds exactly the actions rendered through the backend's serializers; only accepted documents are logged; the cache keeps agreeing with the backend |
| Ingestion.Milliseconds | plugins/elasticsearch_plugin/elasticsearch_plugin.cpp:404-405 | the microsecond reading divided by 1000, rounded down |
| Ingestion.BlockStatesDocument | plugins/elasticsearch_plugin/elasticsearch_plugin.cpp:407-413 | the `block_states` document carries the block's id, flags and header state and the stamp; its block number is a 32-bit signed value, the block's own number whenever that fits |
| Ingestion.Render | plugins/elasticsearch_plugin/elasticsearch_plugin.cpp:327-334 | an action keeps its account and payload, and is decoded exactly when a direct lookup of its account yields a serializer, with that serializer |
| Ingestion.RenderedOneToOne | plugins/elasticsearch_plugin/elasticsearch_plugin.cpp:327-334 | the actions are rendered one to one and in order, each by `Render`: invalid accounts stay raw and only the system account gets the `abi_def` unpacker |
| Ingestion.Pipeline.ToVariantWithAbi | plugins/elasticsearch_plugin/elasticsearch_plugin.cpp:327-334 | with a cache that agrees with the backend, the view is exactly `Rendered` of the actions: one cache lookup per action, in order, each answering as a direct lookup; the cache stays valid and agreeing |
| Ingestion.GateOpenIff | plugins/elasticsearch_plugin/elasticsearch_plugin.cpp:380-384 | the gate over the handled blocks is open iff the start block is 0 or some handled block is at or past it |
| Ingestion.SubmissionsOfAt | plugins/elasticsearch_plugin/elasticsearch_plugin.cpp:502-508 | the submissions correspond one to one and in order to the handled blocks, each as the gate over the blocks up to its own allowed |
| Ingestion.SubmitConserves | plugins/elasticsearch_plugin/elasticsearch_plugin.cpp:502-508 | handling one more block extends the submissions by its own, and the backend's documents by the accepted documents of it |
| Ingestion.AcceptedOfSubmitted | plugins/elasticsearch_plugin/elasticsearch_plugin.cpp:419-432 | what the backend keeps of one block: nothing with the gate shut or the `block_states` document refused; otherwise that document, and the `blocks` document when it is accepted too |
| Ingestion.AcceptedAppend | plugins/elasticsearch_plugin/elasticsearch_plugin.cpp:502-508 | the documents accepted from two runs of submissions are those of the first and then those of the second |
| Ingestion.GateOpenSnoc | plugins/elasticsearch_plugin/elasticsearch_plugin.cpp:380-384 | one more block opens the gate iff it is at or past the start block or the gate was open |
| Ingestion.GateStaysOpen | plugins/elasticsearch_plugin/elasticsearch_plugin.cpp:380-386 | once open, the gate stays open whatever follows |
| Ingestion.GateStaysShut | plugins/elasticsearch_plugin/elasticsearch_plugin.cpp:380-386 | blocks below the start block leave a shut gate shut |
| Ingestion.StartBlockScenario | plugins/elasticsearch_plugin/elasticsearch_plugin.cpp:378-395 | with start block 100: block 99 gives no document, block 100 and then block 101 each give their `block_states` document |
| Ingestion.Pipeline.Capture | plugins/elasticsearch_plugin/elasticsearch_plugin.cpp:448-468 | every queue moves whole into its empty process buffer and is cleared; accounting is kept |
| Ingestion.Pipeline.DrainTraces | plugins/elasticsearch_plugin/elasticsearch_plugin.cpp:477-483 | the trace buffer is handled front to back, completely, in order |
| Ingestion.Pipeline.DrainMetadata | plugins/elasticsearch_plugin/elasticsearch_plugin.cpp:489-495 | the metadata buffer is handled front to back, completely, in order |
| Ingestion.Pipeline.DrainBlocks | plugins/elasticsearch_plugin/elasticsearch_plugin.cpp:502-508 | the block buffer is handled front to back, completely, in order, with the gate kept consistent; every block makes exactly one submission as the gate at its turn allows, a refused document does not stop later blocks, and the backend holds exactly the accepted documents of all submissions; the transaction side is untouched |
| Ingestion.Pipeline.DrainIrreversible | plugins/elasticsearch_plugin/elasticsearch_plugin.cpp:515-521 | the irreversible buffer is handled front to back, completely, in order |
| Ingestion.Pipeline.DrainTransactionBuffers | plugins/elasticsearch_plugin/elasticsearch_plugin.cpp:476-499 | traces, then metadata, each in full |
| Ingestion.Pipeline.DrainBlockBuffers | plugins/elasticsearch_plugin/elasticsearch_plugin.cpp:501-525 | accepted blocks, then irreversible blocks, each in full, with every queue and every document accounted |
| Ingestion.Pipeline.DrainBuffers | plugins/elasticsearch_plugin/elasticsearch_plugin.cpp:476-525 | the handled log grows by exactly the cycle log of the four buffers; all buffers end empty; every queue and every document stays accounted |
| Ingestion.Pipeline.RunCycle | plugins/elasticsearch_plugin/elasticsearch_plugin.cpp:448-525 | capture then drain: the handled log grows by the cycle log of the captured queues; queues and buffers end empty; accounting is kept |
| Ingestion.Pipeline.DrainCycle | plugins/elasticsearch_plugin/elasticsearch_plugin.cpp:438-534 | waits iff every queue is empty and shutdown is not requested, and then leaves the queues, the logs, the cache and the clock as they were; otherwise runs a cycle, and exits iff shutdown was requested and nothing was captured |
| Ingestion.Pipeline.FinalCycle | plugins/elasticsearch_plugin/elasticsearch_plugin.cpp:438-534 | once shutdown was requested and every queue is empty, a pass captures and handles nothing and exits |
| Ingestion.Pipeline.ConsumeUntilExit | plugins/elasticsearch_plugin/elasticsearch_plugin.cpp:438-534 | after shutdown was requested, passes run until the consumer exits; the handled log grows by exactly the cycle log of the queues, and every queue and buffer ends empty |
| Ingestion.Pipeline.Shutdown | plugins/elasticsearch_plugin/elasticsearch_plugin.cpp:150-163 | after requesting shutdown the consumer terminates; every entry enqueued in each category has been handled exactly once and in enqueue order; every enqueued block made its one submission as the gate allowed, and the backend holds exactly the submitted documents it accepted |
| Ingestion.CycleLogJoin | plugins/elasticsearch_plugin/elasticsearch_plugin.cpp:476-525 | draining the transaction buffers and then the block buffers appends one cycle log |
| Ingestion.Pipeline.constructor | plugins/elasticsearch_plugin/elasticsearch_plugin.cpp:80-104 | the defaults of the plugin's members, with the given limits: empty queues, buffers and logs, sleep time 0, shutdown not requested, an empty cache of the given size reading a fresh clock; the gate starts open iff the start block is 0, the rule `plugin_initialize` applies at lines 599-601 of the same file |
| Ingestion.PluginInitialize | plugins/elasticsearch_plugin/elasticsearch_plugin.cpp:590-601 | queue limit 1024, cache size 2048, start block 0, hence the gate open from the start, no delay, no shutdown requested |
| Events.CycleLogByCategory | plugins/elasticsearch_plugin/elasticsearch_plugin.cpp:476-525 | within a cycle every captured entry is handled once, and the entries of each category appear in their queue order |
| Events.CycleLogSelect | plugins/elasticsearch_plugin/elasticsearch_plugin.cpp:476-525 | selecting a category from a cycle log gives exactly that category's captured queue |
| Events.SelectAppend | plugins/elasticsearch_plugin/elasticsearch_plugin.cpp:476-525 | a per-category view of two logs processed one after the other is the two views in turn |
| ChainTypes.ToInt32 | plugins/elasticsearch_plugin/elasticsearch_plugin.cpp:408 | the `int32_t` cast of a block number is congruent to it modulo 2^32, within range, and the identity below 2^31 |
| ChainTypes.Clock.Now | plugins/elasticsearch_plugin/elasticsearch_plugin.cpp:404-405 | each reading returns the current time and moves the clock on |
| ChainTypes.Good | plugins/elasticsearch_plugin/elasticsearch_plugin.cpp:262 | every name except the empty one is valid, the system account among them |
| AbiCache.IsTwoXX | plugins/elasticsearch_plugin/elasticsearch_helper.cpp:14-17 | exactly the status codes of the 2xx class |
| AbiCache.SearchAbiByAccount | plugins/elasticsearch_plugin/elasticsearch_plugin.cpp:245-259 | an ABI is found iff the search is 2xx, parses, has `hits.total` of 1, and its first hit has an `abi`, which is what is returned |
| AbiCache.FetchAbi | plugins/elasticsearch_plugin/elasticsearch_plugin.cpp:274-282 | an ABI is obtained only from a successful search that found exactly one document with an ABI, and it is that ABI converted; a failed search obtains nothing |
| AbiCache.Resolved | plugins/elasticsearch_plugin/elasticsearch_plugin.cpp:261-325 | the serializer a direct lookup yields: none for an invalid name; only an ABI `set_abi` accepts; the `abi_def` unpacker only for the system account |
| AbiCache.PurgedAgrees | plugins/elasticsearch_plugin/elasticsearch_plugin.cpp:234-243 | purging keeps a cache that agrees with the backend agreeing |
| AbiCache.UpdateAgrees | plugins/elasticsearch_plugin/elasticsearch_plugin.cpp:265-319 | setting an entry to the serializer the backend yields for its account keeps the cache agreeing |
| AbiCache.AbiSerializerCache.constructor | plugins/elasticsearch_plugin/elasticsearch_plugin.cpp:109-122 | the cache starts empty, with the given capacity and clock |
| AbiCache.AbiSerializerCache.Purge | plugins/elasticsearch_plugin/elasticsearch_plugin.cpp:234-243 | no-op below capacity; otherwise exactly one least recently accessed entry is erased |
| AbiCache.AbiSerializerCache.Get | plugins/elasticsearch_plugin/elasticsearch_plugin.cpp:261-325 | invalid name: nothing; hit: the cached serializer, with only its timestamp refreshed; miss: as `FetchAndInsert`; the cache stays within bound; a cache that agrees with the backend keeps agreeing and answers exactly `Resolved` |
| AbiCache.AbiSerializerCache.FetchAndInsert | plugins/elasticsearch_plugin/elasticsearch_plugin.cpp:273-321 | failed fetch or conversion: nothing, cache untouched; otherwise purge, then insert the patched serializer unless `set_abi` throws; agreement with the backend is kept and the answer is `Resolved` |
| AbiCache.LeastRecentExists | plugins/elasticsearch_plugin/elasticsearch_plugin.cpp:237-242 | every non-empty cache has a first entry in the by-access index |
| AbiCache.PurgeThenInsertWithinBound | plugins/elasticsearch_plugin/elasticsearch_plugin.cpp:284-319 | purging before inserting keeps the cache within its capacity and loses at most one entry |
| AbiCache.InsertBelowCapacity | plugins/elasticsearch_plugin/elasticsearch_plugin.cpp:235 | below capacity a miss only adds the new entry |
| AbiCache.InsertEvicting | plugins/elasticsearch_plugin/elasticsearch_plugin.cpp:237-242 | at capacity a miss replaces the unique least recently accessed entry and keeps every other |
| AbiCache.LookUpBoth | plugins/elasticsearch_plugin/elasticsearch_plugin.cpp:261-325 | two new accounts looked up in an empty cache of capacity 2 are both inserted, stamped in lookup order |
| AbiCache.LookUpTwice | plugins/elasticsearch_plugin/elasticsearch_plugin.cpp:261-272 | looking up A, B and A again leaves B least recently accessed |
| AbiCache.LookUpThird | plugins/elasticsearch_plugin/elasticsearch_plugin.cpp:234-325 | with `b` least recently accessed in a full cache of capacity 2, a new account `c` evicts `b` and keeps `a` |
| AbiCache.LruScenario | plugins/elasticsearch_plugin/elasticsearch_plugin.cpp:234-325 | capacity 2: accessing A, B, A, then C evicts B and keeps A and C |
| AbiPatch.PatchSetabi | plugins/elasticsearch_plugin/elasticsearch_plugin.cpp:289-316 | the unpacker is registered iff the account is the system account and the first `setabi` struct's first `abi` field has type `bytes`; then exactly that field becomes `abi_def`, otherwise the ABI is unchanged |
| AbiPatch.PatchSetabiIdempotent | plugins/elasticsearch_plugin/elasticsearch_plugin.cpp:289-316 | patching a patched ABI changes nothing and registers nothing |
| SeqSearch.FindIf | plugins/elasticsearch_plugin/elasticsearch_plugin.cpp:292-296 | the index of the first element satisfying the predicate, or none when no element does |
| SeqSearch.Find | plugins/blacklist_plugin/blacklist_plugin.cpp:62 | the first occurrence of a character, or none iff it does not occur |
| Blacklist.SplitKeySpec | plugins/blacklist_plugin/blacklist_plugin.cpp:61-70 | a split spec is PUB + "=" + TYPE + ":" + DATA with no "=" in PUB and no ":" in TYPE; a spec without "=" is rejected |
| Blacklist.SplitKeySpecComplete | plugins/blacklist_plugin/blacklist_plugin.cpp:62-70 | conversely, every such concatenation splits back into exactly its parts |
| Blacklist.SplitKeySpecMissingColon | plugins/blacklist_plugin/blacklist_plugin.cpp:67-68 | a spec with no ":" after its first "=" is rejected |
| Blacklist.DefaultSignatureProviderSplits | plugins/blacklist_plugin/blacklist_plugin.cpp:29 | the default spec is a `KEY` spec for `HEARTBEAT_PUB_KEY` |
| Blacklist.LoadedKeys | plugins/blacklist_plugin/blacklist_plugin.cpp:61-86 | a key pair is loaded iff the spec splits, its type is `KEY` and both keys decode; rejected specs are swallowed |
| Blacklist.KeySpecLoads | plugins/blacklist_plugin/blacklist_plugin.cpp:75-78 | a well-formed `KEY` spec loads exactly the decoded private and public keys |
| Blacklist.OtherKeyTypesLoadNothing | plugins/blacklist_plugin/blacklist_plugin.cpp:79-82 | `KEOSD` and every other type load nothing |
| Blacklist.Entry | plugins/blacklist_plugin/blacklist_plugin.cpp:49-53 | one line: `actor-blacklist=`, the name, a newline; a newline-free name makes exactly one line |
| Blacklist.Accumulate | plugins/blacklist_plugin/blacklist_plugin.cpp:54 | the concatenation onto "" holds one line per newline-free name and ends with a newline unless the list is empty |
| Blacklist.ActorBlacklistString | plugins/blacklist_plugin/blacklist_plugin.cpp:47-54 | the string of the sorted list is empty iff the list is, and holds one line per newline-free actor |
| Blacklist.SortKeepsNoNewline | plugins/blacklist_plugin/blacklist_plugin.cpp:48 | sorting keeps newline-free names newline-free |
| Blacklist.AccumulateCons | plugins/blacklist_plugin/blacklist_plugin.cpp:49-54 | the accumulated string is the first entry followed by the rest |
| Blacklist.ActorBlacklistStringPermutationInvariant | plugins/blacklist_plugin/blacklist_plugin.cpp:47-54 | the string, and so its hash, is the same for every order of the option's values |
| Blacklist.ActorBlacklistStringOfSorted | plugins/blacklist_plugin/blacklist_plugin.cpp:47-54 | for a sorted list the string is its `actor-blacklist=<name>\n` lines in order |
| Blacklist.AccumulateInjective | plugins/blacklist_plugin/blacklist_plugin.cpp:49-54 | with newline-free names the accumulated string determines the list |
| Blacklist.ActorBlacklistStringDeterminesEntries | plugins/blacklist_plugin/blacklist_plugin.cpp:47-54 | with newline-free names, two lists give the same string iff they hold the same names equally often |
| Blacklist.BlacklistPlugin.constructor | plugins/blacklist_plugin/blacklist_plugin.cpp:13-16 | empty producer name (0), keys not loaded, hash "" |
| Blacklist.BlacklistPlugin.PluginInitialize | plugins/blacklist_plugin/blacklist_plugin.cpp:38-90 | a first `producer-name` value that is not a valid account name fails the call before any field is set; otherwise `producer_name` is that value converted; the hash is that of the sorted-entry string; the keys change only when a spec loads a pair; an absent option leaves its field as it was |
| StringOrder.LessEq | plugins/blacklist_plugin/blacklist_plugin.cpp:48 | `std::string` `operator<=`: character by character, a proper prefix first; every prefix of a string sorts at or before it |
| StringOrder.LessEqTotal | plugins/blacklist_plugin/blacklist_plugin.cpp:48 | `std::string` ordering is total |
| StringOrder.LessEqTransitive | plugins/blacklist_plugin/blacklist_plugin.cpp:48 | and transitive |
| StringOrder.LessEqAntisymmetric | plugins/blacklist_plugin/blacklist_plugin.cpp:48 | and antisymmetric |
| StringOrder.Insert | plugins/blacklist_plugin/blacklist_plugin.cpp:48 | inserting into a sorted list keeps it sorted and adds exactly the one entry |
| StringOrder.Sort | plugins/blacklist_plugin/blacklist_plugin.cpp:48 | the result is sorted and a permutation of the input |
| StringOrder.SortedUnique | plugins/blacklist_plugin/blacklist_plugin.cpp:48 | two sorted permutations of the same entries are equal |
| StringOrder.SortPermutationInvariant | plugins/blacklist_plugin/blacklist_plugin.cpp:48 | sorting depends only on the multiset of entries |
| StringOrder.SortOfSorted | plugins/blacklist_plugin/blacklist_plugin.cpp:48 | sorting a sorted list leaves it unchanged |

## Left out

- Threads, the mutex and the condition variable: each entry point and each consumer cycle is one atomic step. Waiting is the `Waiting` outcome of a cycle. Notifications and the thread join are not modelled.
- The producer's sleep: `Delay` returns how long it would sleep.
- Throttle.NextSleepTime: does not model the 32-bit overflow of `queue_sleep_time`. It needs over-limit enqueues to outnumber under-limit ones by about 2^31 / 10, some 2 × 10^8.
- Logging: `ilog`/`wlog`/`elog`, the `queue size` warning past 1000 ms, the timing and per-item statistics of each drain loop, and the `std::cout` of each `block_states` document.
- JSON: each document is a datatype rather than text. The block header state is kept as an opaque string. The search response is given already parsed. The query text of the account search is not modelled.
- Ingestion.Pipeline.ToVariantWithAbi: `abi_serializer::to_variant` is modelled as one cache lookup per action, in order. Its real traversal, its time limit (`abi_serializer_max_time`) and its exceptions are not modelled.
- The transaction and irreversible-block documents: their functions are commented out in the source, so the handlers produce nothing.
- `init()` (index creation and the seeded accounts document), `delete_index`, `set_program_options`, `plugin_startup`, `plugin_shutdown`, the signal connections, the chain id and the backend URL: these are configuration and I/O outside the pipeline.
- Exceptions thrown while handling metadata, traces or irreversible blocks: their handlers are empty, so there is nothing left to throw.
- Clock ties and steps: `fc::time_point::now()` is a microsecond wall clock whose readings can repeat and can step backwards. The model's clock is a counter that moves forward on every reading, so the cache never holds two entries with equal `last_accessed` and the eviction order in the source under such ties or steps is not modelled.
- Name conversions: the account search is a function of the name, so `name::to_string` is not modelled. The conversion of the `producer-name` string to an `account_name` (`name::set`, in the chain library, which is not part of this model) is the parameter `toName`, `None` where it throws.
- `sha256` and the key constructors: these are function parameters. A key string that fails to decode is `None`.
- `std::sort` in place: the sorted vector is the pure `Sort` of the option's values, so the in-place rearrangement is not captured. Characters compare by code point, which for byte strings is the `unsigned char` order of `std::string`.
- AbiCache.SearchAbiByAccount: returns `None` for a 2xx response whose `hits.total` is 1 but whose `hits` array is empty. The source then takes `hits[0]` of an empty array. The model reads `fc::variant`'s array index as the unchecked `std::vector` index (the fc library is not part of this model), so the source leaves this case undefined.
- Blacklist.BlacklistPlugin.PluginInitialize: requires a present `producer-name` option to hold at least one value, since `ops[0]` of an empty vector is undefined. The exception `FC_LOG_AND_RETHROW` passes on is the `false` result; its log line is not modelled.
- `check_blacklist` only logs. `check_hash` and `submit_hash` are declared in plugins/blacklist_plugin/include/eosio/blacklist_plugin/blacklist_plugin.hpp but have no definition, so they are not part of this model.
