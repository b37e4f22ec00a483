/** The ingestion pipeline of the elasticsearch plugin (`elasticsearch_plugin_impl`): four
    producer entry points append chain events to four queues under an adaptive throttle,
    and one consumer repeatedly moves every queue into its private process buffer and
    drains the buffers in a fixed category order. Accepted blocks pass a start-block gate
    and become a `block_states` document and a `blocks` document on the search backend.

    The mutex, the condition variable and the consumer thread are abstracted away: each
    entry point and each drain cycle is one atomic step on a `Pipeline` object. Two ghost
    logs record the events in the order they were enqueued and in the order they were
    processed; a third records the documents the backend accepted. */
module Ingestion {
  import opened Wrappers
  import opened ChainTypes
  import opened AbiPatch
  import opened AbiCache
  import opened Events
  import Throttle

  /** The limits `plugin_initialize` sets. */
  const MaxQueueSize: nat := 1024
  const AbiCacheSize: nat := 2048
  const StartBlockNum: BlockNum := 0

  /** The document types the block handler indexes into. */
  const BlockStatesType: string := "block_states"
  const BlocksType: string := "blocks"

  /** One action of a block as `to_variant_with_abi` renders it: decoded with the serializer
      the cache returned for its account, or left raw when there is none. */
  datatype ActionView =
    | Decoded(account: Name, serializer: Patched, data: seq<bv8>)
    | Raw(account: Name, data: seq<bv8>)

  datatype DocBody =
    | BlockStateBody(blockNum: int, blockId: string, validated: bool, inCurrentChain: bool,
                     blockHeaderState: string, createAt: nat)
    | BlockBody(blockNum: int, blockId: string, irreversible: bool, block: seq<ActionView>, createAt: nat)

  /** A JSON document and the type it is indexed under. */
  datatype Document = Document(docType: string, body: DocBody)

  /** The search backend as the pipeline sees it: the status code the index request of each
      document gets, and what ABI lookups find. */
  datatype Backend = Backend(indexStatus: Document -> int, abiSource: AbiSource)

  /** `createAt`: the clock reading in microseconds, cast to milliseconds (rounded down). */
  function Milliseconds(micros: nat): (r: nat)
    ensures r * 1000 <= micros < (r + 1) * 1000
  {
    micros / 1000
  }

  /** The `block_states` document of a block: its identity, flags and header state, stamped
      `createAt`; the block number is stored as a 32-bit signed integer, so it is the
      block's number whenever that fits. */
  function BlockStatesDocument(bs: BlockState, createAt: nat): (d: Document)
    ensures d.docType == BlockStatesType && d.body.BlockStateBody?
    ensures d.body.blockId == bs.id && d.body.validated == bs.validated && d.body.inCurrentChain == bs.inCurrentChain
    ensures d.body.blockHeaderState == bs.header && d.body.createAt == createAt
    ensures -0x8000_0000 <= d.body.blockNum < 0x8000_0000
    ensures bs.blockNum < 0x8000_0000 ==> d.body.blockNum == bs.blockNum
  {
    Document(BlockStatesType,
             BlockStateBody(ToInt32(bs.blockNum), bs.id, bs.validated, bs.inCurrentChain, bs.header, createAt))
  }

  /** `view` renders `actions` one to one: same account, same payload; an action of an
      invalid account is never decoded, and only an action of the system account is
      decoded with the "abi_def" unpacker. */
  predicate RendersActions(view: seq<ActionView>, actions: seq<Action>) {
    && |view| == |actions|
    && forall i :: 0 <= i < |actions| ==>
         && view[i].account == actions[i].account
         && view[i].data == actions[i].data
         && (!Good(actions[i].account) ==> view[i].Raw?)
         && (view[i].Decoded? && view[i].serializer.abiDefUnpacker ==> actions[i].account == SystemAccount)
  }

  /** How `to_variant_with_abi` renders one action when the serializer resolver answers as
      a direct lookup: decoded with the account's serializer when there is one, raw otherwise. */
  function Render(a: Action, src: AbiSource): (v: ActionView)
    ensures v.account == a.account && v.data == a.data
    ensures v.Decoded? <==> Resolved(a.account, src).Some?
    ensures v.Decoded? ==> v.serializer == Resolved(a.account, src).value
  {
    match Resolved(a.account, src)
    case Some(s) => Decoded(a.account, s, a.data)
    case None => Raw(a.account, a.data)
  }

  /** The rendering of a block's actions, in order. */
  function Rendered(actions: seq<Action>, src: AbiSource): (view: seq<ActionView>)
    ensures |view| == |actions|
    decreases |actions|
  {
    if actions == [] then []
    else Rendered(actions[..|actions| - 1], src) + [Render(actions[|actions| - 1], src)]
  }

  /** `Rendered` renders the actions one to one: the `i`-th view is `Render` of the `i`-th
      action, so it keeps its account and payload, and it is decoded exactly when the
      account resolves. */
  lemma {:induction false} RenderedOneToOne(actions: seq<Action>, src: AbiSource)
    ensures RendersActions(Rendered(actions, src), actions)
    ensures forall i :: 0 <= i < |actions| ==> Rendered(actions, src)[i] == Render(actions[i], src)
    decreases |actions|
  {
    if actions != [] {
      var n := |actions| - 1;
      RenderedOneToOne(actions[..n], src);
      forall i | 0 <= i < |actions|
        ensures Rendered(actions, src)[i] == Render(actions[i], src)
      {
        if i < n {
          assert actions[..n][i] == actions[i];
        }
      }
    }
  }

  /** `d` is the `blocks` document of block `bs`, stamped `createAt`, with its actions
      rendered through the serializers `src` yields. */
  predicate IsBlocksDocument(d: Document, bs: BlockState, createAt: nat, src: AbiSource) {
    && d.docType == BlocksType
    && d.body.BlockBody?
    && d.body.blockNum == ToInt32(bs.blockNum)
    && d.body.blockId == bs.id
    && !d.body.irreversible
    && d.body.createAt == createAt
    && d.body.block == Rendered(bs.actions, src)
  }

  /** What the block handler submitted to the backend for one accepted block, with the
      stamp its documents carry. */
  datatype Submission = Submission(block: BlockState, createAt: nat, docs: seq<Document>)

  /** What the block handler submits for `s.block`: nothing while the gate is shut;
      otherwise the block's `block_states` document, followed by its `blocks` document
      exactly when the backend accepted the first. */
  ghost predicate WellSubmitted(s: Submission, open: bool, backend: Backend) {
    if !open then s.docs == []
    else
      && 1 <= |s.docs| <= 2
      && s.docs[0] == BlockStatesDocument(s.block, s.createAt)
      && (|s.docs| == 2 <==> IsTwoXX(backend.indexStatus(s.docs[0])))
      && (|s.docs| == 2 ==> IsBlocksDocument(s.docs[1], s.block, s.createAt, backend.abiSource))
  }

  /** `subs` holds one submission per block of `blocks`, in order, each as the gate over the
      blocks up to and including its own allowed. */
  ghost predicate SubmissionsOf(subs: seq<Submission>, blocks: seq<BlockState>, start: BlockNum, backend: Backend)
    decreases |blocks|
  {
    && |subs| == |blocks|
    && (blocks != [] ==>
          && SubmissionsOf(subs[..|subs| - 1], blocks[..|blocks| - 1], start, backend)
          && subs[|subs| - 1].block == blocks[|blocks| - 1]
          && WellSubmitted(subs[|subs| - 1], GateOpen(start, blocks), backend))
  }

  /** The `i`-th submission belongs to the `i`-th block and is what the gate over the
      first `i + 1` blocks allowed. */
  ghost predicate SubmittedAt(subs: seq<Submission>, blocks: seq<BlockState>, start: BlockNum, backend: Backend, i: nat)
    requires i < |subs| && i < |blocks|
  {
    subs[i].block == blocks[i] && WellSubmitted(subs[i], GateOpen(start, blocks[..i + 1]), backend)
  }

  /** Element by element: one submission per block, each as `SubmittedAt` says. */
  lemma {:induction false} SubmissionsOfAt(subs: seq<Submission>, blocks: seq<BlockState>, start: BlockNum, backend: Backend)
    ensures SubmissionsOf(subs, blocks, start, backend) <==>
              |subs| == |blocks| && forall i :: 0 <= i < |blocks| ==> SubmittedAt(subs, blocks, start, backend, i)
    decreases |blocks|
  {
    if |subs| == |blocks| && blocks != [] {
      var n := |blocks| - 1;
      var sp, bp := subs[..n], blocks[..n];
      SubmissionsOfAt(sp, bp, start, backend);
      assert blocks[..n + 1] == blocks;
      assert SubmittedAt(subs, blocks, start, backend, n)
         <==> subs[n].block == blocks[n] && WellSubmitted(subs[n], GateOpen(start, blocks), backend);
      forall i | 0 <= i < n
        ensures SubmittedAt(sp, bp, start, backend, i) == SubmittedAt(subs, blocks, start, backend, i)
      {
        assert bp[..i + 1] == blocks[..i + 1];
      }
    }
  }

  /** One more block and its submission extend the submissions of the blocks before. */
  lemma SubmissionsSnoc(subs: seq<Submission>, blocks: seq<BlockState>, start: BlockNum, backend: Backend,
                        s: Submission, b: BlockState)
    requires SubmissionsOf(subs, blocks, start, backend)
    requires s.block == b && WellSubmitted(s, GateOpen(start, blocks + [b]), backend)
    ensures SubmissionsOf(subs + [s], blocks + [b], start, backend)
  {
    assert (subs + [s])[..|subs|] == subs;
    assert (blocks + [b])[..|blocks|] == blocks;
  }

  /** What the backend keeps of one well-formed submission: nothing when the gate was
      closed or the `block_states` document was refused, else that document and the
      `blocks` document if it was accepted too. */
  lemma AcceptedOfSubmitted(s: Submission, open: bool, backend: Backend)
    requires WellSubmitted(s, open, backend)
    ensures !open ==> Accepted(s.docs, backend) == []
    ensures open && |s.docs| == 1 ==> Accepted(s.docs, backend) == []
    ensures open && |s.docs| == 2 ==>
              Accepted(s.docs, backend)
              == [s.docs[0]] + (if IsTwoXX(backend.indexStatus(s.docs[1])) then [s.docs[1]] else [])
  {
    if open && |s.docs| == 2 {
      assert s.docs[..1] == [s.docs[0]];
      assert [s.docs[0]][..0] == [];
    } else if open {
      assert s.docs[..0] == [];
    }
  }

  /** Handling one more block extends the submissions by its own, and the backend by the
      documents of it that were accepted. */
  lemma SubmitConserves(subs: seq<Submission>, blocks: seq<BlockState>, start: BlockNum, backend: Backend,
                        s: Submission, b: BlockState, before: seq<Document>, after: seq<Document>)
    requires SubmissionsOf(subs, blocks, start, backend) && before == Accepted(SubmittedDocs(subs), backend)
    requires s.block == b && WellSubmitted(s, GateOpen(start, blocks + [b]), backend)
    requires after == before + Accepted(s.docs, backend)
    ensures SubmissionsOf(subs + [s], blocks + [b], start, backend)
    ensures after == Accepted(SubmittedDocs(subs + [s]), backend)
  {
    SubmissionsSnoc(subs, blocks, start, backend, s, b);
    assert (subs + [s])[..|subs|] == subs;
    AcceptedAppend(SubmittedDocs(subs), s.docs, backend);
  }

  /** Every document of the submissions, in the order submitted. */
  function SubmittedDocs(subs: seq<Submission>): seq<Document>
    decreases |subs|
  {
    if subs == [] then [] else SubmittedDocs(subs[..|subs| - 1]) + subs[|subs| - 1].docs
  }

  /** The documents the backend accepts: those whose index request gets a 2xx status. */
  function Accepted(docs: seq<Document>, backend: Backend): (r: seq<Document>)
    ensures |r| <= |docs|
    decreases |docs|
  {
    if docs == [] then []
    else
      var last := docs[|docs| - 1];
      Accepted(docs[..|docs| - 1], backend) + (if IsTwoXX(backend.indexStatus(last)) then [last] else [])
  }

  lemma {:induction false} AcceptedAppend(a: seq<Document>, b: seq<Document>, backend: Backend)
    ensures Accepted(a + b, backend) == Accepted(a, backend) + Accepted(b, backend)
    decreases |b|
  {
    if b == [] {
      assert a + b == a;
    } else {
      assert (a + b)[..|a + b| - 1] == a + b[..|b| - 1];
      AcceptedAppend(a, b[..|b| - 1], backend);
    }
  }

  /** The gate condition over the accepted blocks processed so far, one block at a time:
      a start block of 0 opens it from the beginning, and each processed block numbered at
      least `start` opens it. */
  ghost predicate GateOpen(start: BlockNum, processed: seq<BlockState>)
    decreases |processed|
  {
    if processed == [] then start == 0
    else GateOpen(start, processed[..|processed| - 1]) || processed[|processed| - 1].blockNum >= start
  }

  /** The gate is open exactly when the start block is 0 or some processed block is
      numbered at least `start`. */
  lemma {:induction false} GateOpenIff(start: BlockNum, processed: seq<BlockState>)
    ensures GateOpen(start, processed) <==>
              start == 0 || exists i :: 0 <= i < |processed| && processed[i].blockNum >= start
    decreases |processed|
  {
    if processed != [] {
      var n := |processed| - 1;
      var prefix := processed[..n];
      GateOpenIff(start, prefix);
      if exists i :: 0 <= i < |prefix| && prefix[i].blockNum >= start {
        var i :| 0 <= i < |prefix| && prefix[i].blockNum >= start;
        assert processed[i] == prefix[i];
      }
      if exists i :: 0 <= i < |processed| && processed[i].blockNum >= start {
        var i :| 0 <= i < |processed| && processed[i].blockNum >= start;
        if i < n {
          assert prefix[i] == processed[i];
        }
      }
    }
  }

  /** Processing one more block opens the gate exactly when that block is at or past the
      start block, or when the gate was open already. */
  lemma GateOpenSnoc(start: BlockNum, processed: seq<BlockState>, b: BlockState)
    ensures GateOpen(start, processed + [b]) <==> GateOpen(start, processed) || b.blockNum >= start
  {
    assert (processed + [b])[..|processed|] == processed;
  }

  /** The gate is never reset: once open, it stays open whatever is processed next. */
  lemma {:induction false} GateStaysOpen(start: BlockNum, processed: seq<BlockState>, more: seq<BlockState>)
    requires GateOpen(start, processed)
    ensures GateOpen(start, processed + more)
    decreases |more|
  {
    if more != [] {
      GateOpenSnoc(start, processed, more[0]);
      GateStaysOpen(start, processed + [more[0]], more[1..]);
      assert processed + more == (processed + [more[0]]) + more[1..];
    } else {
      assert processed + more == processed;
    }
  }

  /** While blocks below the start block are processed, the gate stays shut. */
  lemma {:induction false} GateStaysShut(start: BlockNum, processed: seq<BlockState>, more: seq<BlockState>)
    requires !GateOpen(start, processed)
    requires forall i :: 0 <= i < |more| ==> more[i].blockNum < start
    ensures !GateOpen(start, processed + more)
    decreases |more|
  {
    if more != [] {
      GateOpenSnoc(start, processed, more[0]);
      GateStaysShut(start, processed + [more[0]], more[1..]);
      assert processed + more == (processed + [more[0]]) + more[1..];
    } else {
      assert processed + more == processed;
    }
  }

  /** Processing the first pending entry moves it from the pending entries to the processed
      log, so the two together stay the same. */
  lemma ProcessFront<T>(processed: seq<Event>, pending: seq<T>, f: T -> Event)
    requires pending != []
    ensures (processed + [f(pending[0])]) + Wrap(pending[1..], f) == processed + Wrap(pending, f)
  {
    assert pending == [pending[0]] + pending[1..];
    WrapAppend([pending[0]], pending[1..], f);
  }

  /** One category's entries are conserved: the handled ones, then the process buffer, then
      the queue, are exactly the enqueued ones. */
  ghost predicate Conserved<T>(handled: seq<T>, buffer: seq<T>, queue: seq<T>, enqueued: seq<T>) {
    handled + buffer + queue == enqueued
  }

  /** Enqueueing appends to the queue and to the enqueued entries alike. */
  lemma EnqueueConserves<T>(handled: seq<T>, buffer: seq<T>, queue: seq<T>, enqueued: seq<T>, x: T)
    requires Conserved(handled, buffer, queue, enqueued)
    ensures Conserved(handled, buffer, queue + [x], enqueued + [x])
  {
    assert handled + buffer + (queue + [x]) == (handled + buffer + queue) + [x];
  }

  /** Capturing moves the queue into the empty buffer. */
  lemma CaptureConserves<T>(handled: seq<T>, queue: seq<T>, enqueued: seq<T>)
    requires Conserved(handled, [], queue, enqueued)
    ensures Conserved(handled, queue, [], enqueued)
  {
    assert handled + [] + queue == handled + queue + [];
  }

  /** Handling the whole buffer, while the queue stays put, keeps the category conserved. */
  lemma DrainConserves<T>(handled: seq<T>, buffer: seq<T>, queue: seq<T>, enqueued: seq<T>)
    requires Conserved(handled, buffer, queue, enqueued)
    ensures Conserved(handled + buffer, [], queue, enqueued)
  {
    assert handled + buffer + [] == handled + buffer;
  }

  /** With nothing pending, the handled entries are exactly the enqueued ones. */
  lemma DrainedConserves<T>(handled: seq<T>, enqueued: seq<T>)
    requires Conserved(handled, [], [], enqueued)
    ensures handled == enqueued
  {
    assert handled + [] + [] == handled;
  }

  /** Draining the transaction buffers and then the block buffers appends one cycle log. */
  lemma CycleLogJoin(h0: seq<Event>, h1: seq<Event>, h2: seq<Event>,
                     traces: seq<TransactionTrace>, metadata: seq<TransactionMetadata>,
                     blocks: seq<BlockState>, irreversible: seq<BlockState>)
    requires h1 == h0 + Wrap(traces, TraceEventOf) + Wrap(metadata, MetadataEventOf)
    requires h2 == h1 + Wrap(blocks, BlockEventOf) + Wrap(irreversible, IrreversibleEventOf)
    ensures h2 == h0 + CycleLog(traces, metadata, blocks, irreversible)
  {
  }

  /** The outcome of one pass of the consumer loop. */
  datatype CycleOutcome =
    | Waiting   // every queue was empty and shutdown was not requested: the consumer waits
    | Continue  // something was captured and processed
    | Exit      // shutdown was requested and nothing was left to capture

  /** The eight deques, as one value, to state what an operation leaves unchanged. */
  datatype Deques = Deques(
    metadata: seq<TransactionMetadata>, metadataProcess: seq<TransactionMetadata>,
    traces: seq<TransactionTrace>, tracesProcess: seq<TransactionTrace>,
    blocks: seq<BlockState>, blocksProcess: seq<BlockState>,
    irreversible: seq<BlockState>, irreversibleProcess: seq<BlockState>)

  class Pipeline {
    var transactionMetadataQueue: seq<TransactionMetadata>
    var transactionMetadataProcessQueue: seq<TransactionMetadata>
    var transactionTraceQueue: seq<TransactionTrace>
    var transactionTraceProcessQueue: seq<TransactionTrace>
    var blockStateQueue: seq<BlockState>
    var blockStateProcessQueue: seq<BlockState>
    var irreversibleBlockStateQueue: seq<BlockState>
    var irreversibleBlockStateProcessQueue: seq<BlockState>

    /** `queue_sleep_time`, in milliseconds. */
    var queueSleepTime: int
    const maxQueueSize: nat
    /** Set when shutdown is requested. */
    var done: bool
    const startBlockNum: BlockNum
    var startBlockReached: bool

    const cache: AbiSerializerCache
    const clock: Clock
    const backend: Backend

    /** Per category, every entry the entry points appended, in order. */
    ghost var enqueuedTraces: seq<TransactionTrace>
    ghost var enqueuedMetadata: seq<TransactionMetadata>
    ghost var enqueuedBlocks: seq<BlockState>
    ghost var enqueuedIrreversible: seq<BlockState>
    /** Per category, every entry the process handlers handled, in order. */
    ghost var handledTraces: seq<TransactionTrace>
    ghost var handledMetadata: seq<TransactionMetadata>
    ghost var handledBlocks: seq<BlockState>
    ghost var handledIrreversible: seq<BlockState>
    /** Every handled entry across categories, in the order it was handled. */
    ghost var handled: seq<Event>
    /** Every document the backend accepted, in order. */
    ghost var indexed: seq<Document>
    /** Per handled block, in order, what its handler submitted to the backend. */
    ghost var submissions: seq<Submission>

    function Queues(): Deques
      reads this`transactionMetadataQueue, this`transactionMetadataProcessQueue,
            this`transactionTraceQueue, this`transactionTraceProcessQueue,
            this`blockStateQueue, this`blockStateProcessQueue,
            this`irreversibleBlockStateQueue, this`irreversibleBlockStateProcessQueue
    {
      Deques(transactionMetadataQueue, transactionMetadataProcessQueue,
             transactionTraceQueue, transactionTraceProcessQueue,
             blockStateQueue, blockStateProcessQueue,
             irreversibleBlockStateQueue, irreversibleBlockStateProcessQueue)
    }

    /** The cache and the clock are objects apart from the pipeline; the cache is valid,
        reads the pipeline's clock and holds for each account the serializer the backend
        yields for it; the sleep time is never negative, and the
        gate flag is exactly the gate condition over the handled blocks. */
    ghost predicate Valid()
      reads this`queueSleepTime, this`startBlockReached, this`handledBlocks, cache, clock
    {
      && this as object != cache && this as object != clock
      && cache.clock == clock
      && cache.Valid()
      && CacheAgrees()
      && queueSleepTime >= 0
      && (startBlockReached <==> GateOpen(startBlockNum, handledBlocks))
    }

    /** Every cached serializer is the one the backend yields for its account. */
    ghost predicate CacheAgrees()
      reads cache
    {
      Agrees(cache.entries, backend.abiSource)
    }

    /** Nothing is lost or reordered: per category, the handled entries followed by the
        process buffer and then the queue are exactly the enqueued entries; and the
        documents on the backend are exactly those the handled blocks submitted and the
        backend accepted. */
    ghost predicate Accounted()
      reads this`handledTraces, this`transactionTraceProcessQueue, this`transactionTraceQueue, this`enqueuedTraces,
            this`handledMetadata, this`transactionMetadataProcessQueue, this`transactionMetadataQueue, this`enqueuedMetadata,
            this`handledBlocks, this`blockStateProcessQueue, this`blockStateQueue, this`enqueuedBlocks,
            this`handledIrreversible, this`irreversibleBlockStateProcessQueue, this`irreversibleBlockStateQueue,
            this`enqueuedIrreversible, this`submissions, this`indexed
    {
      TracesAccounted() && MetadataAccounted() && BlocksAccounted() && IrreversibleAccounted()
      && DocumentsAccounted()
    }

    /** Every handled block made exactly one submission, in order, as the gate at its turn
        allowed, and the backend holds exactly the submitted documents it accepted. */
    ghost predicate DocumentsAccounted()
      reads this`submissions, this`handledBlocks, this`indexed
    {
      && SubmissionsOf(submissions, handledBlocks, startBlockNum, backend)
      && indexed == Accepted(SubmittedDocs(submissions), backend)
    }

    ghost predicate TracesAccounted()
      reads this`handledTraces, this`transactionTraceProcessQueue, this`transactionTraceQueue, this`enqueuedTraces
    {
      Conserved(handledTraces, transactionTraceProcessQueue, transactionTraceQueue, enqueuedTraces)
    }

    ghost predicate MetadataAccounted()
      reads this`handledMetadata, this`transactionMetadataProcessQueue, this`transactionMetadataQueue, this`enqueuedMetadata
    {
      Conserved(handledMetadata, transactionMetadataProcessQueue, transactionMetadataQueue, enqueuedMetadata)
    }

    ghost predicate BlocksAccounted()
      reads this`handledBlocks, this`blockStateProcessQueue, this`blockStateQueue, this`enqueuedBlocks
    {
      Conserved(handledBlocks, blockStateProcessQueue, blockStateQueue, enqueuedBlocks)
    }

    ghost predicate IrreversibleAccounted()
      reads this`handledIrreversible, this`irreversibleBlockStateProcessQueue, this`irreversibleBlockStateQueue,
            this`enqueuedIrreversible
    {
      Conserved(handledIrreversible, irreversibleBlockStateProcessQueue, irreversibleBlockStateQueue, enqueuedIrreversible)
    }

    /** Between drain cycles every process buffer is empty. */
    predicate Idle()
      reads this`transactionMetadataProcessQueue, this`transactionTraceProcessQueue,
            this`blockStateProcessQueue, this`irreversibleBlockStateProcessQueue
    {
      && transactionMetadataProcessQueue == [] && transactionTraceProcessQueue == []
      && blockStateProcessQueue == [] && irreversibleBlockStateProcessQueue == []
    }

    /** The consumer's wait condition, without `done`. */
    predicate AllQueuesEmpty()
      reads this`transactionMetadataQueue, this`transactionTraceQueue, this`blockStateQueue, this`irreversibleBlockStateQueue
    {
      && transactionMetadataQueue == [] && transactionTraceQueue == []
      && blockStateQueue == [] && irreversibleBlockStateQueue == []
    }

    /** Shutdown was requested and every queue and process buffer is empty, with the
        invariants kept. */
    ghost predicate Drained()
      reads this, cache, clock
    {
      Valid() && Accounted() && Idle() && AllQueuesEmpty() && done
    }

    /** The state `plugin_initialize` leaves, for the given limits; the gate starts open
        exactly when the start block is 0. */
    constructor (maxQueueSize: nat, abiCacheSize: nat, startBlockNum: BlockNum, backend: Backend)
      ensures Valid() && Accounted() && Idle() && AllQueuesEmpty()
      ensures this.maxQueueSize == maxQueueSize && this.startBlockNum == startBlockNum && this.backend == backend
      ensures cache.capacity == abiCacheSize && cache.entries == map[]
      ensures startBlockReached <==> startBlockNum == 0
      ensures queueSleepTime == 0 && !done
      ensures enqueuedTraces == [] && enqueuedMetadata == [] && enqueuedBlocks == [] && enqueuedIrreversible == []
      ensures handled == [] && indexed == [] && submissions == []
      ensures fresh(cache) && fresh(clock) && clock.time == 0
    {
      var c := new Clock();
      clock := c;
      cache := new AbiSerializerCache(abiCacheSize, c);
      this.maxQueueSize := maxQueueSize;
      this.startBlockNum := startBlockNum;
      this.backend := backend;
      transactionMetadataQueue, transactionMetadataProcessQueue := [], [];
      transactionTraceQueue, transactionTraceProcessQueue := [], [];
      blockStateQueue, blockStateProcessQueue := [], [];
      irreversibleBlockStateQueue, irreversibleBlockStateProcessQueue := [], [];
      queueSleepTime := 0;
      done := false;
      startBlockReached := startBlockNum == 0;
      enqueuedTraces, enqueuedMetadata, enqueuedBlocks, enqueuedIrreversible := [], [], [], [];
      handledTraces, handledMetadata, handledBlocks, handledIrreversible := [], [], [], [];
      handled, indexed, submissions := [], [], [];
    }

    /** The throttle step of `queue`, given the size of the target queue; returns the
        delay slept before the entry is appended. */
    method AdjustSleepTime(queueSize: nat) returns (delay: int)
      modifies this`queueSleepTime
      ensures queueSleepTime == Throttle.NextSleepTime(old(queueSleepTime), queueSize > maxQueueSize)
      ensures delay == Throttle.Delay(old(queueSleepTime), queueSize > maxQueueSize)
    {
      if queueSize > maxQueueSize {
        queueSleepTime := queueSleepTime + Throttle.Step;
        delay := queueSleepTime;
      } else {
        queueSleepTime := queueSleepTime - Throttle.Step;
        if queueSleepTime < 0 {
          queueSleepTime := 0;
        }
        delay := 0;
      }
    }

    /** `accepted_transaction`: throttle on the metadata queue, then append to it. */
    method AcceptedTransaction(t: TransactionMetadata) returns (delay: int)
      requires Valid() && Accounted()
      modifies this`transactionMetadataQueue, this`queueSleepTime, this`enqueuedMetadata
      ensures Valid() && Accounted()
      ensures Queues() == old(Queues()).(metadata := old(transactionMetadataQueue) + [t])
      ensures queueSleepTime == Throttle.NextSleepTime(old(queueSleepTime), |old(transactionMetadataQueue)| > maxQueueSize)
      ensures delay == Throttle.Delay(old(queueSleepTime), |old(transactionMetadataQueue)| > maxQueueSize)
      ensures enqueuedMetadata == old(enqueuedMetadata) + [t]
    {
      delay := AdjustSleepTime(|transactionMetadataQueue|);
      EnqueueConserves(handledMetadata, transactionMetadataProcessQueue, transactionMetadataQueue, enqueuedMetadata, t);
      transactionMetadataQueue := transactionMetadataQueue + [t];
      enqueuedMetadata := enqueuedMetadata + [t];
    }

    /** `applied_transaction`: throttle on the trace queue, then append to it. */
    method AppliedTransaction(t: TransactionTrace) returns (delay: int)
      requires Valid() && Accounted()
      modifies this`transactionTraceQueue, this`queueSleepTime, this`enqueuedTraces
      ensures Valid() && Accounted()
      ensures Queues() == old(Queues()).(traces := old(transactionTraceQueue) + [t])
      ensures queueSleepTime == Throttle.NextSleepTime(old(queueSleepTime), |old(transactionTraceQueue)| > maxQueueSize)
      ensures delay == Throttle.Delay(old(queueSleepTime), |old(transactionTraceQueue)| > maxQueueSize)
      ensures enqueuedTraces == old(enqueuedTraces) + [t]
    {
      delay := AdjustSleepTime(|transactionTraceQueue|);
      EnqueueConserves(handledTraces, transactionTraceProcessQueue, transactionTraceQueue, enqueuedTraces, t);
      transactionTraceQueue := transactionTraceQueue + [t];
      enqueuedTraces := enqueuedTraces + [t];
    }

    /** `accepted_block`: throttle on the block-state queue, then append to it. */
    method AcceptedBlock(bs: BlockState) returns (delay: int)
      requires Valid() && Accounted()
      modifies this`blockStateQueue, this`queueSleepTime, this`enqueuedBlocks
      ensures Valid() && Accounted()
      ensures Queues() == old(Queues()).(blocks := old(blockStateQueue) + [bs])
      ensures queueSleepTime == Throttle.NextSleepTime(old(queueSleepTime), |old(blockStateQueue)| > maxQueueSize)
      ensures delay == Throttle.Delay(old(queueSleepTime), |old(blockStateQueue)| > maxQueueSize)
      ensures enqueuedBlocks == old(enqueuedBlocks) + [bs]
    {
      delay := AdjustSleepTime(|blockStateQueue|);
      EnqueueConserves(handledBlocks, blockStateProcessQueue, blockStateQueue, enqueuedBlocks, bs);
      blockStateQueue := blockStateQueue + [bs];
      enqueuedBlocks := enqueuedBlocks + [bs];
    }

    /** `applied_irreversible_block`: throttle on the irreversible queue, then append to it. */
    method AppliedIrreversibleBlock(bs: BlockState) returns (delay: int)
      requires Valid() && Accounted()
      modifies this`irreversibleBlockStateQueue, this`queueSleepTime, this`enqueuedIrreversible
      ensures Valid() && Accounted()
      ensures Queues() == old(Queues()).(irreversible := old(irreversibleBlockStateQueue) + [bs])
      ensures queueSleepTime == Throttle.NextSleepTime(old(queueSleepTime), |old(irreversibleBlockStateQueue)| > maxQueueSize)
      ensures delay == Throttle.Delay(old(queueSleepTime), |old(irreversibleBlockStateQueue)| > maxQueueSize)
      ensures enqueuedIrreversible == old(enqueuedIrreversible) + [bs]
    {
      delay := AdjustSleepTime(|irreversibleBlockStateQueue|);
      EnqueueConserves(handledIrreversible, irreversibleBlockStateProcessQueue, irreversibleBlockStateQueue, enqueuedIrreversible, bs);
      irreversibleBlockStateQueue := irreversibleBlockStateQueue + [bs];
      enqueuedIrreversible := enqueuedIrreversible + [bs];
    }

    /** `process_applied_transaction`: its gated document call is disabled, so handling a
        trace produces nothing. */
    method ProcessAppliedTransaction(t: TransactionTrace)
      modifies this`handled, this`handledTraces
      ensures handled == old(handled) + [TraceEventOf(t)]
      ensures handledTraces == old(handledTraces) + [t]
    {
      handledTraces := handledTraces + [t];
      handled := handled + [TraceEventOf(t)];
    }

    /** `process_accepted_transaction`: its document call is disabled. */
    method ProcessAcceptedTransaction(t: TransactionMetadata)
      modifies this`handled, this`handledMetadata
      ensures handled == old(handled) + [MetadataEventOf(t)]
      ensures handledMetadata == old(handledMetadata) + [t]
    {
      handledMetadata := handledMetadata + [t];
      handled := handled + [MetadataEventOf(t)];
    }

    /** `process_irreversible_block`: its gated document call is disabled. */
    method ProcessIrreversibleBlock(bs: BlockState)
      modifies this`handled, this`handledIrreversible
      ensures handled == old(handled) + [IrreversibleEventOf(bs)]
      ensures handledIrreversible == old(handledIrreversible) + [bs]
    {
      handledIrreversible := handledIrreversible + [bs];
      handled := handled + [IrreversibleEventOf(bs)];
    }

    /** `to_variant_with_abi` over the actions of a block: each action's account is looked
        up in the ABI cache, in order. */
    method ToVariantWithAbi(actions: seq<Action>) returns (view: seq<ActionView>)
      requires cache.clock == clock && cache.Valid() && Agrees(cache.entries, backend.abiSource)
      modifies cache`entries, clock`time
      ensures cache.Valid() && Agrees(cache.entries, backend.abiSource)
      ensures view == Rendered(actions, backend.abiSource)
    {
      view := [];
      var k := 0;
      while k < |actions|
        invariant 0 <= k <= |actions|
        invariant cache.Valid() && Agrees(cache.entries, backend.abiSource)
        invariant view == Rendered(actions[..k], backend.abiSource)
      {
        var a := actions[k];
        var s := cache.Get(a.account, backend.abiSource);
        assert actions[..k + 1][..k] == actions[..k];
        view := view + [if s.Some? then Decoded(a.account, s.value, a.data) else Raw(a.account, a.data)];
        k := k + 1;
      }
      assert actions[..k] == actions;
    }

    /** `_process_accepted_block`: stamps both documents with one clock reading, indexes the
        `block_states` document, and only if the backend accepted it renders the block's
        actions and indexes the `blocks` document (a rejection throws out of the handler).
        Returns the documents submitted, in order. */
    method ProcessAcceptedBlockDocuments(bs: BlockState) returns (docs: seq<Document>)
      requires cache.clock == clock && cache.Valid() && Agrees(cache.entries, backend.abiSource)
      modifies this`indexed, cache`entries, clock`time
      ensures cache.Valid() && Agrees(cache.entries, backend.abiSource)
      ensures 1 <= |docs| <= 2
      ensures docs[0] == BlockStatesDocument(bs, Milliseconds(old(clock.time)))
      ensures |docs| == 2 <==> IsTwoXX(backend.indexStatus(docs[0]))
      ensures |docs| == 2 ==> IsBlocksDocument(docs[1], bs, Milliseconds(old(clock.time)), backend.abiSource)
      ensures |docs| == 1 ==> indexed == old(indexed) && cache.entries == old(cache.entries)
      ensures |docs| == 2 ==>
                indexed == old(indexed) + [docs[0]] + (if IsTwoXX(backend.indexStatus(docs[1])) then [docs[1]] else [])
      ensures WellSubmitted(Submission(bs, Milliseconds(old(clock.time)), docs), true, backend)
      ensures indexed == old(indexed) + Accepted(docs, backend)
    {
      var now := clock.Now();
      var createAt := Milliseconds(now);
      var stateDoc := BlockStatesDocument(bs, createAt);
      docs := [stateDoc];
      assert docs[..0] == [];
      if !IsTwoXX(backend.indexStatus(stateDoc)) {
        return;
      }
      indexed := indexed + [stateDoc];
      var view := ToVariantWithAbi(bs.actions);
      var blockDoc := Document(BlocksType, BlockBody(ToInt32(bs.blockNum), bs.id, false, view, createAt));
      docs := docs + [blockDoc];
      assert docs[..1] == [stateDoc];
      if IsTwoXX(backend.indexStatus(blockDoc)) {
        indexed := indexed + [blockDoc];
      }
    }

    /** The document half of `process_accepted_block`: when the gate is open, calls
        `_process_accepted_block`, and records what the block submitted. */
    method SubmitBlock(bs: BlockState, open: bool) returns (docs: seq<Document>)
      requires cache.clock == clock && cache.Valid() && Agrees(cache.entries, backend.abiSource)
      modifies this`indexed, this`submissions, cache`entries, clock`time
      ensures cache.Valid() && Agrees(cache.entries, backend.abiSource)
      ensures submissions == old(submissions) + [Submission(bs, Milliseconds(old(clock.time)), docs)]
      ensures WellSubmitted(Submission(bs, Milliseconds(old(clock.time)), docs), open, backend)
      ensures indexed == old(indexed) + Accepted(docs, backend)
      ensures !open ==> cache.entries == old(cache.entries) && clock.time == old(clock.time)
    {
      ghost var createAt := Milliseconds(clock.time);
      docs := [];
      if open {
        docs := ProcessAcceptedBlockDocuments(bs);
      }
      submissions := submissions + [Submission(bs, createAt, docs)];
    }

    /** `process_accepted_block`: opens the gate at the first block at or past the start
        block, and submits the block's documents exactly when the gate is open; the
        backend keeps those it accepts. */
    method ProcessAcceptedBlock(bs: BlockState) returns (docs: seq<Document>)
      requires Valid() && DocumentsAccounted()
      modifies this`handled, this`handledBlocks, this`startBlockReached, this`indexed, this`submissions, cache`entries, clock`time
      ensures Valid() && DocumentsAccounted()
      ensures handled == old(handled) + [BlockEventOf(bs)]
      ensures handledBlocks == old(handledBlocks) + [bs]
      ensures startBlockReached == (old(startBlockReached) || bs.blockNum >= startBlockNum)
      ensures submissions == old(submissions) + [Submission(bs, Milliseconds(old(clock.time)), docs)]
      ensures WellSubmitted(Submission(bs, Milliseconds(old(clock.time)), docs), startBlockReached, backend)
      ensures indexed == old(indexed) + Accepted(docs, backend)
      ensures !startBlockReached ==> cache.entries == old(cache.entries) && clock.time == old(clock.time)
    {
      if !startBlockReached {
        if bs.blockNum >= startBlockNum {
          startBlockReached := true;
        }
      }
      GateOpenSnoc(startBlockNum, handledBlocks, bs);
      ghost var b0 := handledBlocks;
      handledBlocks := handledBlocks + [bs];
      handled := handled + [BlockEventOf(bs)];
      docs := SubmitBlock(bs, startBlockReached);
      assert Valid();
      SubmitConserves(old(submissions), b0, startBlockNum, backend, Submission(bs, Milliseconds(old(clock.time)), docs), bs,
                      old(indexed), indexed);
    }

    /** The capture step of a cycle: every queue moves, in order, into its empty process
        buffer and is cleared. */
    method Capture()
      requires Accounted() && Idle()
      modifies this`transactionMetadataQueue, this`transactionMetadataProcessQueue,
               this`transactionTraceQueue, this`transactionTraceProcessQueue,
               this`blockStateQueue, this`blockStateProcessQueue,
               this`irreversibleBlockStateQueue, this`irreversibleBlockStateProcessQueue
      ensures Accounted() && AllQueuesEmpty()
      ensures transactionMetadataProcessQueue == old(transactionMetadataQueue)
      ensures transactionTraceProcessQueue == old(transactionTraceQueue)
      ensures blockStateProcessQueue == old(blockStateQueue)
      ensures irreversibleBlockStateProcessQueue == old(irreversibleBlockStateQueue)
    {
      CaptureConserves(handledTraces, transactionTraceQueue, enqueuedTraces);
      CaptureConserves(handledMetadata, transactionMetadataQueue, enqueuedMetadata);
      CaptureConserves(handledBlocks, blockStateQueue, enqueuedBlocks);
      CaptureConserves(handledIrreversible, irreversibleBlockStateQueue, enqueuedIrreversible);
      // the source skips the move when a queue is empty, which leaves the same state
      transactionMetadataProcessQueue, transactionMetadataQueue := transactionMetadataQueue, [];
      transactionTraceProcessQueue, transactionTraceQueue := transactionTraceQueue, [];
      blockStateProcessQueue, blockStateQueue := blockStateQueue, [];
      irreversibleBlockStateProcessQueue, irreversibleBlockStateQueue := irreversibleBlockStateQueue, [];
    }

    /** Drains the trace buffer front to back. */
    method DrainTraces()
      requires TracesAccounted()
      modifies this`handled, this`handledTraces, this`transactionTraceProcessQueue
      ensures TracesAccounted()
      ensures transactionTraceProcessQueue == []
      ensures handledTraces == old(handledTraces) + old(transactionTraceProcessQueue)
      ensures handled == old(handled) + Wrap(old(transactionTraceProcessQueue), TraceEventOf)
    {
      while transactionTraceProcessQueue != []
        invariant handledTraces + transactionTraceProcessQueue == old(handledTraces) + old(transactionTraceProcessQueue)
        invariant handled + Wrap(transactionTraceProcessQueue, TraceEventOf)
               == old(handled) + Wrap(old(transactionTraceProcessQueue), TraceEventOf)
        decreases |transactionTraceProcessQueue|
      {
        var t := transactionTraceProcessQueue[0];
        ProcessFront(handled, transactionTraceProcessQueue, TraceEventOf);
        assert (handledTraces + [t]) + transactionTraceProcessQueue[1..] == handledTraces + transactionTraceProcessQueue;
        ProcessAppliedTransaction(t);
        transactionTraceProcessQueue := transactionTraceProcessQueue[1..];
      }
      DrainConserves(old(handledTraces), old(transactionTraceProcessQueue), transactionTraceQueue, enqueuedTraces);
    }

    /** Drains the metadata buffer front to back. */
    method DrainMetadata()
      requires MetadataAccounted()
      modifies this`handled, this`handledMetadata, this`transactionMetadataProcessQueue
      ensures MetadataAccounted()
      ensures transactionMetadataProcessQueue == []
      ensures handledMetadata == old(handledMetadata) + old(transactionMetadataProcessQueue)
      ensures handled == old(handled) + Wrap(old(transactionMetadataProcessQueue), MetadataEventOf)
    {
      while transactionMetadataProcessQueue != []
        invariant handledMetadata + transactionMetadataProcessQueue
               == old(handledMetadata) + old(transactionMetadataProcessQueue)
        invariant handled + Wrap(transactionMetadataProcessQueue, MetadataEventOf)
               == old(handled) + Wrap(old(transactionMetadataProcessQueue), MetadataEventOf)
        decreases |transactionMetadataProcessQueue|
      {
        var t := transactionMetadataProcessQueue[0];
        ProcessFront(handled, transactionMetadataProcessQueue, MetadataEventOf);
        assert (handledMetadata + [t]) + transactionMetadataProcessQueue[1..]
            == handledMetadata + transactionMetadataProcessQueue;
        ProcessAcceptedTransaction(t);
        transactionMetadataProcessQueue := transactionMetadataProcessQueue[1..];
      }
      DrainConserves(old(handledMetadata), old(transactionMetadataProcessQueue), transactionMetadataQueue, enqueuedMetadata);
    }

    /** Drains the accepted-block buffer front to back: each block makes its submission as
        the gate allows, and the transaction side is left as it was. */
    method DrainBlocks()
      requires Valid() && BlocksAccounted() && DocumentsAccounted()
      modifies this`handled, this`handledBlocks, this`startBlockReached, this`indexed, this`submissions,
               this`blockStateProcessQueue, cache`entries, clock`time
      ensures BlocksAccounted() && DocumentsAccounted()
      ensures Valid()
      ensures old(submissions) <= submissions
      ensures blockStateProcessQueue == []
      ensures handledBlocks == old(handledBlocks) + old(blockStateProcessQueue)
      ensures handled == old(handled) + Wrap(old(blockStateProcessQueue), BlockEventOf)
      ensures unchanged(this`handledTraces, this`transactionTraceProcessQueue, this`transactionTraceQueue, this`enqueuedTraces,
                        this`handledMetadata, this`transactionMetadataProcessQueue, this`transactionMetadataQueue, this`enqueuedMetadata)
    {
      assert this as object != cache && this as object != clock;
      while blockStateProcessQueue != []
        invariant Valid()
        invariant handledBlocks + blockStateProcessQueue == old(handledBlocks) + old(blockStateProcessQueue)
        invariant handled + Wrap(blockStateProcessQueue, BlockEventOf)
               == old(handled) + Wrap(old(blockStateProcessQueue), BlockEventOf)
        invariant DocumentsAccounted()
        invariant old(submissions) <= submissions
        decreases |blockStateProcessQueue|
      {
        var bs := blockStateProcessQueue[0];
        ProcessFront(handled, blockStateProcessQueue, BlockEventOf);
        assert (handledBlocks + [bs]) + blockStateProcessQueue[1..] == handledBlocks + blockStateProcessQueue;
        var docs := ProcessAcceptedBlock(bs);
        blockStateProcessQueue := blockStateProcessQueue[1..];
      }
      DrainConserves(old(handledBlocks), old(blockStateProcessQueue), blockStateQueue, enqueuedBlocks);
    }

    /** Drains the irreversible-block buffer front to back, leaving the transaction side
        as it was. */
    method DrainIrreversible()
      requires IrreversibleAccounted()
      modifies this`handled, this`handledIrreversible, this`irreversibleBlockStateProcessQueue
      ensures IrreversibleAccounted()
      ensures irreversibleBlockStateProcessQueue == []
      ensures handledIrreversible == old(handledIrreversible) + old(irreversibleBlockStateProcessQueue)
      ensures handled == old(handled) + Wrap(old(irreversibleBlockStateProcessQueue), IrreversibleEventOf)
      ensures unchanged(this`handledTraces, this`transactionTraceProcessQueue, this`transactionTraceQueue, this`enqueuedTraces,
                        this`handledMetadata, this`transactionMetadataProcessQueue, this`transactionMetadataQueue, this`enqueuedMetadata)
    {
      while irreversibleBlockStateProcessQueue != []
        invariant handledIrreversible + irreversibleBlockStateProcessQueue
               == old(handledIrreversible) + old(irreversibleBlockStateProcessQueue)
        invariant handled + Wrap(irreversibleBlockStateProcessQueue, IrreversibleEventOf)
               == old(handled) + Wrap(old(irreversibleBlockStateProcessQueue), IrreversibleEventOf)
        decreases |irreversibleBlockStateProcessQueue|
      {
        var bs := irreversibleBlockStateProcessQueue[0];
        ProcessFront(handled, irreversibleBlockStateProcessQueue, IrreversibleEventOf);
        assert (handledIrreversible + [bs]) + irreversibleBlockStateProcessQueue[1..]
            == handledIrreversible + irreversibleBlockStateProcessQueue;
        ProcessIrreversibleBlock(bs);
        irreversibleBlockStateProcessQueue := irreversibleBlockStateProcessQueue[1..];
      }
      DrainConserves(old(handledIrreversible), old(irreversibleBlockStateProcessQueue), irreversibleBlockStateQueue, enqueuedIrreversible);
    }

    /** Processes the two transaction buffers in turn: traces, then metadata. */
    method DrainTransactionBuffers()
      requires Accounted()
      modifies this`transactionTraceProcessQueue, this`transactionMetadataProcessQueue,
               this`handled, this`handledTraces, this`handledMetadata
      ensures Accounted() && transactionTraceProcessQueue == [] && transactionMetadataProcessQueue == []
      ensures handled == old(handled) + Wrap(old(transactionTraceProcessQueue), TraceEventOf)
                                      + Wrap(old(transactionMetadataProcessQueue), MetadataEventOf)
    {
      DrainTraces();
      DrainMetadata();
    }

    /** Processes the two block buffers in turn: accepted blocks, then irreversible blocks. */
    method DrainBlockBuffers()
      requires Valid() && Accounted()
      modifies this`blockStateProcessQueue, this`irreversibleBlockStateProcessQueue,
               this`handled, this`handledBlocks, this`handledIrreversible,
               this`startBlockReached, this`indexed, this`submissions, cache`entries, clock`time
      ensures Valid() && Accounted() && blockStateProcessQueue == [] && irreversibleBlockStateProcessQueue == []
      ensures handled == old(handled) + Wrap(old(blockStateProcessQueue), BlockEventOf)
                                      + Wrap(old(irreversibleBlockStateProcessQueue), IrreversibleEventOf)
      ensures old(submissions) <= submissions
    {
      DrainBlocks();
      DrainIrreversible();
    }

    /** Processes the four buffers in turn: traces, metadata, accepted blocks, irreversible
        blocks, each front to back. */
    method DrainBuffers()
      requires Valid() && Accounted()
      modifies this`transactionMetadataProcessQueue, this`transactionTraceProcessQueue,
               this`blockStateProcessQueue, this`irreversibleBlockStateProcessQueue,
               this`handled, this`handledTraces, this`handledMetadata, this`handledBlocks, this`handledIrreversible,
               this`startBlockReached, this`indexed, this`submissions, cache`entries, clock`time
      ensures Valid() && Accounted() && Idle()
      ensures handled == old(handled) + CycleLog(old(transactionTraceProcessQueue), old(transactionMetadataProcessQueue),
                                                 old(blockStateProcessQueue), old(irreversibleBlockStateProcessQueue))
      ensures old(submissions) <= submissions
    {
      ghost var h0 := handled;
      DrainTransactionBuffers();
      ghost var h1 := handled;
      DrainBlockBuffers();
      CycleLogJoin(h0, h1, handled, old(transactionTraceProcessQueue), old(transactionMetadataProcessQueue),
                   old(blockStateProcessQueue), old(irreversibleBlockStateProcessQueue));
    }

    /** The body of one pass of the `consume_blocks` loop once it stops waiting: capture
        every queue, then drain the buffers. */
    method RunCycle()
      requires Valid() && Accounted() && Idle()
      modifies this`transactionMetadataQueue, this`transactionMetadataProcessQueue,
               this`transactionTraceQueue, this`transactionTraceProcessQueue,
               this`blockStateQueue, this`blockStateProcessQueue,
               this`irreversibleBlockStateQueue, this`irreversibleBlockStateProcessQueue,
               this`handled, this`handledTraces, this`handledMetadata, this`handledBlocks, this`handledIrreversible,
               this`startBlockReached, this`indexed, this`submissions, cache`entries, clock`time
      ensures Valid() && Accounted() && Idle() && AllQueuesEmpty()
      ensures handled == old(handled) + CycleLog(old(transactionTraceQueue), old(transactionMetadataQueue),
                                                 old(blockStateQueue), old(irreversibleBlockStateQueue))
      ensures old(submissions) <= submissions
    {
      Capture();
      DrainBuffers();
    }

    /** One pass of the `consume_blocks` loop. It waits while every queue is empty and
        shutdown is not requested; otherwise it runs a cycle, and then exits when shutdown
        was requested and nothing was captured. */
    method DrainCycle() returns (outcome: CycleOutcome)
      requires Valid() && Accounted() && Idle()
      modifies this`transactionMetadataQueue, this`transactionMetadataProcessQueue,
               this`transactionTraceQueue, this`transactionTraceProcessQueue,
               this`blockStateQueue, this`blockStateProcessQueue,
               this`irreversibleBlockStateQueue, this`irreversibleBlockStateProcessQueue,
               this`handled, this`handledTraces, this`handledMetadata, this`handledBlocks, this`handledIrreversible,
               this`startBlockReached, this`indexed, this`submissions, cache`entries, clock`time
      ensures Valid() && Accounted() && Idle()
      ensures old(submissions) <= submissions
      ensures old(AllQueuesEmpty()) && !done ==>
                && outcome == Waiting && Queues() == old(Queues()) && handled == old(handled)
                && indexed == old(indexed) && cache.entries == old(cache.entries) && clock.time == old(clock.time)
      ensures !(old(AllQueuesEmpty()) && !done) ==>
                && AllQueuesEmpty()
                && handled == old(handled) + CycleLog(old(transactionTraceQueue), old(transactionMetadataQueue),
                                                      old(blockStateQueue), old(irreversibleBlockStateQueue))
                && (outcome == Exit <==> old(AllQueuesEmpty()))
                && outcome != Waiting
    {
      if AllQueuesEmpty() && !done {
        return Waiting;
      }
      var nothingCaptured := AllQueuesEmpty();
      RunCycle();
      if nothingCaptured && done {
        return Exit;
      }
      return Continue;
    }

    /** A pass of `consume_blocks` after shutdown was requested and every queue drained:
        it captures nothing, handles nothing, and exits. */
    method FinalCycle() returns (outcome: CycleOutcome)
      requires Valid() && Accounted() && Idle() && AllQueuesEmpty() && done
      modifies this`transactionMetadataQueue, this`transactionMetadataProcessQueue,
               this`transactionTraceQueue, this`transactionTraceProcessQueue,
               this`blockStateQueue, this`blockStateProcessQueue,
               this`irreversibleBlockStateQueue, this`irreversibleBlockStateProcessQueue,
               this`handled, this`handledTraces, this`handledMetadata, this`handledBlocks, this`handledIrreversible,
               this`startBlockReached, this`indexed, this`submissions, cache`entries, clock`time
      ensures Drained()
      ensures outcome == Exit && handled == old(handled)
    {
      outcome := DrainCycle();
      assert CycleLog([], [], [], []) == [];
    }

    /** The passes of `consume_blocks` once shutdown is requested: cycles run until one
        captures nothing, and then the consumer exits. */
    method ConsumeUntilExit()
      requires Valid() && Accounted() && Idle() && done
      modifies this`transactionMetadataQueue, this`transactionMetadataProcessQueue,
               this`transactionTraceQueue, this`transactionTraceProcessQueue,
               this`blockStateQueue, this`blockStateProcessQueue,
               this`irreversibleBlockStateQueue, this`irreversibleBlockStateProcessQueue,
               this`handled, this`handledTraces, this`handledMetadata, this`handledBlocks, this`handledIrreversible,
               this`startBlockReached, this`indexed, this`submissions, cache`entries, clock`time
      ensures Valid() && Accounted() && Idle() && AllQueuesEmpty()
      ensures handled == old(handled) + CycleLog(old(transactionTraceQueue), old(transactionMetadataQueue),
                                                 old(blockStateQueue), old(irreversibleBlockStateQueue))
    {
      var outcome := DrainCycle();
      ghost var expected := handled;
      while outcome != Exit
        invariant Drained() && handled == expected
        decreases if outcome == Exit then 0 else 1
      {
        outcome := FinalCycle();
      }
    }

    /** Shutdown (`~elasticsearch_plugin_impl`): request it, then let the consumer run until
        it exits. Everything enqueued before is handled, in order within each category. */
    method Shutdown()
      requires Valid() && Accounted() && Idle()
      modifies this`done, this`transactionMetadataQueue, this`transactionMetadataProcessQueue,
               this`transactionTraceQueue, this`transactionTraceProcessQueue,
               this`blockStateQueue, this`blockStateProcessQueue,
               this`irreversibleBlockStateQueue, this`irreversibleBlockStateProcessQueue,
               this`handled, this`handledTraces, this`handledMetadata, this`handledBlocks, this`handledIrreversible,
               this`startBlockReached, this`indexed, this`submissions, cache`entries, clock`time
      ensures Valid() && Accounted() && Idle() && AllQueuesEmpty() && done
      ensures handled == old(handled) + CycleLog(old(transactionTraceQueue), old(transactionMetadataQueue),
                                                 old(blockStateQueue), old(irreversibleBlockStateQueue))
      ensures handledTraces == enqueuedTraces && handledMetadata == enqueuedMetadata
      ensures handledBlocks == enqueuedBlocks && handledIrreversible == enqueuedIrreversible
      ensures SubmissionsOf(submissions, enqueuedBlocks, startBlockNum, backend)
      ensures indexed == Accepted(SubmittedDocs(submissions), backend)
    {
      done := true;
      ConsumeUntilExit();
      DrainedConserves(handledTraces, enqueuedTraces);
      DrainedConserves(handledMetadata, enqueuedMetadata);
      DrainedConserves(handledBlocks, enqueuedBlocks);
      DrainedConserves(handledIrreversible, enqueuedIrreversible);
    }
  }

  /** `plugin_initialize`: a queue limit of 1024, a cache of 2048 serializers and start
      block 0, so the gate is open from the start. */
  method PluginInitialize(backend: Backend) returns (p: Pipeline)
    ensures fresh(p) && p.Valid() && p.Accounted() && p.Idle() && p.AllQueuesEmpty()
    ensures p.maxQueueSize == 1024 && p.cache.capacity == 2048 && p.startBlockNum == 0
    ensures p.startBlockReached && p.queueSleepTime == 0 && !p.done
  {
    p := new Pipeline(MaxQueueSize, AbiCacheSize, StartBlockNum, backend);
  }

  /** The start-block gate with start block 100: block 99 produces no document, block 100
      opens the gate and produces its `block_states` document stamped with the first clock
      reading, and block 101 still produces documents although the gate check is skipped. */
  method StartBlockScenario(backend: Backend, b99: BlockState, b100: BlockState, b101: BlockState)
    returns (d99: seq<Document>, d100: seq<Document>, d101: seq<Document>)
    requires b99.blockNum == 99 && b100.blockNum == 100 && b101.blockNum == 101
    ensures d99 == []
    ensures |d100| >= 1 && d100[0] == BlockStatesDocument(b100, 0)
    ensures |d101| >= 1 && d101[0].docType == BlockStatesType && d101[0].body.blockNum == 101
  {
    var p := new Pipeline(MaxQueueSize, AbiCacheSize, 100, backend);
    d99 := p.ProcessAcceptedBlock(b99);
    d100 := p.ProcessAcceptedBlock(b100);
    d101 := p.ProcessAcceptedBlock(b101);
  }
}
