/** The events the elasticsearch plugin's four queues carry, tagged by category, and
    per-category views of sequences of them. The pipeline keeps two logs of events, the
    order they were enqueued in and the order they were processed in; the lemmas here are
    what relates the two category by category. */
module Events {
  import opened ChainTypes

  /** The four queues, named after the order a drain cycle processes them in. */
  datatype Category = TransactionTraces | TransactionMetadatas | BlockStates | IrreversibleBlockStates

  datatype Event =
    | TraceEvent(trace: TransactionTrace)
    | MetadataEvent(metadata: TransactionMetadata)
    | BlockEvent(block: BlockState)
    | IrreversibleEvent(block: BlockState)
  {
    function CategoryOf(): Category {
      match this
      case TraceEvent(_) => TransactionTraces
      case MetadataEvent(_) => TransactionMetadatas
      case BlockEvent(_) => BlockStates
      case IrreversibleEvent(_) => IrreversibleBlockStates
    }
  }

  function TraceEventOf(t: TransactionTrace): Event { TraceEvent(t) }
  function MetadataEventOf(m: TransactionMetadata): Event { MetadataEvent(m) }
  function BlockEventOf(b: BlockState): Event { BlockEvent(b) }
  function IrreversibleEventOf(b: BlockState): Event { IrreversibleEvent(b) }

  /** The contents of one typed queue as events. */
  function Wrap<T>(xs: seq<T>, f: T -> Event): (r: seq<Event>)
    ensures |r| == |xs|
  {
    seq(|xs|, i requires 0 <= i < |xs| => f(xs[i]))
  }

  lemma WrapAppend<T>(a: seq<T>, b: seq<T>, f: T -> Event)
    ensures Wrap(a + b, f) == Wrap(a, f) + Wrap(b, f)
  {
    assert forall i :: 0 <= i < |a + b| ==> Wrap(a + b, f)[i] == (Wrap(a, f) + Wrap(b, f))[i];
  }

  /** The subsequence of the events of category `c`, in their original order. */
  function Select(es: seq<Event>, c: Category): (r: seq<Event>)
    ensures |r| <= |es|
    decreases |es|
  {
    if es == [] then []
    else (if es[0].CategoryOf() == c then [es[0]] else []) + Select(es[1..], c)
  }

  /** Selecting from a sequence with a given first event. */
  lemma SelectCons(e: Event, es: seq<Event>, c: Category)
    ensures Select([e] + es, c) == (if e.CategoryOf() == c then [e] else []) + Select(es, c)
  {
    assert ([e] + es)[1..] == es;
  }

  /** Selecting distributes over concatenation: per category, order is kept. */
  lemma {:induction false} SelectAppend(a: seq<Event>, b: seq<Event>, c: Category)
    ensures Select(a + b, c) == Select(a, c) + Select(b, c)
    decreases |a|
  {
    if a != [] {
      assert a + b == [a[0]] + (a[1..] + b);
      SelectCons(a[0], a[1..] + b, c);
      SelectCons(a[0], a[1..], c);
      assert a == [a[0]] + a[1..];
      SelectAppend(a[1..], b, c);
    } else {
      assert a + b == b;
    }
  }

  /** A sequence whose events all have category `d` selects to itself for `d` and to
      nothing for every other category. */
  lemma {:induction false} SelectUniform(es: seq<Event>, d: Category, c: Category)
    requires forall i :: 0 <= i < |es| ==> es[i].CategoryOf() == d
    ensures Select(es, c) == if c == d then es else []
    decreases |es|
  {
    if es != [] {
      SelectUniform(es[1..], d, c);
      assert es == [es[0]] + es[1..];
    }
  }

  /** The events one drain cycle processes, in processing order: the captured transaction
      traces, then transaction metadata, then accepted blocks, then irreversible blocks. */
  function CycleLog(traces: seq<TransactionTrace>, metadata: seq<TransactionMetadata>,
                    blocks: seq<BlockState>, irreversible: seq<BlockState>): seq<Event>
  {
    Wrap(traces, TraceEventOf) + Wrap(metadata, MetadataEventOf)
      + Wrap(blocks, BlockEventOf) + Wrap(irreversible, IrreversibleEventOf)
  }

  /** Selecting from a cycle log selects from each captured queue in turn. */
  lemma CycleLogSelectParts(t: seq<Event>, m: seq<Event>, b: seq<Event>, i: seq<Event>, c: Category)
    ensures Select(t + m + b + i, c) == Select(t, c) + Select(m, c) + Select(b, c) + Select(i, c)
  {
    SelectAppend(t + m + b, i, c);
    SelectAppend(t + m, b, c);
    SelectAppend(t, m, c);
  }

  /** One typed queue wrapped as events of category `d`. */
  lemma SelectWrapped<T>(xs: seq<T>, f: T -> Event, d: Category, c: Category)
    requires forall x :: f(x).CategoryOf() == d
    ensures Select(Wrap(xs, f), c) == if c == d then Wrap(xs, f) else []
  {
    var w := Wrap(xs, f);
    assert forall k :: 0 <= k < |w| ==> w[k] == f(xs[k]);
    SelectUniform(w, d, c);
  }

  /** Selecting one category from a cycle log keeps exactly that category's captured queue. */
  lemma CycleLogSelect(traces: seq<TransactionTrace>, metadata: seq<TransactionMetadata>,
                       blocks: seq<BlockState>, irreversible: seq<BlockState>, c: Category)
    ensures Select(CycleLog(traces, metadata, blocks, irreversible), c)
         == (match c
             case TransactionTraces => Wrap(traces, TraceEventOf)
             case TransactionMetadatas => Wrap(metadata, MetadataEventOf)
             case BlockStates => Wrap(blocks, BlockEventOf)
             case IrreversibleBlockStates => Wrap(irreversible, IrreversibleEventOf))
  {
    var t, m, b, i := Wrap(traces, TraceEventOf), Wrap(metadata, MetadataEventOf),
                      Wrap(blocks, BlockEventOf), Wrap(irreversible, IrreversibleEventOf);
    CycleLogSelectParts(t, m, b, i, c);
    SelectWrapped(traces, TraceEventOf, TransactionTraces, c);
    SelectWrapped(metadata, MetadataEventOf, TransactionMetadatas, c);
    SelectWrapped(blocks, BlockEventOf, BlockStates, c);
    SelectWrapped(irreversible, IrreversibleEventOf, IrreversibleBlockStates, c);
  }

  /** Within one cycle, every captured event is processed exactly once and the events of
      each category keep their queue order. */
  lemma CycleLogByCategory(traces: seq<TransactionTrace>, metadata: seq<TransactionMetadata>,
                           blocks: seq<BlockState>, irreversible: seq<BlockState>)
    ensures |CycleLog(traces, metadata, blocks, irreversible)| == |traces| + |metadata| + |blocks| + |irreversible|
    ensures Select(CycleLog(traces, metadata, blocks, irreversible), TransactionTraces) == Wrap(traces, TraceEventOf)
    ensures Select(CycleLog(traces, metadata, blocks, irreversible), TransactionMetadatas) == Wrap(metadata, MetadataEventOf)
    ensures Select(CycleLog(traces, metadata, blocks, irreversible), BlockStates) == Wrap(blocks, BlockEventOf)
    ensures Select(CycleLog(traces, metadata, blocks, irreversible), IrreversibleBlockStates) == Wrap(irreversible, IrreversibleEventOf)
  {
    CycleLogSelect(traces, metadata, blocks, irreversible, TransactionTraces);
    CycleLogSelect(traces, metadata, blocks, irreversible, TransactionMetadatas);
    CycleLogSelect(traces, metadata, blocks, irreversible, BlockStates);
    CycleLogSelect(traces, metadata, blocks, irreversible, IrreversibleBlockStates);
  }
}
