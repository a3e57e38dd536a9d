/** Worker.helper_func and Worker.run: what a worker does with each
    task-queue entry it receives. */
module Workers {
  import opened Tasks

  /** The value one call of the worker's function gives for one chunk
      element, or None when the call raises because the element does not fit
      the call mode. With the order event set the function is helper_func,
      which takes an (index, args) element and returns (index, f(*args));
      with shared objects it is also handed the shared objects first, which
      helper_func has no parameter for. */
  function CallOn<A, R, S>(b: Binding<A, R, S>, order: bool, item: Item<A>): (r: Option<Out<R>>)
    ensures r.Some? <==> (item.Indexed? <==> order) && (order ==> b.shared.None?)
    ensures r.Some? && order ==> r.value == Pair(item.idx, b.f(None, item.args))
    ensures r.Some? && !order ==> r.value == Value(b.f(b.shared, item.args))
  {
    match item
    case Plain(a) => if order then None else Some(Value(b.f(b.shared, a)))
    case Indexed(i, a) => if order && b.shared.None? then Some(Pair(i, b.f(None, a))) else None
  }

  /** The list comprehension over a chunk: one result per element, in chunk
      order, or None as soon as one call raises. */
  function Outputs<A, R, S>(b: Binding<A, R, S>, order: bool, items: seq<Item<A>>): (r: Option<Batch<R>>)
    ensures r.Some? <==> forall i | 0 <= i < |items| :: CallOn(b, order, items[i]).Some?
    ensures r.Some? ==> |r.value| == |items|
    ensures r.Some? ==> forall i | 0 <= i < |items| :: r.value[i] == CallOn(b, order, items[i]).value
  {
    if |items| == 0 then Some([])
    else
      match CallOn(b, order, items[0])
      case None => None
      case Some(o) =>
        match Outputs(b, order, items[1..])
        case None => None
        case Some(rest) => Some([o] + rest)
  }

  /** What one chunk leaves on the result queue. */
  datatype ChunkResult<R> = Emit(batch: Batch<R>) | Silent | Crash

  /** One non-pill iteration of Worker.run: call the function on every
      element; put the batch unless shared objects are used without a return
      value; an exception ends the worker before anything is put. */
  function ProcessChunk<A, R, S>(b: Binding<A, R, S>, order: bool, items: seq<Item<A>>): (r: ChunkResult<R>)
    ensures b.shared.Some? && !b.hasReturn ==> !r.Emit?
  {
    match Outputs(b, order, items)
    case None => Crash
    case Some(batch) => if b.shared.Some? && !b.hasReturn then Silent else Emit(batch)
  }

  /** A chunk raises exactly when one of its elements does not fit the call
      mode; otherwise it emits one result per element, in chunk order, unless
      the mode keeps results back. */
  lemma ChunkOutcome<A, R, S>(b: Binding<A, R, S>, order: bool, items: seq<Item<A>>)
    ensures var r := ProcessChunk(b, order, items);
            && (r.Crash? <==> exists i | 0 <= i < |items| :: CallOn(b, order, items[i]).None?)
            && (r.Silent? <==> !r.Crash? && b.shared.Some? && !b.hasReturn)
            && (r.Emit? ==> |r.batch| == |items| &&
                            forall i | 0 <= i < |items| :: r.batch[i] == CallOn(b, order, items[i]).value)
  {
  }

  /** In ordered mode without shared objects, a chunk of indexed elements
      gives the batch of (index, f(*args)) pairs, indices unchanged. */
  lemma OrderedChunk<A, R, S>(b: Binding<A, R, S>, items: seq<Item<A>>)
    requires b.shared.None? && forall i | 0 <= i < |items| :: items[i].Indexed?
    ensures var r := ProcessChunk(b, true, items);
            r.Emit? && |r.batch| == |items| &&
            forall i | 0 <= i < |items| :: r.batch[i] == Pair(items[i].idx, b.f(None, items[i].args))
  {
    ChunkOutcome(b, true, items);
  }

  /** In plain mode, a chunk of plain elements gives the batch of
      f(*args) (or f(shared, *args)) values, unless shared objects are
      used without a return value. */
  lemma PlainChunk<A, R, S>(b: Binding<A, R, S>, items: seq<Item<A>>)
    requires b.shared.None? || b.hasReturn
    requires forall i | 0 <= i < |items| :: items[i].Plain?
    ensures var r := ProcessChunk(b, false, items);
            r.Emit? && |r.batch| == |items| &&
            forall i | 0 <= i < |items| :: r.batch[i] == Value(b.f(b.shared, items[i].args))
  {
    ChunkOutcome(b, false, items);
  }

  datatype WorkerState = Running | Exited | Crashed

  /** What one get-and-handle iteration of Worker.run did. */
  datatype StepOutcome = Blocked | Stopped | Processed | Raised

  /** The first n entries are chunks that do not raise. */
  ghost predicate Harmless<A, R, S>(b: Binding<A, R, S>, order: bool, entries: seq<Entry<A>>, n: int)
  {
    forall k | 0 <= k < n && k < |entries| :: entries[k].Chunk? && !ProcessChunk(b, order, entries[k].items).Crash?
  }

  /** Where Worker.run stops for a given task-queue content: the unread
      rest of the queue, the batches it put, and its state (Running when it
      is left blocked on an empty queue). */
  datatype RunEnd<A, R> = RunEnd(rest: seq<Entry<A>>, emitted: seq<Batch<R>>, state: WorkerState)

  /** Worker.run over a given task-queue content. */
  function RunFrom<A, R, S>(b: Binding<A, R, S>, order: bool, entries: seq<Entry<A>>): RunEnd<A, R>
    decreases |entries|
  {
    if |entries| == 0 then RunEnd([], [], Running)
    else
      match entries[0]
      case Pill => RunEnd(entries[1..], [], Exited)
      case Chunk(items) =>
        match ProcessChunk(b, order, items)
        case Crash => RunEnd(entries[1..], [], Crashed)
        case Silent => RunFrom(b, order, entries[1..])
        case Emit(batch) =>
          var e := RunFrom(b, order, entries[1..]);
          RunEnd(e.rest, [batch] + e.emitted, e.state)
  }

  /** How a run over entries can end: it read a prefix of the queue and
      left the rest, put at most one batch per entry read, and stopped at
      the first pill (Exited) or at the first chunk that raises (Crashed),
      or was left blocked (Running) after every entry was a chunk that does
      not raise. */
  ghost predicate Ends<A, R, S>(b: Binding<A, R, S>, order: bool, entries: seq<Entry<A>>, r: RunEnd<A, R>)
  {
    var c := |entries| - |r.rest|;
    && 0 <= c && r.rest == entries[c..]
    && |r.emitted| <= c
    && (r.state == Running ==> r.rest == [] && Harmless(b, order, entries, c))
    && (r.state == Exited ==> c > 0 && entries[c - 1] == Pill && Harmless(b, order, entries, c - 1))
    && (r.state == Crashed ==>
          c > 0 && entries[c - 1].Chunk? && ProcessChunk(b, order, entries[c - 1].items).Crash?
          && Harmless(b, order, entries, c - 1))
  }

  lemma {:induction false} RunEnds<A, R, S>(b: Binding<A, R, S>, order: bool, entries: seq<Entry<A>>)
    ensures Ends(b, order, entries, RunFrom(b, order, entries))
    decreases |entries|
  {
    if |entries| > 0 && entries[0].Chunk? && !ProcessChunk(b, order, entries[0].items).Crash? {
      var e := RunFrom(b, order, entries[1..]);
      RunEnds(b, order, entries[1..]);
      var r := RunFrom(b, order, entries);
      assert r.rest == e.rest && r.state == e.state && |r.emitted| <= |e.emitted| + 1;
      EndsCons(b, order, entries, e, r);
    }
  }

  /** A harmless chunk in front of a queue: the run over the whole queue
      ends as the run over the rest does, one entry further on. */
  lemma EndsCons<A, R, S>(b: Binding<A, R, S>, order: bool, entries: seq<Entry<A>>, e: RunEnd<A, R>, r: RunEnd<A, R>)
    requires |entries| > 0 && entries[0].Chunk? && !ProcessChunk(b, order, entries[0].items).Crash?
    requires Ends(b, order, entries[1..], e)
    requires r.rest == e.rest && r.state == e.state && |r.emitted| <= |e.emitted| + 1
    ensures Ends(b, order, entries, r)
  {
    var tail := entries[1..];
    var c := |tail| - |e.rest|;
    assert tail[c..] == entries[c + 1..];
    forall k | 0 <= k < c && k < |tail| ensures entries[k + 1] == tail[k] {
    }
  }

  /** The batches a run puts for a sequence of chunks that all emit. */
  function Batches<A, R, S>(b: Binding<A, R, S>, order: bool, chunks: seq<seq<Item<A>>>): (r: seq<Batch<R>>)
    requires forall k | 0 <= k < |chunks| :: ProcessChunk(b, order, chunks[k]).Emit?
    ensures |r| == |chunks|
    ensures forall k | 0 <= k < |chunks| :: r[k] == ProcessChunk(b, order, chunks[k]).batch
  {
    if |chunks| == 0 then [] else [ProcessChunk(b, order, chunks[0]).batch] + Batches(b, order, chunks[1..])
  }

  function WrapChunks<A>(chunks: seq<seq<Item<A>>>): (r: seq<Entry<A>>)
    ensures |r| == |chunks|
    ensures forall k | 0 <= k < |chunks| :: r[k] == Chunk(chunks[k])
  {
    if |chunks| == 0 then [] else [Chunk(chunks[0])] + WrapChunks(chunks[1..])
  }

  /** A run over chunks that all emit, followed by a pill, puts exactly one
      batch per chunk, in order, then exits on the pill and leaves the rest
      of the queue unread. */
  lemma {:induction false} RunChunksThenPill<A, R, S>(b: Binding<A, R, S>, order: bool, chunks: seq<seq<Item<A>>>, rest: seq<Entry<A>>)
    requires forall k | 0 <= k < |chunks| :: ProcessChunk(b, order, chunks[k]).Emit?
    ensures RunFrom(b, order, WrapChunks(chunks) + [Pill] + rest) == RunEnd(rest, Batches(b, order, chunks), Exited)
  {
    var entries := WrapChunks(chunks) + [Pill] + rest;
    if |chunks| == 0 {
      assert entries == [Pill] + rest;
      assert entries[1..] == rest;
    } else {
      assert entries[0] == Chunk(chunks[0]);
      assert entries[1..] == WrapChunks(chunks[1..]) + [Pill] + rest;
      RunChunksThenPill(b, order, chunks[1..], rest);
    }
  }

  /** With shared objects and no return value, a run puts nothing at all on
      the result queue, however many chunks it handles. */
  lemma {:induction false} RunWithoutReturnPutsNothing<A, R, S>(b: Binding<A, R, S>, order: bool, entries: seq<Entry<A>>)
    requires b.shared.Some? && !b.hasReturn
    ensures RunFrom(b, order, entries).emitted == []
    decreases |entries|
  {
    if |entries| > 0 && entries[0].Chunk? && ProcessChunk(b, order, entries[0].items).Silent? {
      RunWithoutReturnPutsNothing(b, order, entries[1..]);
    }
  }

  /** A run never reads past the first pill: the pill and everything before
      it are consumed, the entries after it stay queued. */
  lemma {:induction false} RunStopsAtPill<A, R, S>(b: Binding<A, R, S>, order: bool, before: seq<Entry<A>>, after: seq<Entry<A>>)
    requires forall k | 0 <= k < |before| :: before[k].Chunk? && !ProcessChunk(b, order, before[k].items).Crash?
    ensures RunFrom(b, order, before + [Pill] + after).rest == after
    ensures RunFrom(b, order, before + [Pill] + after).state == Exited
    decreases |before|
  {
    var entries := before + [Pill] + after;
    if |before| == 0 {
      assert entries == [Pill] + after;
      assert entries[1..] == after;
    } else {
      assert entries[1..] == before[1..] + [Pill] + after;
      RunStopsAtPill(b, order, before[1..], after);
    }
  }

  /** One read of the shared task queue by worker w of several: a worker
      that is still running takes the head entry, exits on a pill and
      crashes on a chunk that raises; a worker that is not running, or a
      read of an empty queue (the worker blocks), changes nothing. */
  function TakeNext<A, R, S>(b: Binding<A, R, S>, order: bool, entries: seq<Entry<A>>, states: seq<WorkerState>, w: nat)
    : (seq<Entry<A>>, seq<WorkerState>)
  {
    if w >= |states| || states[w] != Running || |entries| == 0 then (entries, states)
    else
      match entries[0]
      case Pill => (entries[1..], states[w := Exited])
      case Chunk(items) => (entries[1..], if ProcessChunk(b, order, items).Crash? then states[w := Crashed] else states)
  }

  /** The workers reading the shared task queue in the order sched gives:
      sched[t] is the worker that reads at step t. */
  function Interleave<A, R, S>(b: Binding<A, R, S>, order: bool, entries: seq<Entry<A>>, states: seq<WorkerState>, sched: seq<nat>)
    : (seq<Entry<A>>, seq<WorkerState>)
    decreases |sched|
  {
    if |sched| == 0 then (entries, states)
    else
      var t := TakeNext(b, order, entries, states, sched[0]);
      Interleave(b, order, t.0, t.1, sched[1..])
  }

  /** What holds of the queue and the workers at every step when the queue
      started as all: what is left is a suffix of it, no chunk in it
      raises, no worker crashed, and there are exactly as many pills left
      as workers still running. */
  ghost predicate PillsMatch<A, R, S>(b: Binding<A, R, S>, order: bool, all: seq<Entry<A>>, entries: seq<Entry<A>>, states: seq<WorkerState>)
  {
    && |entries| <= |all| && entries == all[|all| - |entries|..]
    && (forall k | 0 <= k < |entries| :: entries[k].Chunk? ==> !ProcessChunk(b, order, entries[k].items).Crash?)
    && (forall w | 0 <= w < |states| :: states[w] != Crashed)
    && multiset(entries)[Pill] == multiset(states)[Running]
  }

  lemma TakeKeeps<A, R, S>(b: Binding<A, R, S>, order: bool, all: seq<Entry<A>>, entries: seq<Entry<A>>, states: seq<WorkerState>, w: nat)
    requires PillsMatch(b, order, all, entries, states)
    ensures var t := TakeNext(b, order, entries, states, w);
            PillsMatch(b, order, all, t.0, t.1) && |t.1| == |states|
  {
    if w < |states| && states[w] == Running && |entries| > 0 {
      assert entries == [entries[0]] + entries[1..];
      assert multiset(entries) == multiset{entries[0]} + multiset(entries[1..]);
      assert entries[1..] == all[|all| - |entries[1..]|..];
      assert forall k | 0 <= k < |entries| - 1 :: entries[1..][k] == entries[k + 1];
    }
  }

  lemma {:induction false} InterleaveKeeps<A, R, S>(b: Binding<A, R, S>, order: bool, all: seq<Entry<A>>,
                                                    entries: seq<Entry<A>>, states: seq<WorkerState>, sched: seq<nat>)
    requires PillsMatch(b, order, all, entries, states)
    ensures var t := Interleave(b, order, entries, states, sched);
            PillsMatch(b, order, all, t.0, t.1) && |t.1| == |states|
    decreases |sched|
  {
    if |sched| > 0 {
      var t := TakeNext(b, order, entries, states, sched[0]);
      TakeKeeps(b, order, all, entries, states, sched[0]);
      InterleaveKeeps(b, order, all, t.0, t.1, sched[1..]);
    }
  }

  lemma {:induction false} CopiesCount<T>(n: nat, x: T)
    ensures multiset(Copies(n, x))[x] == n
  {
    if n > 0 {
      assert Copies(n, x) == Copies(n - 1, x) + [x];
      CopiesCount(n - 1, x);
    }
  }

  /** insert_poison_pill puts one pill per worker after the chunks. Whatever
      order the workers read the shared queue in, as long as no chunk raises:
      no worker crashes, every worker still running has a pill waiting for
      it (so it never blocks for good), and the queue is empty exactly when
      every worker has exited -- no pill is left over and none is missing. */
  lemma OnePillPerWorker<A, R, S>(b: Binding<A, R, S>, order: bool, chunks: seq<seq<Item<A>>>, n: nat, sched: seq<nat>)
    requires n > 0
    requires forall k | 0 <= k < |chunks| :: !ProcessChunk(b, order, chunks[k]).Crash?
    ensures var t := Interleave(b, order, WrapChunks(chunks) + Copies(n, Pill), Copies(n, Running), sched);
            && |t.1| == n
            && (forall w | 0 <= w < n :: t.1[w] != Crashed)
            && (forall w | 0 <= w < n && t.1[w] == Running :: Pill in t.0)
            && (t.0 == [] <==> t.1 == Copies(n, Exited))
  {
    var all := WrapChunks(chunks) + Copies(n, Pill);
    StartMatches(b, order, chunks, n);
    InterleaveKeeps(b, order, all, all, Copies(n, Running), sched);
    var t := Interleave(b, order, all, Copies(n, Running), sched);
    PillsLeft(b, order, all, t.0, t.1, n);
  }

  /** The queue insert_poison_pill leaves and the workers just started. */
  lemma StartMatches<A, R, S>(b: Binding<A, R, S>, order: bool, chunks: seq<seq<Item<A>>>, n: nat)
    requires forall k | 0 <= k < |chunks| :: !ProcessChunk(b, order, chunks[k]).Crash?
    ensures PillsMatch(b, order, WrapChunks(chunks) + Copies(n, Pill), WrapChunks(chunks) + Copies(n, Pill), Copies(n, Running))
  {
    var all := WrapChunks(chunks) + Copies(n, Pill);
    assert all[|all| - |all|..] == all;
    PillsAtEnd(chunks, n);
    CopiesCount(n, Running);
    ChunksThenPills(b, order, chunks, n);
  }

  lemma ChunksThenPills<A, R, S>(b: Binding<A, R, S>, order: bool, chunks: seq<seq<Item<A>>>, n: nat)
    requires forall k | 0 <= k < |chunks| :: !ProcessChunk(b, order, chunks[k]).Crash?
    ensures var all := WrapChunks(chunks) + Copies(n, Pill);
            forall k | 0 <= k < |all| :: all[k].Chunk? ==> !ProcessChunk(b, order, all[k].items).Crash?
  {
    var all := WrapChunks(chunks) + Copies(n, Pill);
    forall k | 0 <= k < |all| && all[k].Chunk?
      ensures !ProcessChunk(b, order, all[k].items).Crash?
    {
      assert k < |chunks| && all[k] == Chunk(chunks[k]);
    }
  }

  lemma PillsAtEnd<A>(chunks: seq<seq<Item<A>>>, n: nat)
    ensures multiset(WrapChunks(chunks) + Copies(n, Pill))[Pill] == n
  {
    assert multiset(WrapChunks(chunks) + Copies(n, Pill)) == multiset(WrapChunks(chunks)) + multiset(Copies(n, Pill));
    assert Pill !in multiset(WrapChunks(chunks));
    CopiesCount<Entry<A>>(n, Pill);
  }

  /** What the count of pills says about the end of any interleaving. */
  lemma PillsLeft<A, R, S>(b: Binding<A, R, S>, order: bool, all: seq<Entry<A>>, rest: seq<Entry<A>>, st: seq<WorkerState>, n: nat)
    requires n > 0 && |all| >= n && all[|all| - 1] == Pill
    requires PillsMatch(b, order, all, rest, st) && |st| == n
    ensures forall w | 0 <= w < n :: st[w] != Crashed
    ensures forall w | 0 <= w < n && st[w] == Running :: Pill in rest
    ensures rest == [] <==> st == Copies(n, Exited)
  {
    forall w | 0 <= w < n && st[w] == Running ensures Pill in rest {
      assert st[w] in multiset(st);
    }
    if rest == [] {
      assert Running !in multiset(st);
      forall w | 0 <= w < n ensures st[w] == Exited {
        assert st[w] in multiset(st);
      }
      assert st == Copies(n, Exited);
    }
    EndsInPill(all, rest);
    if st == Copies(n, Exited) {
      assert Running !in multiset(st);
    }
  }

  /** A non-empty suffix of a queue that ends in a pill holds a pill. */
  lemma EndsInPill<A>(all: seq<Entry<A>>, rest: seq<Entry<A>>)
    requires |all| > 0 && all[|all| - 1] == Pill
    requires |rest| <= |all| && rest == all[|all| - |rest|..]
    ensures |rest| > 0 ==> Pill in multiset(rest)
  {
    if |rest| > 0 {
      assert rest[|rest| - 1] == all[|all| - 1];
      assert rest[|rest| - 1] in multiset(rest);
    }
  }

  /** A worker process: its two queues, the order event it reads once per
      chunk, and whether its loop is still going. */
  class Worker<A, R, S> {
    const binding: Binding<A, R, S>
    var tasksQueue: seq<Entry<A>>
    var resultsQueue: seq<Batch<R>>
    var keepOrder: bool
    var state: WorkerState

    constructor (tasks: seq<Entry<A>>, results: seq<Batch<R>>, b: Binding<A, R, S>, order: bool)
      ensures binding == b && tasksQueue == tasks && resultsQueue == results
      ensures keepOrder == order && state == Running
    {
      binding := b;
      tasksQueue := tasks;
      resultsQueue := results;
      keepOrder := order;
      state := Running;
    }

    /** One iteration of the loop in Worker.run: take the next entry (or
        stay blocked on an empty queue), exit on the pill, otherwise handle
        the chunk. */
    method Step() returns (o: StepOutcome)
      requires state == Running
      modifies this
      ensures keepOrder == old(keepOrder)
      ensures old(|tasksQueue|) == 0 ==> o == Blocked && unchanged(this)
      ensures old(|tasksQueue|) > 0 ==> tasksQueue == old(tasksQueue[1..])
      ensures old(|tasksQueue|) > 0 && old(tasksQueue[0]).Pill? ==>
                o == Stopped && state == Exited && resultsQueue == old(resultsQueue)
      ensures old(|tasksQueue|) > 0 && old(tasksQueue[0]).Chunk? ==>
                var r := ProcessChunk(binding, old(keepOrder), old(tasksQueue[0]).items);
                && (r.Emit? ==> o == Processed && state == Running && resultsQueue == old(resultsQueue) + [r.batch])
                && (r.Silent? ==> o == Processed && state == Running && resultsQueue == old(resultsQueue))
                && (r.Crash? ==> o == Raised && state == Crashed && resultsQueue == old(resultsQueue))
    {
      if |tasksQueue| == 0 {
        return Blocked;
      }
      var next := tasksQueue[0];
      tasksQueue := tasksQueue[1..];
      match next
      case Pill =>
        state := Exited;
        o := Stopped;
      case Chunk(items) =>
        var order := keepOrder;
        match ProcessChunk(binding, order, items)
        case Emit(batch) =>
          resultsQueue := resultsQueue + [batch];
          o := Processed;
        case Silent =>
          o := Processed;
        case Crash =>
          state := Crashed;
          o := Raised;
    }

    /** Worker.run: repeat Step until the pill, an exception, or an empty
        queue on which the process would block. */
    method Run()
      requires state == Running
      modifies this
      ensures var e := RunFrom(binding, old(keepOrder), old(tasksQueue));
              tasksQueue == e.rest && resultsQueue == old(resultsQueue) + e.emitted && state == e.state
      ensures keepOrder == old(keepOrder)
    {
      ghost var put: seq<Batch<R>> := [];
      ghost var start := RunFrom(binding, keepOrder, tasksQueue);
      while state == Running && |tasksQueue| > 0
        invariant keepOrder == old(keepOrder)
        invariant resultsQueue == old(resultsQueue) + put
        invariant state == Running ==>
                    var e := RunFrom(binding, keepOrder, tasksQueue);
                    start == RunEnd(e.rest, put + e.emitted, e.state)
        invariant state != Running ==> start == RunEnd(tasksQueue, put, state)
        decreases |tasksQueue|
      {
        ghost var ts := tasksQueue;
        ghost var order := keepOrder;
        ghost var e := RunFrom(binding, order, ts);
        ghost var put0 := put;
        var o := Step();
        assert tasksQueue == ts[1..];
        match ts[0]
        case Pill =>
          assert put0 + [] == put0;
        case Chunk(items) =>
          var r := ProcessChunk(binding, order, items);
          if r.Emit? {
            put := put + [r.batch];
            var e1 := RunFrom(binding, order, ts[1..]);
            assert e == RunEnd(e1.rest, [r.batch] + e1.emitted, e1.state);
            assert put0 + ([r.batch] + e1.emitted) == put + e1.emitted;
          } else if r.Crash? {
            assert put0 + [] == put0;
          }
      }
      assert put + [] == put;
    }
  }
}
