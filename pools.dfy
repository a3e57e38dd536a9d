/** WorkerPool: the pool's fields, the worker lifecycle (start, poison
    pills, stop-and-join, terminate, the with-statement exit) and the four
    map calls. */
module Pools {
  import opened Tasks
  import opened Chunking
  import opened Workers
  import opened Submission
  import opened Ordering
  import opened Promises

  /** The loop bound of start_workers: n_jobs if given, else cpu_count() - 1;
      range() of a negative bound is empty. */
  function SpawnCount(nJobs: Option<int>, cpuCount: int): (n: nat)
    ensures nJobs.Some? && nJobs.value >= 0 ==> n == nJobs.value
    ensures nJobs.None? && cpuCount >= 1 ==> n == cpuCount - 1
    ensures (nJobs.Some? && nJobs.value <= 0) || (nJobs.None? && cpuCount <= 1) ==> n == 0
  {
    var n := if nJobs.Some? then nJobs.value else cpuCount - 1;
    if n > 0 then n else 0
  }

  /** ((args_idx, args) for args_idx, args in enumerate(iterable_of_args)). */
  function IndexedItems<A>(args: seq<A>): seq<Item<A>>
  {
    seq(|args|, i requires 0 <= i < |args| => Indexed(i, args[i]))
  }

  lemma {:induction false} FlattenMember<T>(ss: seq<seq<T>>, k: int, j: int)
    requires 0 <= k < |ss| && 0 <= j < |ss[k]|
    ensures ss[k][j] in multiset(Flatten(ss))
  {
    if k == 0 {
      assert Flatten(ss) == ss[0] + Flatten(ss[1..]);
      assert Flatten(ss)[j] == ss[0][j];
    } else {
      assert ss[k] == ss[1..][k - 1];
      FlattenMember(ss[1..], k - 1, j);
      assert multiset(Flatten(ss)) == multiset(ss[0]) + multiset(Flatten(ss[1..]));
    }
  }

  /** Over any chunking of the task items, every chunk emits exactly when
      there are no items or every call succeeds and results are returned,
      and then the results of all chunks are the results of the items. */
  lemma ChunkedResults<A, R, S>(b: Binding<A, R, S>, order: bool, chunks: seq<seq<Item<A>>>, items: seq<Item<A>>, size: int)
    requires size > 0 && IsChunking(chunks, items, size)
    ensures AllEmit(b, order, chunks) <==>
              |items| == 0 || (Outputs(b, order, items).Some? && (b.shared.None? || b.hasReturn))
    ensures AllEmit(b, order, chunks) ==> Results(b, order, chunks) == Outputs(b, order, items).value
  {
    if AllEmit(b, order, chunks) {
      ResultsOfChunks(b, order, chunks);
      if |items| > 0 {
        assert |chunks| > 0;
        assert ProcessChunk(b, order, chunks[0]).Emit?;
      }
    }
    if |items| == 0 {
      assert |chunks| == 0;
    } else if Outputs(b, order, items).Some? && (b.shared.None? || b.hasReturn) {
      forall k | 0 <= k < |chunks| ensures ProcessChunk(b, order, chunks[k]).Emit? {
        forall j | 0 <= j < |chunks[k]| ensures CallOn(b, order, chunks[k][j]).Some? {
          FlattenMember(chunks, k, j);
          var i :| 0 <= i < |items| && items[i] == chunks[k][j];
        }
      }
    }
  }

  /** In ordered mode without shared objects every indexed call succeeds,
      with the pair (i, f(args[i])). */
  lemma IndexedOutputs<A, R, S>(b: Binding<A, R, S>, args: seq<A>)
    requires b.shared.None?
    ensures Outputs(b, true, IndexedItems(args)) == Some(Enumerate(Applied(b.f, args)))
  {
    var items := IndexedItems(args);
    assert forall i | 0 <= i < |items| :: CallOn(b, true, items[i]).Some?;
    var o := Outputs(b, true, items);
    assert o.value == Enumerate(Applied(b.f, args));
  }

  /** len(iterable_of_args) when the input has a len(). */
  function OwnLen<T>(hasLen: bool, items: seq<T>): Option<nat>
  {
    if hasLen then Some(|items|) else None
  }

  /** The outcome of SubmitAndCollect over the chunks of ChunkTasks meets
      what imap_unordered promises. */
  lemma UnorderedFromChunks<A, R, S>(b: Binding<A, R, S>, order: bool, n: nat, started: bool,
                                     items: seq<Item<A>>, ownLen: Option<nat>, iterableLen: Option<int>,
                                     limit: MaxActive, chunkSize: Option<int>, chunks: Result<seq<seq<Item<A>>>>,
                                     out: Outcome<Out<R>>, polled: seq<Batch<R>>)
    requires var d := DeriveChunkSize(chunkSize, iterableLen, ownLen, n);
             && (d.Err? ==> chunks == Err(d.error))
             && (d.Ok? && d.value < 0 ==> chunks == Err(NegativeChunkSize))
             && (d.Ok? && d.value == 0 ==> chunks == Ok([]))
             && (d.Ok? && d.value > 0 ==> chunks.Ok? && IsChunking(chunks.value, items, d.value))
    requires var k := ResolveLimit(limit, n);
             && (k.Some? && k.value <= 0 ==> out == Failed(NonPositiveMaxActive))
             && (!(k.Some? && k.value <= 0) && chunks.Err? ==> out == Failed(chunks.error))
             && (!(k.Some? && k.value <= 0) && chunks.Ok? ==> !out.Failed?)
    requires out.Done? ==> chunks.Ok? && out.items == Flatten(polled) && |polled| == |chunks.value|
    requires out.Hangs? ==> chunks.Ok? && |polled| < |chunks.value|
    requires started && chunks.Ok? && !out.Failed? ==>
               (out.Done? <==> |chunks.value| == 0 || (n > 0 && AllEmit(b, order, chunks.value)))
    requires started && out.Done? ==> multiset(out.items) == multiset(Results(b, order, chunks.value))
    ensures UnorderedOutcome(b, order, n, started, items, ownLen, iterableLen, limit, chunkSize, out)
  {
    var d := DeriveChunkSize(chunkSize, iterableLen, ownLen, n);
    if d.Ok? && d.value > 0 {
      ChunkedResults(b, order, chunks.value, items, d.value);
      assert |chunks.value| == 0 <==> |items| == 0;
    }
    if d.Ok? && d.value == 0 && out.Done? {
      assert polled == [];
    }
  }

  /** Restoring the order of what imap_unordered produced over the
      enumerated arguments gives what map and imap promise, whenever the
      restoration passes exceptions through, completes only a completed
      stream, and turns a permutation of the pairs (i, f(*args[i])) into the
      results in input order. */
  lemma OrderedFromUnordered<A, R, S>(b: Binding<A, R, S>, n: nat, started: bool, args: seq<A>,
                                      iterableLen: Option<int>, limit: MaxActive, chunkSize: Option<int>,
                                      o: Outcome<Out<R>>, r: Outcome<R>)
    requires UnorderedOutcome(b, true, n, started, IndexedItems(args), None, iterableLen, limit, chunkSize, o)
    requires o.Failed? ==> r == Failed(o.error)
    requires r.Done? ==> o.Done?
    requires o == Done([]) ==> r == Done([])
    requires o.Done? && multiset(o.items) == multiset(Enumerate(Applied(b.f, args))) ==> r == Done(Applied(b.f, args))
    ensures OrderedOutcome(b, n, started, args, iterableLen, limit, chunkSize, r)
  {
    var items := IndexedItems(args);
    var k := ResolveLimit(limit, n);
    var d := DeriveChunkSize(chunkSize, iterableLen, None, n);
    var bad := k.Some? && k.value <= 0;
    if started && !bad && d.Ok? && d.value > 0 {
      if |args| == 0 {
        assert Outputs(b, true, items) == Some([]);
        assert o.Done?;
        assert o.items == [] by {
          assert |multiset(o.items)| == 0;
        }
        assert Enumerate(Applied(b.f, args)) == [];
      } else if b.shared.None? {
        IndexedOutputs(b, args);
      } else {
        assert CallOn(b, true, items[0]).None?;
      }
    }
  }

  /** The part of imap_unordered after the workers are started: chunk the
      items for n workers, submit and collect over the queues tq0 and rq0,
      which are empty when the workers were just started. */
  method Collect<A, R, S>(b: Binding<A, R, S>, order: bool, n: nat, ghost started: bool, items: seq<Item<A>>,
                          ownLen: Option<nat>, iterableLen: Option<int>, limit: MaxActive, chunkSize: Option<int>,
                          tq0: seq<Entry<A>>, rq0: seq<Batch<R>>, env: seq<nat>)
    returns (out: Outcome<Out<R>>, tq: seq<Entry<A>>, rq: seq<Batch<R>>)
    requires started ==> tq0 == [] && rq0 == []
    ensures UnorderedOutcome(b, order, n, started, items, ownLen, iterableLen, limit, chunkSize, out)
    ensures out.Failed? ==> tq == tq0 && rq == rq0
    ensures tq0 == [] && rq0 == [] && out.Done? ==> tq == [] && rq == []
  {
    var chunks := ChunkTasks(items, ownLen, iterableLen, chunkSize, n);
    ghost var polled;
    out, tq, rq, polled := SubmitAndCollect(b, order, n, chunks, limit, tq0, rq0, env);
    UnorderedFromChunks(b, order, n, started, items, ownLen, iterableLen, limit, chunkSize, chunks, out, polled);
  }

  /** The part of imap after imap_unordered: restore the order of the
      stream o produced over the enumerated arguments. */
  method RestoreStreamed<A, R, S>(b: Binding<A, R, S>, order: bool, n: nat, ghost started: bool,
                                  args: seq<A>, ownLen: Option<nat>,
                                  iterableLen: Option<int>, limit: MaxActive, chunkSize: Option<int>,
                                  o: Outcome<Out<R>>, ghost tq0: Option<seq<Entry<A>>>, ghost rq0: Option<seq<Batch<R>>>,
                                  ghost tq: Option<seq<Entry<A>>>, ghost rq: Option<seq<Batch<R>>>)
    returns (r: Outcome<R>)
    requires order && ownLen.None?
    requires UnorderedOutcome(b, order, n, started, IndexedItems(args), ownLen, iterableLen, limit, chunkSize, o)
    requires QueuesAfter(started, o.Failed?, o.Done?, tq0, rq0, tq, rq)
    ensures OrderedOutcome(b, n, started, args, iterableLen, limit, chunkSize, r)
    ensures QueuesAfter(started, r.Failed? && r.error != NotAPair, r.Done?, tq0, rq0, tq, rq)
    ensures r.Done? ==> o.Done?
    ensures r.Failed? && r.error != NotAPair ==> o.Failed?
  {
    ghost var v := if o == Done([]) then [] else Applied(b.f, args);
    r := Reorder(o, v);
    if o.Done? && multiset(o.items) == multiset(Enumerate(Applied(b.f, args))) && o == Done([]) {
      assert |Enumerate(Applied(b.f, args))| == 0 by {
        assert |multiset(Enumerate(Applied(b.f, args)))| == 0;
      }
    }
    OrderedFromUnordered(b, n, started, args, iterableLen, limit, chunkSize, o, r);
  }

  /** The part of map after map_unordered: sort the list o by index and
      keep the values; o is complete exactly when the sort is reached. */
  method RestoreSorted<A, R, S>(b: Binding<A, R, S>, order: bool, n: nat, ghost started: bool,
                                args: seq<A>, ownLen: Option<nat>,
                                iterableLen: Option<int>, limit: MaxActive, chunkSize: Option<int>,
                                o: Outcome<Out<R>>, ghost tq0: Option<seq<Entry<A>>>, ghost rq0: Option<seq<Batch<R>>>,
                                ghost tq: Option<seq<Entry<A>>>, ghost rq: Option<seq<Batch<R>>>)
    returns (r: Outcome<R>)
    requires order && ownLen.None?
    requires UnorderedOutcome(b, order, n, started, IndexedItems(args), ownLen, iterableLen, limit, chunkSize, o)
    requires o.Hangs? ==> o.yielded == []
    requires QueuesAfter(started, o.Failed?, o.Done?, tq0, rq0, tq, rq)
    ensures OrderedOutcome(b, n, started, args, iterableLen, limit, chunkSize, r)
    ensures QueuesAfter(started, r.Failed? && r.error != NotAPair, r.Done?, tq0, rq0, tq, rq)
    ensures r.Hangs? ==> r.yielded == []
    ensures o.Done? <==> r.Done? || r == Failed(NotAPair)
    ensures r.Failed? && r.error != NotAPair ==> o.Failed?
  {
    match o {
      case Done(rs) =>
        var sorted := MapOrder(rs);
        r := if sorted.Ok? then Done(sorted.value) else Failed(sorted.error);
        if multiset(rs) == multiset(Enumerate(Applied(b.f, args))) {
          MapRestoresOrder(rs, Applied(b.f, args));
        }
      case Failed(e) =>
        r := Failed(e);
      case Hangs(_) =>
        r := Hangs([]);
    }
    OrderedFromUnordered(b, n, started, args, iterableLen, limit, chunkSize, o, r);
  }

  /** The binding the workers run with: the first worker's, or the one new
      workers would get when there are none (then no chunk is ever handled). */
  function PoolBinding<A, R, S>(workers: seq<Binding<A, R, S>>, spare: Binding<A, R, S>): Binding<A, R, S>
  {
    if |workers| > 0 then workers[0] else spare
  }

  /** A worker pool: the number of workers to start, the two queues (None
      before the first start and after a stop), the order event, the
      workers (each described by what it was created with) and the shared
      objects with their has-return flag. */
  class WorkerPool<A, R, S> {
    var nJobs: Option<int>
    var tasksQueue: Option<seq<Entry<A>>>
    var resultsQueue: Option<seq<Batch<R>>>
    var keepOrder: bool
    var workers: seq<Binding<A, R, S>>
    var sharedObjects: Option<S>
    var hasReturnWithShared: bool

    /** The queues exist together, they exist while there are workers, and
        the workers were all created alike by one start. */
    ghost predicate Valid()
      reads this`tasksQueue, this`resultsQueue, this`workers
    {
      && (tasksQueue.Some? <==> resultsQueue.Some?)
      && (|workers| > 0 ==> tasksQueue.Some?)
      && (forall i | 0 <= i < |workers| :: workers[i] == workers[0])
    }

    /** WorkerPool.__init__. */
    constructor (n: Option<int>)
      ensures Valid()
      ensures nJobs == n && tasksQueue.None? && resultsQueue.None? && !keepOrder
      ensures workers == [] && sharedObjects.None? && !hasReturnWithShared
    {
      nJobs := n;
      tasksQueue := None;
      resultsQueue := None;
      keepOrder := false;
      workers := [];
      sharedObjects := None;
      hasReturnWithShared := false;
    }

    /** set_shared_objects: only the two fields change; running workers
        keep what they were created with. */
    method SetSharedObjects(shared: Option<S>, hasReturn: bool)
      requires Valid()
      modifies this
      ensures Valid()
      ensures sharedObjects == shared && hasReturnWithShared == hasReturn
      ensures nJobs == old(nJobs) && tasksQueue == old(tasksQueue) && resultsQueue == old(resultsQueue)
      ensures keepOrder == old(keepOrder) && workers == old(workers)
    {
      sharedObjects := shared;
      hasReturnWithShared := hasReturn;
    }

    /** insert_poison_pill: one None pill per worker at the end of the task
        queue, nothing else. */
    method InsertPoisonPill()
      requires Valid()
      modifies this
      ensures Valid()
      ensures old(|workers|) > 0 ==> tasksQueue == Some(old(tasksQueue).value + Copies(|workers|, Pill))
      ensures old(|workers|) == 0 ==> tasksQueue == old(tasksQueue)
      ensures nJobs == old(nJobs) && resultsQueue == old(resultsQueue) && keepOrder == old(keepOrder)
      ensures workers == old(workers) && sharedObjects == old(sharedObjects) && hasReturnWithShared == old(hasReturnWithShared)
    {
      var i := 0;
      if |workers| > 0 {
        assert tasksQueue.value + Copies<Entry<A>>(0, Pill) == tasksQueue.value;
      }
      while i < |workers|
        invariant 0 <= i <= |workers|
        invariant Valid()
        invariant old(|workers|) > 0 ==> tasksQueue == Some(old(tasksQueue).value + Copies(i, Pill))
        invariant old(|workers|) == 0 ==> tasksQueue == old(tasksQueue)
        invariant nJobs == old(nJobs) && resultsQueue == old(resultsQueue) && keepOrder == old(keepOrder)
        invariant workers == old(workers) && sharedObjects == old(sharedObjects) && hasReturnWithShared == old(hasReturnWithShared)
      {
        assert Copies<Entry<A>>(i + 1, Pill) == Copies<Entry<A>>(i, Pill) + [Pill];
        assert old(tasksQueue).value + Copies<Entry<A>>(i + 1, Pill) == tasksQueue.value + [Pill];
        tasksQueue := Some(tasksQueue.value + [Pill]);
        i := i + 1;
      }
    }

    /** stop_and_join: with workers, send the pills, wait for every worker
        to stop and forget the workers and both queues; without workers,
        nothing. */
    method StopAndJoin()
      requires Valid()
      modifies this
      ensures Valid()
      ensures old(|workers|) > 0 ==> workers == [] && tasksQueue.None? && resultsQueue.None?
      ensures old(|workers|) == 0 ==> workers == [] && tasksQueue == old(tasksQueue) && resultsQueue == old(resultsQueue)
      ensures nJobs == old(nJobs) && keepOrder == old(keepOrder)
      ensures sharedObjects == old(sharedObjects) && hasReturnWithShared == old(hasReturnWithShared)
    {
      if |workers| > 0 {
        InsertPoisonPill();
        workers := [];
        tasksQueue := None;
        resultsQueue := None;
      }
    }

    /** terminate: the loop over the workers resets the fields inside its
        body, so the queues are forgotten only when there was a worker. */
    method Terminate()
      requires Valid()
      modifies this
      ensures Valid()
      ensures old(|workers|) > 0 ==> workers == [] && tasksQueue.None? && resultsQueue.None?
      ensures old(|workers|) == 0 ==> workers == [] && tasksQueue == old(tasksQueue) && resultsQueue == old(resultsQueue)
      ensures nJobs == old(nJobs) && keepOrder == old(keepOrder)
      ensures sharedObjects == old(sharedObjects) && hasReturnWithShared == old(hasReturnWithShared)
    {
      var ws := workers;
      var i := 0;
      while i < |ws|
        invariant 0 <= i <= |ws|
        invariant Valid()
        invariant i == 0 ==> workers == old(workers) && tasksQueue == old(tasksQueue) && resultsQueue == old(resultsQueue)
        invariant i > 0 ==> workers == [] && tasksQueue.None? && resultsQueue.None?
        invariant nJobs == old(nJobs) && keepOrder == old(keepOrder)
        invariant sharedObjects == old(sharedObjects) && hasReturnWithShared == old(hasReturnWithShared)
      {
        workers := [];
        tasksQueue := None;
        resultsQueue := None;
        i := i + 1;
      }
    }

    /** __exit__: terminate when a task queue exists and either queue still
        holds something (a call was not consumed to the end), stop and join
        otherwise. terminated says which of the two ran. */
    method Exit() returns (ghost terminated: bool)
      requires Valid()
      modifies this
      ensures Valid()
      ensures terminated <==> old(tasksQueue).Some? && (|old(tasksQueue).value| > 0 || |old(resultsQueue).value| > 0)
      ensures old(|workers|) > 0 ==> workers == [] && tasksQueue.None? && resultsQueue.None?
      ensures old(|workers|) == 0 ==> workers == [] && tasksQueue == old(tasksQueue) && resultsQueue == old(resultsQueue)
      ensures nJobs == old(nJobs) && keepOrder == old(keepOrder)
      ensures sharedObjects == old(sharedObjects) && hasReturnWithShared == old(hasReturnWithShared)
    {
      var pending := tasksQueue.Some? && (|tasksQueue.value| > 0 || |resultsQueue.value| > 0);
      terminated := pending;
      if pending {
        Terminate();
      } else {
        StopAndJoin();
      }
    }

    /** start_workers: stop and join the old workers, make two new empty
        queues and create the workers with the function, the shared objects
        and the has-return flag. cpuCount stands for cpu_count(). */
    method StartWorkers(f: (Option<S>, A) -> R, cpuCount: int)
      requires Valid()
      modifies this
      ensures Valid()
      ensures tasksQueue == Some([]) && resultsQueue == Some([])
      ensures workers == Copies(SpawnCount(nJobs, cpuCount), Binding(f, sharedObjects, hasReturnWithShared))
      ensures nJobs == old(nJobs) && keepOrder == old(keepOrder)
      ensures sharedObjects == old(sharedObjects) && hasReturnWithShared == old(hasReturnWithShared)
    {
      StopAndJoin();
      tasksQueue := Some([]);
      resultsQueue := Some([]);
      var b := Binding(f, sharedObjects, hasReturnWithShared);
      var n := SpawnCount(nJobs, cpuCount);
      var i := 0;
      while i < n
        invariant 0 <= i <= n
        invariant workers == Copies(i, b)
        invariant tasksQueue == Some([]) && resultsQueue == Some([])
        invariant nJobs == old(nJobs) && keepOrder == old(keepOrder)
        invariant sharedObjects == old(sharedObjects) && hasReturnWithShared == old(hasReturnWithShared)
      {
        assert Copies(i + 1, b) == Copies(i, b) + [b];
        workers := workers + [b];
        i := i + 1;
      }
    }


    /** imap_unordered, consumed to the end: start the workers when there
        are none or a restart is asked for, chunk the items, submit and
        collect. hasLen says whether the input has a len(); env is the
        progress of the workers (see Submission). */
    method IMapUnordered(f: (Option<S>, A) -> R, items: seq<Item<A>>, hasLen: bool, iterableLen: Option<int>,
                         limit: MaxActive, chunkSize: Option<int>, restart: bool := true, cpuCount: int, env: seq<nat>)
      returns (out: Outcome<Out<R>>)
      requires Valid()
      modifies this
      ensures Valid()
      ensures var started := old(|workers|) == 0 || restart;
              && (started ==> workers == Copies(SpawnCount(nJobs, cpuCount), Binding(f, sharedObjects, hasReturnWithShared)))
              && (!started ==> workers == old(workers))
              && UnorderedOutcome(PoolBinding(workers, Binding(f, sharedObjects, hasReturnWithShared)), keepOrder, |workers|, started, items, OwnLen(hasLen, items),
                                  iterableLen, limit, chunkSize, out)
      ensures QueuesAfter(old(|workers|) == 0 || restart, out.Failed?, out.Done?,
                          old(tasksQueue), old(resultsQueue), tasksQueue, resultsQueue)
      ensures nJobs == old(nJobs) && keepOrder == old(keepOrder)
      ensures sharedObjects == old(sharedObjects) && hasReturnWithShared == old(hasReturnWithShared)
    {
      var started := |workers| == 0 || restart;
      if started {
        StartWorkers(f, cpuCount);
      }
      var n := |workers|;
      var b := PoolBinding(workers, Binding(f, sharedObjects, hasReturnWithShared));
      var ownLen := OwnLen(hasLen, items);
      var tq, rq;
      out, tq, rq := Collect(b, keepOrder, n, started, items, ownLen, iterableLen, limit, chunkSize,
                              tasksQueue.value, resultsQueue.value, env);
      tasksQueue, resultsQueue := Some(tq), Some(rq);
    }
  
    /** map_unordered: the list of what imap_unordered yields; a call that
        hangs returns nothing at all. */
    method MapUnordered(f: (Option<S>, A) -> R, items: seq<Item<A>>, hasLen: bool, iterableLen: Option<int>,
                        limit: MaxActive, chunkSize: Option<int>, restart: bool := false, cpuCount: int, env: seq<nat>)
      returns (out: Outcome<Out<R>>)
      requires Valid()
      modifies this
      ensures Valid()
      ensures var started := old(|workers|) == 0 || restart;
              && (started ==> workers == Copies(SpawnCount(nJobs, cpuCount), Binding(f, sharedObjects, hasReturnWithShared)))
              && (!started ==> workers == old(workers))
              && UnorderedOutcome(PoolBinding(workers, Binding(f, sharedObjects, hasReturnWithShared)), keepOrder, |workers|, started, items, OwnLen(hasLen, items),
                                  iterableLen, limit, chunkSize, out)
      ensures out.Hangs? ==> out.yielded == []
      ensures QueuesAfter(old(|workers|) == 0 || restart, out.Failed?, out.Done?,
                          old(tasksQueue), old(resultsQueue), tasksQueue, resultsQueue)
      ensures nJobs == old(nJobs) && keepOrder == old(keepOrder)
      ensures sharedObjects == old(sharedObjects) && hasReturnWithShared == old(hasReturnWithShared)
    {
      out := IMapUnordered(f, items, hasLen, iterableLen, limit, chunkSize, restart, cpuCount, env);
      if out.Hangs? {
        out := Hangs([]);
      }
    }

    /** imap: set the order event, enumerate the arguments, complete
        iterable_len from len(), restore the order of what imap_unordered
        yields and clear the event once everything was yielded. */
    method IMap(f: (Option<S>, A) -> R, args: seq<A>, hasLen: bool, iterableLen: Option<int>,
                limit: MaxActive, chunkSize: Option<int>, restart: bool := false, cpuCount: int, env: seq<nat>)
      returns (r: Outcome<R>)
      requires Valid()
      modifies this
      ensures Valid()
      ensures var started := old(|workers|) == 0 || restart;
              var len := if iterableLen.None? && hasLen then Some(|args|) else iterableLen;
              && (started ==> workers == Copies(SpawnCount(nJobs, cpuCount), Binding(f, sharedObjects, hasReturnWithShared)))
              && (!started ==> workers == old(workers))
              && OrderedOutcome(PoolBinding(workers, Binding(f, sharedObjects, hasReturnWithShared)), |workers|, started, args, len, limit, chunkSize, r)
      ensures keepOrder <==> !r.Done?
      ensures QueuesAfter(old(|workers|) == 0 || restart, r.Failed? && r.error != NotAPair, r.Done?,
                          old(tasksQueue), old(resultsQueue), tasksQueue, resultsQueue)
      ensures nJobs == old(nJobs)
      ensures sharedObjects == old(sharedObjects) && hasReturnWithShared == old(hasReturnWithShared)
    {
      keepOrder := true;
      var len := if iterableLen.None? && hasLen then Some(|args|) else iterableLen;
      ghost var started := |workers| == 0 || restart;
      ghost var tq0, rq0 := tasksQueue, resultsQueue;
      var o := IMapUnordered(f, IndexedItems(args), false, len, limit, chunkSize, restart, cpuCount, env);
      r := RestoreStreamed(PoolBinding(workers, Binding(f, sharedObjects, hasReturnWithShared)), keepOrder, |workers|, started, args, OwnLen(false, IndexedItems(args)), len, limit, chunkSize, o,
                             tq0, rq0, tasksQueue, resultsQueue);
      // the event is cleared after the last result was yielded
      keepOrder := !r.Done?;
    }

    /** map: set the order event, enumerate the arguments, complete
        iterable_len from len(), collect with map_unordered, clear the event
        and sort the pairs by index, keeping the values. */
    method Map(f: (Option<S>, A) -> R, args: seq<A>, hasLen: bool, iterableLen: Option<int>,
               limit: MaxActive, chunkSize: Option<int>, restart: bool := false, cpuCount: int, env: seq<nat>)
      returns (r: Outcome<R>)
      requires Valid()
      modifies this
      ensures Valid()
      ensures var started := old(|workers|) == 0 || restart;
              var len := if iterableLen.None? && hasLen then Some(|args|) else iterableLen;
              && (started ==> workers == Copies(SpawnCount(nJobs, cpuCount), Binding(f, sharedObjects, hasReturnWithShared)))
              && (!started ==> workers == old(workers))
              && OrderedOutcome(PoolBinding(workers, Binding(f, sharedObjects, hasReturnWithShared)), |workers|, started, args, len, limit, chunkSize, r)
      ensures r.Hangs? ==> r.yielded == []
      ensures keepOrder <==> !(r.Done? || r == Failed(NotAPair))
      ensures QueuesAfter(old(|workers|) == 0 || restart, r.Failed? && r.error != NotAPair, r.Done?,
                          old(tasksQueue), old(resultsQueue), tasksQueue, resultsQueue)
      ensures nJobs == old(nJobs)
      ensures sharedObjects == old(sharedObjects) && hasReturnWithShared == old(hasReturnWithShared)
    {
      keepOrder := true;
      var len := if iterableLen.None? && hasLen then Some(|args|) else iterableLen;
      ghost var started := |workers| == 0 || restart;
      ghost var tq0, rq0 := tasksQueue, resultsQueue;
      var o := MapUnordered(f, IndexedItems(args), false, len, limit, chunkSize, restart, cpuCount, env);
      r := RestoreSorted(PoolBinding(workers, Binding(f, sharedObjects, hasReturnWithShared)), keepOrder, |workers|, started, args, OwnLen(false, IndexedItems(args)), len, limit, chunkSize, o,
                         tq0, rq0, tasksQueue, resultsQueue);
      // the event is cleared once map_unordered has returned
      keepOrder := !o.Done?;
    }
  }
}
