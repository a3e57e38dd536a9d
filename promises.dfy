/** What the four map calls of the worker pool promise, stated over the
    binding of the workers, their number and the call's arguments. */
module Promises {
  import opened Tasks
  import opened Chunking
  import opened Workers
  import opened Submission

  /** f applied to every task argument, without shared objects. */
  function Applied<A, R, S>(f: (Option<S>, A) -> R, args: seq<A>): seq<R>
  {
    seq(|args|, i requires 0 <= i < |args| => f(None, args[i]))
  }

  /** What imap_unordered promises, run to the end, given the binding b of
      its workers, the order event, the number n of workers, whether the
      workers were started by this call (so both queues started empty), and
      its arguments: the errors in the order they are raised, no results at
      all for a chunk size of 0, and, with freshly started workers,
      completion exactly when there is nothing to do or every call succeeds
      and returns its value, with every result yielded exactly once. */
  ghost predicate UnorderedOutcome<A, R, S>(b: Binding<A, R, S>, order: bool, n: nat, started: bool,
                                            items: seq<Item<A>>, ownLen: Option<nat>, iterableLen: Option<int>,
                                            limit: MaxActive, chunkSize: Option<int>, out: Outcome<Out<R>>)
  {
    var k := ResolveLimit(limit, n);
    var d := DeriveChunkSize(chunkSize, iterableLen, ownLen, n);
    var bad := k.Some? && k.value <= 0;
    && (bad ==> out == Failed(NonPositiveMaxActive))
    && (!bad && d.Err? ==> out == Failed(d.error))
    && (!bad && d.Ok? && d.value < 0 ==> out == Failed(NegativeChunkSize))
    && (!bad && d.Ok? && d.value == 0 ==> out == Done([]))
    && (!bad && d.Ok? && d.value > 0 ==> !out.Failed?)
    && (started && !bad && d.Ok? && d.value > 0 ==>
          && (out.Done? <==> |items| == 0 || (n > 0 && Outputs(b, order, items).Some? && (b.shared.None? || b.hasReturn)))
          && (out.Done? ==> multiset(out.items) == multiset(Outputs(b, order, items).value)))
  }

  /** What map and imap promise about their ordered results, given the
      binding b of the workers, their number n, whether this call started
      them, the task arguments and iterable_len as completed from len():
      the errors as imap_unordered raises them, no results for a chunk size
      of 0, and, with freshly started workers, completion exactly when there
      is nothing to do or there are workers and no shared objects (helper_func
      has no parameter for them), with f(*args) for every argument in input
      order. */
  ghost predicate OrderedOutcome<A, R, S>(b: Binding<A, R, S>, n: nat, started: bool, args: seq<A>,
                                          iterableLen: Option<int>, limit: MaxActive, chunkSize: Option<int>,
                                          r: Outcome<R>)
  {
    var k := ResolveLimit(limit, n);
    var d := DeriveChunkSize(chunkSize, iterableLen, None, n);
    var bad := k.Some? && k.value <= 0;
    && (bad ==> r == Failed(NonPositiveMaxActive))
    && (!bad && d.Err? ==> r == Failed(d.error))
    && (!bad && d.Ok? && d.value < 0 ==> r == Failed(NegativeChunkSize))
    && (!bad && d.Ok? && d.value == 0 ==> r == Done([]))
    && (started && !bad && d.Ok? && d.value > 0 ==>
          && (r.Done? <==> |args| == 0 || (n > 0 && b.shared.None?))
          && (r.Done? ==> r.items == Applied(b.f, args)))
  }

  /** The queues a map call leaves, from the queues it found (tq0, rq0):
      an exception raised before anything was submitted (raised) leaves
      them as they were, or as start_workers made them when the call
      started the workers (started); a call that yielded everything
      (done) from empty queues leaves them empty, so that __exit__ then
      stops and joins instead of terminating. */
  ghost predicate QueuesAfter<A, R>(started: bool, raised: bool, done: bool,
                                    tq0: Option<seq<Entry<A>>>, rq0: Option<seq<Batch<R>>>,
                                    tq: Option<seq<Entry<A>>>, rq: Option<seq<Batch<R>>>)
  {
    && (raised ==> tq == (if started then Some([]) else tq0) && rq == (if started then Some([]) else rq0))
    && (done && (started || (tq0 == Some([]) && rq0 == Some([]))) ==> tq == Some([]) && rq == Some([]))
  }
}
