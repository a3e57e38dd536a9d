/** Data model shared by every component of the worker pool: what travels
    through the task queue and the result queue, the binding a worker is
    created with, and the error and outcome types of the pool's calls. */
module Tasks {

  datatype Option<T> = None | Some(value: T)

  /** The exceptions the pool raises towards its caller. */
  datatype Error =
    | ZeroDivision          // the derived chunk size divides by 4 * len(workers) == 0
    | MissingLength         // no chunk size, no iterable_len and no len() on the input
    | NegativeChunkSize     // itertools.islice refuses a negative stop
    | NonPositiveMaxActive  // max_tasks_active <= 0
    | NotAPair              // an ordered call received a result that is not an (index, value) pair

  datatype Result<T> = Ok(value: T) | Err(error: Error)

  /** How a call that yields results ends: all results, an exception, or a
      wait that never ends (with what was yielded before it). */
  datatype Outcome<T> = Done(items: seq<T>) | Failed(error: Error) | Hangs(yielded: seq<T>)

  /** One element of a chunk: plain task arguments, or arguments paired with
      the order index that map and imap attach with enumerate. */
  datatype Item<A> = Plain(args: A) | Indexed(idx: int, args: A)

  /** One element of a result batch: a plain return value, or the pair
      (index, value) that the order-preserving helper returns. */
  datatype Out<R> = Value(r: R) | Pair(idx: int, r: R)

  /** A task-queue entry: the None poison pill or a chunk of task arguments. */
  datatype Entry<A> = Pill | Chunk(items: seq<Item<A>>)

  /** What a worker puts on the result queue for one chunk. */
  type Batch<R> = seq<Out<R>>

  /** What a worker is created with besides its queues and the order event:
      the work function, the shared objects and the has-return flag.
      f(None, a) stands for func_pointer(*a) and f(Some(s), a) for
      func_pointer(s, *a). */
  datatype Binding<!A, R, !S> = Binding(f: (Option<S>, A) -> R, shared: Option<S>, hasReturn: bool)

  /** The max_tasks_active argument: None, an integer or the string 'n_jobs*2'. */
  datatype MaxActive = Unlimited | Limit(k: int) | TwiceJobs

  /** n times x. */
  function Copies<T>(n: nat, x: T): seq<T>
  {
    seq(n, _ => x)
  }

  /** Concatenation of a sequence of sequences. */
  function Flatten<T>(ss: seq<seq<T>>): seq<T>
  {
    if |ss| == 0 then [] else ss[0] + Flatten(ss[1..])
  }

  lemma {:induction false} FlattenAppend<T>(a: seq<seq<T>>, b: seq<seq<T>>)
    ensures Flatten(a + b) == Flatten(a) + Flatten(b)
  {
    if |a| == 0 {
      assert a + b == b;
    } else {
      assert (a + b)[1..] == a[1..] + b;
      FlattenAppend(a[1..], b);
    }
  }

  lemma MultisetCancel<T>(x: T, a: multiset<T>, b: multiset<T>)
    requires a + multiset{x} == b + multiset{x}
    ensures a == b
  {
    assert a == (a + multiset{x}) - multiset{x};
    assert b == (b + multiset{x}) - multiset{x};
  }
}
