# mpire worker pool, modelled in Dafny

This project models the core of mpire's `WorkerPool` (`workerpool/workerpool.py`): a multiprocessing pool. It covers:

- how the pool cuts the task arguments into chunks;
- how its workers handle each chunk they take from the task queue;
- how `imap_unordered` feeds the task queue under a limit on active tasks while it collects result batches;
- how `imap` and `map` put the results back into input order;
- the lifecycle of the workers: start, poison pills, stop and join, terminate, and `__exit__`.

Modules follow the structure of the program:

| module | file | what it holds |
|---|---|---|
| `Tasks` | `tasks.dfy` | what travels through the queues (`Item`, `Out`, `Entry`, `Batch`), the binding a worker is created with, the exceptions (`Error`) and how a call ends (`Outcome`: done, raised, or waiting forever) |
| `Chunking` | `chunking.dfy` | `chunk_tasks`: the derived chunk size and the slicing loop |
| `Workers` | `workers.dfy` | `Worker.helper_func` and `Worker.run`, as functions over the queue contents and as a `Worker` class whose methods change its queues |
| `Submission` | `submission.dfy` | the body of `imap_unordered` after the workers are started: the unlimited and the limited submission loops and the final blocking gets, over queue values |
| `Ordering` | `ordering.dfy` | the order restoration of `imap` (a streaming loop over a buffer dictionary, then a flush in key order) and of `map` (a sort by index) |
| `Promises` | `promises.dfy` | what the four map calls promise: their outcome for given workers and arguments, and the queues they leave |
| `Pools` | `pools.dfy` | the `WorkerPool` class: fields, lifecycle methods and the four map calls |

Representation choices:

- A queue is a sequence. `Option<seq<…>>` in the pool stands for a queue or `None`.
- The work function is a Dafny function `f: (Option<S>, A) -> R`. `f(None, a)` stands for `func_pointer(*a)` and `f(Some(s), a)` for `func_pointer(s, *a)`.
- An element of a chunk is `Plain(args)`. When `map` or `imap` has enumerated the input, it is `Indexed(i, args)`. A call whose shape does not fit the mode raises. This covers helper_func receiving shared objects it has no parameter for.
- The workers run beside the submitting loop. Their progress is a parameter `env: seq<nat>`: on each turn, a value `j` below the queue length means some worker finishes task-queue entry `j` during that turn. Once `env` is used up, the head entry is finished on every turn. A call that would wait with nothing left able to change ends as `Hangs`, carrying what it yielded before.
- `cpu_count()` is a parameter `cpuCount`.
- `restart_workers` is the parameter `restart`, with the source's defaults: `true` for `imap_unordered`, `false` for `map_unordered`, `imap` and `map`.

## Model

| member | source | states |
|---|---|---|
| Chunking.DeriveChunkSize | workerpool/workerpool.py:385-394 | an explicit chunk size is used as given; otherwise the length comes from iterable_len first and from len() second, and with neither a ValueError (MissingLength) is raised; with no workers the division raises ZeroDivision; otherwise the size is the ceiling of length / (4 · workers) |
| Chunking.LengthOf | workerpool/workerpool.py:386-392 | the length is iterable_len when given, len() of the input otherwise, and with neither the ValueError MissingLength is raised |
| Chunking.CeilDiv | workerpool/workerpool.py:387-394 | divmod followed by "add one if there is a remainder" is the ceiling of the division, for every length and positive divisor |
| Chunking.SliceChunks | workerpool/workerpool.py:397-402 | a negative size raises; size 0 gives no chunks at all; a positive size gives consecutive non-empty chunks whose concatenation is exactly the input, all of the full size except possibly the last, ceil(len / size) of them, and none for an empty input |
| Chunking.ChunkTasks | workerpool/workerpool.py:370-402 | chunk_tasks end to end: the errors of the size derivation, then the slicing with the derived size |
| Workers.CallOn | workerpool/workerpool.py:33-62 | one call fits exactly when the element is enumerated if and only if the order event is set, and, with the event set, there are no shared objects; it then gives the pair (idx, f(*args)) from helper_func with the event set, and f(*args) or f(shared, *args) without it |
| Workers.Outputs | workerpool/workerpool.py:33-62 | the list comprehension over a chunk succeeds exactly when every element fits the call mode, and then gives one result per element, in chunk order |
| Workers.ProcessChunk | workerpool/workerpool.py:57-65 | with shared objects and no return value, nothing is put for a chunk |
| Workers.ChunkOutcome | workerpool/workerpool.py:55-65 | a chunk raises exactly when one of its elements does not fit; it is silent exactly with shared objects and no return value; otherwise its batch holds each element's result at that element's position |
| Workers.OrderedChunk | workerpool/workerpool.py:33-59 | with the order event set and no shared objects, an indexed chunk gives the pairs (index, f(*args)) and keeps every index |
| Workers.PlainChunk | workerpool/workerpool.py:58-62 | without the order event, a plain chunk gives f(*args), or f(shared, *args) when the function has a return value |
| Workers.RunEnds | workerpool/workerpool.py:47-65 | a worker run over any queue content consumes a prefix and leaves the rest queued; it exits just after a pill, crashes just after a chunk that raises, or blocks on the empty queue having consumed everything; no chunk before that point raises, and at most one batch is put per chunk consumed |
| Workers.RunChunksThenPill | workerpool/workerpool.py:47-62 | a worker run over chunks that all put a batch, followed by a pill, puts one batch per chunk in queue order, exits, and leaves everything after the pill unread |
| Workers.RunWithoutReturnPutsNothing | workerpool/workerpool.py:58-65 | with shared objects and no return value, a worker run never puts anything on the result queue |
| Workers.RunStopsAtPill | workerpool/workerpool.py:47-52 | a worker run consumes everything up to and including the first pill, exits on it, and leaves the entries after it queued |
| Workers.TakeKeeps | workerpool/workerpool.py:47-52 | one read of the queue head by any worker keeps the queue a suffix of what was put, keeps every worker from crashing when no chunk left raises, and keeps as many pills queued as workers running |
| Workers.InterleaveKeeps | workerpool/workerpool.py:47-52 | the same holds after any interleaving of reads by the workers |
| Workers.OnePillPerWorker | workerpool/workerpool.py:133-138 | with one pill per worker after chunks that do not raise, for any interleaving of the workers' reads: no worker crashes, every worker still running has a pill left in the queue, and the queue is empty exactly when every worker has exited |
| Workers.Worker.Step | workerpool/workerpool.py:47-65 | one loop iteration: it blocks on an empty queue; otherwise it removes the head; on a pill it exits; on a chunk it appends the batch, puts nothing, or crashes, as the chunk's outcome says |
| Workers.Worker.Run | workerpool/workerpool.py:42-65 | after the loop, the worker's queues and state are those the run function describes for the queue it started from |
| Submission.ResolveLimit | workerpool/workerpool.py:341-343 | no limit exactly for None; an integer limit is kept as given; 'n_jobs*2' becomes twice the number of workers |
| Submission.EmittedPermutation | workerpool/workerpool.py:344-368 | the results yielded depend only on which entries were finished, not on the order the workers finished them, up to permutation |
| Submission.ResultsOfChunks | workerpool/workerpool.py:59-62 | when every chunk puts its batch, the batches flattened are the results for the flattened input, in input order |
| Submission.InFlightCount | workerpool/workerpool.py:343-356 | when every chunk puts its batch, n_active (chunks submitted minus batches taken) equals the number of entries queued plus batches waiting |
| Submission.AllCollected | workerpool/workerpool.py:366-368 | once one batch per chunk was taken, both queues are empty, every chunk put its batch, and the results yielded are a permutation of the results of all chunks |
| Submission.Turn | workerpool/workerpool.py:47-62 | one turn of the workers finishes at most one queued entry: that entry leaves the task queue, and its batch, if any, is appended to the result queue |
| Submission.BlockingGet | workerpool/workerpool.py:367-368 | a blocking get waits, while the workers take turns, until a batch is there or nothing can change any more |
| Submission.Drain | workerpool/workerpool.py:366-368 | the final gets either take one batch per chunk and yield them all, or end waiting forever with fewer batches taken, the result queue empty and no task a worker could still finish |
| Submission.UnlimitedSubmit | workerpool/workerpool.py:343-346 | without a limit, every chunk is submitted and n_active equals the number of chunks |
| Submission.Poll | workerpool/workerpool.py:357-362 | a non-blocking get takes at most one batch: the polled batches only grow, and n_active drops by one exactly when one batch was taken, otherwise it is unchanged; the bookkeeping invariant survives it |
| Submission.LimitedSubmit | workerpool/workerpool.py:347-362 | with a limit k > 0, n_active stays between 0 and k on every round of the loop (its invariant) and at its end; the loop ends when the chunks are exhausted, or waits forever at the limit with nothing able to progress |
| Submission.Round | workerpool/workerpool.py:348-362 | one pass of the limited loop that does not stop: a chunk is added only while fewer than k are active, n_active stays between 0 and k and the bookkeeping invariant survives; outside the spinning state the pass lowers the loop's measure or spends a turn of the workers, so the loop ends or spins |
| Submission.SubmitAndCollect | workerpool/workerpool.py:338-368 | 'n_jobs*2' means twice the workers; a limit ≤ 0 raises before any chunking error; otherwise chunking errors propagate; n_active keeps within the limit through LimitedSubmit; both exceptions are raised before anything is put, so both queues are left as they were; with fresh queues the call completes exactly when there are no chunks, or there is a worker and every chunk puts its batch, and then it yields a permutation of all results and leaves both queues empty |
| Ordering.PairPrefix | workerpool/workerpool.py:283 | the number of results before the first one that does not unpack as a pair: all before it are pairs, and it is a result that is not a pair unless it is the end |
| Ordering.ReleaseDue | workerpool/workerpool.py:288-293 | the while-true loop yields the buffered values from the cursor on while their keys are present, in key order, advances the cursor past them, removes exactly those keys, and stops at the first key not buffered |
| Ordering.Stream | workerpool/workerpool.py:283-302 | the streaming loop of imap unpacks each result before it releases anything: it raises exactly when a result is not a pair; the cursor counts the values yielded, and for any results it is the one value StreamCursor gives for the pairs before the raise: the least index not received before the last of them, plus one when that last pair carries exactly that index; when the pairs before the raise (or all results) are part of a permutation of the pairs (i, v[i]), it has yielded exactly a prefix of v and buffers only later indices with their values; on a full permutation the buffer holds exactly the indices from the cursor to the end |
| Ordering.Flush | workerpool/workerpool.py:303-305 | for any buffer, the final loop yields the buffered values in strictly ascending key order, every key exactly once, each with the value stored under it; for the buffer a full permutation leaves, it yields the rest of v |
| Ordering.Take | workerpool/workerpool.py:287-300 | one round of imap's `for` over a pair: after the `while True` release the cursor is the least index not yet received, then the pair is yielded exactly when its index is that cursor, otherwise buffered; every index below the cursor was received, every received index from the cursor on is buffered, only received indices are buffered; on part of a permutation what was yielded stays v up to the cursor |
| Ordering.StreamCursorUnique | workerpool/workerpool.py:287-300 | the cursor position StreamCursor describes after a run of pairs is a single value, so the number of values imap has yielded is fixed by the pairs it received |
| Ordering.StreamCursorExample | workerpool/workerpool.py:282-300 | on the results (1, a), (0, b) followed by one that is not a pair, imap yields exactly one value before it raises |
| Ordering.Reorder | workerpool/workerpool.py:277-308 | imap's reordering as a whole: exceptions pass through; a completed permutation of the pairs (i, v[i]) gives exactly v; a stream that waits forever has yielded as many values as StreamCursor fixes for the pairs it received and, on part of a permutation, a prefix of v; a result that is not a pair raises, and every other exception comes from the stream |
| Ordering.SortByIndex | workerpool/workerpool.py:227 | sorted(…, key=index) gives a permutation of its input, non-decreasing in the index |
| Ordering.MapOrder | workerpool/workerpool.py:227 | the final list raises exactly when a result is not a pair, and otherwise has one value per result |
| Ordering.MapRestoresOrder | workerpool/workerpool.py:220-227 | sorting any permutation of the pairs (i, v[i]) by index and keeping the values gives exactly v |
| Pools.ChunkedResults | workerpool/workerpool.py:385-402 | for a positive chunk size, every chunk puts its batch exactly when the input is empty, or every call succeeds and a return value is kept, and then the batches are the outputs of the whole input |
| Pools.IndexedOutputs | workerpool/workerpool.py:33-40 | in ordered mode without shared objects, the enumerated input gives exactly the pairs (i, f(*args[i])) |
| Pools.UnorderedFromChunks | workerpool/workerpool.py:310-368 | on chunks from chunk_tasks, the submission outcome meets imap_unordered's promise: errors in the order raised, no results for chunk size 0, and with fresh workers completion exactly when the input is empty or every call succeeds with a kept return value, yielding every result once |
| Pools.OrderedFromUnordered | workerpool/workerpool.py:193-308 | reordering an imap_unordered outcome over enumerated arguments meets map's and imap's promise: with fresh workers, completion exactly when the input is empty or there are workers and no shared objects, yielding f(*args) for each argument in input order |
| Pools.SpawnCount | workerpool/workerpool.py:110 | n_jobs workers when given, cpu_count() - 1 otherwise, and none when that bound is not positive (range of a negative number is empty) |
| Pools.Collect | workerpool/workerpool.py:334-368 | imap_unordered after the start: chunk, submit and collect, with the promised outcome; an exception leaves both queues as they were, and a completed call from empty queues leaves them empty |
| Pools.RestoreStreamed | workerpool/workerpool.py:277-306 | imap after imap_unordered: the streamed order restoration meets the ordered promise; it completes only a completed stream, and raises something other than NotAPair only when the stream did, so the queue facts of imap_unordered carry over |
| Pools.RestoreSorted | workerpool/workerpool.py:220-227 | map after map_unordered: the sort meets the ordered promise; it is reached exactly when map_unordered returned, and the queue facts of map_unordered carry over |
| Pools.WorkerPool.constructor | workerpool/workerpool.py:72-82 | a new pool has no queues, no workers, no shared objects and the order event cleared |
| Pools.WorkerPool.SetSharedObjects | workerpool/workerpool.py:84-96 | only the shared objects and the has-return flag change |
| Pools.WorkerPool.InsertPoisonPill | workerpool/workerpool.py:133-138 | exactly one pill per worker is appended to the task queue, and nothing else changes |
| Pools.WorkerPool.StopAndJoin | workerpool/workerpool.py:153-166 | with workers, the pills are sent and the workers and both queues are forgotten; without workers, nothing changes |
| Pools.WorkerPool.Terminate | workerpool/workerpool.py:168-176 | the fields are reset inside the loop over the workers, so with no workers the queues stay as they were |
| Pools.WorkerPool.Exit | workerpool/workerpool.py:184-191 | terminate runs exactly when a task queue exists and either queue still holds something; otherwise stop_and_join runs |
| Pools.WorkerPool.StartWorkers | workerpool/workerpool.py:98-115 | the old workers are stopped and joined; then two new empty queues exist and SpawnCount workers, all created with the same function, shared objects and flag |
| Pools.WorkerPool.IMapUnordered | workerpool/workerpool.py:310-368 | workers are started when there are none or a restart is asked for, before any error is raised; the outcome is the promised unordered one for those workers. An exception raised before anything is submitted leaves both queues as they were, or empty when this call started the workers; a completed call on fresh or empty queues leaves both empty, so that `__exit__` then stops and joins. |
| Pools.WorkerPool.MapUnordered | workerpool/workerpool.py:229-252 | the list of imap_unordered's results: the same promise and the same queues, and a call that waits forever returns nothing |
| Pools.WorkerPool.IMap | workerpool/workerpool.py:254-308 | completes iterable_len from len(), streams in input order, and clears the order event only after the last result was yielded; the queues as for imap_unordered, with NotAPair counted as raised after submission |
| Pools.WorkerPool.Map | workerpool/workerpool.py:193-227 | completes iterable_len from len(), returns the results in input order, and clears the order event once map_unordered has returned, even if the sort then raises; the queues as for imap_unordered, with NotAPair counted as raised after submission |

## Left out

- Real processes, queues shared between processes, and the races between them are not modelled. In particular, `Queue.empty()` in `__exit__` reads the actual queue contents. The workers' progress is the `env` parameter, and at most one entry is finished per turn.
- In the unlimited branch, the model gives the workers one turn after each chunk is put. Python's workers may run at any time; with `env` choosing which entry finishes, this only fixes when progress can happen, not which.
- Generators are consumed to the end. The laziness of `chunk_tasks` and of `imap`/`imap_unordered` is reflected only in the order errors are raised. A caller who stops iterating early is not modelled.
- `join` is modelled only through its effect on the fields. The deadlock its docstring warns about, worker processes dying, and pills left in a stale queue are not tracked: the number of live workers stays fixed during a call.
- `w.start()`, `w.terminate()` and `cpu_count()` are outside calls. The first two have no modelled effect, and `cpu_count()` is a parameter.
- `func_pointer` is an uninterpreted Dafny function, and the shared objects are an opaque value. A call that raises inside `func_pointer` itself is not modelled. Only the call-shape mismatches are: an element of the wrong form, and helper_func receiving shared objects.
- Workers.CallOn: an ordered element given to the plain function is always treated as a call that raises. This is a simplification, because a 2-tuple could also unpack into a two-parameter function.
- Workers.CallOn: a plain element handed to helper_func while the order event is set is also always treated as a call that raises, although `helper_func(*args)` succeeds when `args` is a 2-tuple. The event stays set after an `imap` or `map` that raised before its end, so this case is reachable.
- Ordering.Stream: a result that is a plain value always raises NotAPair, although a function that returns a 2-tuple would unpack in the `for` of imap. Values carry no structure in the model, so this case cannot be told apart.
- Ordering.MapOrder: likewise, a plain value always raises NotAPair, although `result[0]` and `result[1]` would index a returned tuple or list of length two or more.
- Ordering.SortByIndex: the order it gives to equal indices is not stated (Python's sort is stable); the indices are distinct whenever the results are a permutation of the enumerated pairs.
- Ordering.Reorder: if imap's stream raises part-way (NotAPair), the values it already yielded are not part of the outcome.
- Submission.SubmitAndCollect: for a call that waits forever, only the number of batches taken is stated, not that the values yielded are part of the results.
- `add_task`, `get_result` and `stop_workers` are one-line wrappers used inline. `__enter__` returns the pool and needs no model.
