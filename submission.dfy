/** The submission and collection loop of WorkerPool.imap_unordered, over
    the contents of the task queue and the result queue.

    Workers run beside the loop. Their progress is an oracle `env`: at each
    turn its next entry j says that a worker finishes task-queue entry j (an
    index past the end means nobody finishes anything this turn; j > 0 stands
    for several workers that took earlier entries and are still busy). Once
    the oracle is used up, the worker that took the oldest entry finishes it
    at every turn. A turn after which nothing can ever change is reported as
    a hang: the Python loop spins or blocks there forever. */
module Submission {
  import opened Tasks
  import opened Workers

  /** The batch, if any, that finishing one task-queue entry puts on the
      result queue. */
  function EmittedBy<A, R, S>(b: Binding<A, R, S>, order: bool, e: Entry<A>): seq<Batch<R>>
  {
    if e.Chunk? && ProcessChunk(b, order, e.items).Emit? then [ProcessChunk(b, order, e.items).batch] else []
  }

  /** The batches that finishing the entries of `done`, in that order, puts
      on the result queue. */
  function Emitted<A, R, S>(b: Binding<A, R, S>, order: bool, done: seq<Entry<A>>): (r: seq<Batch<R>>)
    ensures |r| <= |done|
  {
    if |done| == 0 then [] else EmittedBy(b, order, done[0]) + Emitted(b, order, done[1..])
  }

  ghost predicate Emits<A, R, S>(b: Binding<A, R, S>, order: bool, e: Entry<A>)
  {
    e.Chunk? && ProcessChunk(b, order, e.items).Emit?
  }

  ghost predicate AllEmit<A, R, S>(b: Binding<A, R, S>, order: bool, chunks: seq<seq<Item<A>>>)
  {
    forall k | 0 <= k < |chunks| :: ProcessChunk(b, order, chunks[k]).Emit?
  }

  /** Every element result the chunks produce, chunk after chunk. */
  ghost function Results<A, R, S>(b: Binding<A, R, S>, order: bool, chunks: seq<seq<Item<A>>>): seq<Out<R>>
  {
    Flatten(Emitted(b, order, WrapChunks(chunks)))
  }

  lemma {:induction false} EmittedAppend<A, R, S>(b: Binding<A, R, S>, order: bool, d1: seq<Entry<A>>, d2: seq<Entry<A>>)
    ensures Emitted(b, order, d1 + d2) == Emitted(b, order, d1) + Emitted(b, order, d2)
  {
    if |d1| == 0 {
      assert d1 + d2 == d2;
    } else {
      assert (d1 + d2)[1..] == d1[1..] + d2;
      EmittedAppend(b, order, d1[1..], d2);
    }
  }

  /** Each finished entry puts at most one batch; exactly one each iff they
      are all chunks that emit. */
  lemma {:induction false} EmittedCount<A, R, S>(b: Binding<A, R, S>, order: bool, d: seq<Entry<A>>)
    ensures |Emitted(b, order, d)| == |d| <==> forall k | 0 <= k < |d| :: Emits(b, order, d[k])
  {
    if |d| > 0 {
      EmittedCount(b, order, d[1..]);
      if |Emitted(b, order, d)| == |d| {
        assert Emits(b, order, d[0]);
        forall k | 0 <= k < |d| ensures Emits(b, order, d[k]) {
          if k > 0 { assert d[k] == d[1..][k - 1]; }
        }
      }
      if forall k | 0 <= k < |d| :: Emits(b, order, d[k]) {
        forall k | 0 <= k < |d| - 1 ensures Emits(b, order, d[1..][k]) {
          assert d[1..][k] == d[k + 1];
        }
      }
    }
  }

  /** The element results of finished entries, in finishing order. */
  ghost function EmittedResults<A, R, S>(b: Binding<A, R, S>, order: bool, done: seq<Entry<A>>): seq<Out<R>>
  {
    Flatten(Emitted(b, order, done))
  }

  lemma EmittedResultsAppend<A, R, S>(b: Binding<A, R, S>, order: bool, d1: seq<Entry<A>>, d2: seq<Entry<A>>)
    ensures EmittedResults(b, order, d1 + d2) == EmittedResults(b, order, d1) + EmittedResults(b, order, d2)
  {
    EmittedAppend(b, order, d1, d2);
    FlattenAppend(Emitted(b, order, d1), Emitted(b, order, d2));
  }

  /** Taking one entry out of the middle of a finishing order removes
      exactly that entry's results from the multiset of results. */
  lemma EmittedResultsRemove<A, R, S>(b: Binding<A, R, S>, order: bool, d: seq<Entry<A>>, i: nat)
    requires i < |d|
    ensures multiset(EmittedResults(b, order, d))
         == multiset(EmittedResults(b, order, [d[i]])) + multiset(EmittedResults(b, order, d[..i] + d[i + 1..]))
  {
    var p, x, s := d[..i], [d[i]], d[i + 1..];
    assert d == (p + x) + s;
    EmittedResultsAppend(b, order, p + x, s);
    EmittedResultsAppend(b, order, p, x);
    EmittedResultsAppend(b, order, p, s);
    var rp, rx, rs := EmittedResults(b, order, p), EmittedResults(b, order, x), EmittedResults(b, order, s);
    assert multiset(rp + rx + rs) == multiset(rp) + multiset(rx) + multiset(rs);
    assert multiset(rp + rs) == multiset(rp) + multiset(rs);
  }

  /** The results put for a set of finished entries do not depend on the
      order the entries finished in, as a multiset. */
  lemma {:induction false} EmittedPermutation<A, R, S>(b: Binding<A, R, S>, order: bool, d1: seq<Entry<A>>, d2: seq<Entry<A>>)
    requires multiset(d1) == multiset(d2)
    ensures multiset(EmittedResults(b, order, d1)) == multiset(EmittedResults(b, order, d2))
    decreases |d1|
  {
    if |d1| == 0 {
      assert |multiset(d2)| == 0;
      assert d2 == [];
    } else {
      var x := d1[0];
      assert x in multiset(d2);
      var i :| 0 <= i < |d2| && d2[i] == x;
      var rest := d2[..i] + d2[i + 1..];
      assert d2 == d2[..i] + [x] + d2[i + 1..];
      assert d1 == [x] + d1[1..];
      assert multiset(d1) == multiset(d1[1..]) + multiset{x};
      assert multiset(d2) == multiset(rest) + multiset{x} by {
        assert multiset(d2) == multiset(d2[..i]) + multiset{x} + multiset(d2[i + 1..]);
      }
      MultisetCancel(x, multiset(d1[1..]), multiset(rest));
      EmittedPermutation(b, order, d1[1..], rest);
      EmittedResultsRemove(b, order, d2, i);
      EmittedResultsRemove(b, order, d1, 0);
      assert d1[..0] + d1[1..] == d1[1..];
    }
  }

  /** When every chunk emits, the results are the element results of the
      concatenated chunks, in order. */
  lemma {:induction false} ResultsOfChunks<A, R, S>(b: Binding<A, R, S>, order: bool, chunks: seq<seq<Item<A>>>)
    requires AllEmit(b, order, chunks)
    ensures Outputs(b, order, Flatten(chunks)).Some?
    ensures Results(b, order, chunks) == Outputs(b, order, Flatten(chunks)).value
  {
    if |chunks| > 0 {
      assert AllEmit(b, order, chunks[1..]) by {
        forall k | 0 <= k < |chunks| - 1 ensures ProcessChunk(b, order, chunks[1..][k]).Emit? {
          assert chunks[1..][k] == chunks[k + 1];
        }
      }
      ResultsOfChunks(b, order, chunks[1..]);
      assert WrapChunks(chunks)[1..] == WrapChunks(chunks[1..]);
      var head := ProcessChunk(b, order, chunks[0]).batch;
      var tail := Outputs(b, order, Flatten(chunks[1..])).value;
      assert Results(b, order, chunks) == head + tail by {
        assert Emitted(b, order, WrapChunks(chunks)) == [head] + Emitted(b, order, WrapChunks(chunks[1..]));
        assert Flatten([head] + Emitted(b, order, WrapChunks(chunks[1..])))
            == head + Flatten(Emitted(b, order, WrapChunks(chunks[1..])));
      }
      var all := Flatten(chunks);
      assert all == chunks[0] + Flatten(chunks[1..]);
      forall i | 0 <= i < |all| ensures CallOn(b, order, all[i]).Some? &&
                                        (head + tail)[i] == CallOn(b, order, all[i]).value {
        if i < |chunks[0]| {
          assert all[i] == chunks[0][i];
        } else {
          assert all[i] == Flatten(chunks[1..])[i - |chunks[0]|];
        }
      }
    }
  }

  /** The bookkeeping the loop keeps: every entry that was queued before
      the call or submitted by it is still queued or has finished; what
      was left on the result queue plus what the finished entries put is
      what has been polled plus what is still there; without workers
      nothing finishes. */
  ghost predicate Accounted<A, R, S>(b: Binding<A, R, S>, order: bool, hasWorker: bool,
                                         tq0: seq<Entry<A>>, rq0: seq<Batch<R>>, chunks: seq<seq<Item<A>>>, next: nat,
                                         tq: seq<Entry<A>>, rq: seq<Batch<R>>, done: seq<Entry<A>>, polled: seq<Batch<R>>)
  {
    && next <= |chunks|
    && multiset(tq0) + multiset(WrapChunks(chunks[..next])) == multiset(tq) + multiset(done)
    && |tq0| + next == |tq| + |done|
    && polled + rq == rq0 + Emitted(b, order, done)
    && (!hasWorker ==> |done| == 0)
  }

  lemma AccountStart<A, R, S>(b: Binding<A, R, S>, order: bool, hasWorker: bool, tq0: seq<Entry<A>>, rq0: seq<Batch<R>>, chunks: seq<seq<Item<A>>>)
    ensures Accounted(b, order, hasWorker, tq0, rq0, chunks, 0, tq0, rq0, [], [])
  {
    assert chunks[..0] == [];
    assert WrapChunks(chunks[..0]) == [];
  }

  lemma AccountSubmit<A, R, S>(b: Binding<A, R, S>, order: bool, hasWorker: bool,
                                   tq0: seq<Entry<A>>, rq0: seq<Batch<R>>, chunks: seq<seq<Item<A>>>, next: nat,
                                   tq: seq<Entry<A>>, rq: seq<Batch<R>>, done: seq<Entry<A>>, polled: seq<Batch<R>>)
    requires Accounted(b, order, hasWorker, tq0, rq0, chunks, next, tq, rq, done, polled)
    requires next < |chunks|
    ensures Accounted(b, order, hasWorker, tq0, rq0, chunks, next + 1, tq + [Chunk(chunks[next])], rq, done, polled)
  {
    var w, x := WrapChunks(chunks[..next]), Chunk(chunks[next]);
    assert chunks[..next + 1] == chunks[..next] + [chunks[next]];
    assert WrapChunks(chunks[..next + 1]) == w + [x] by {
      WrapAppend(chunks[..next], chunks[next]);
    }
    assert multiset(w + [x]) == multiset(w) + multiset{x};
    assert multiset(tq + [x]) == multiset(tq) + multiset{x};
    MultisetAddBoth(multiset(tq0), multiset(w), multiset(tq), multiset(done), multiset{x});
  }

  lemma MultisetAddBoth<T>(a: multiset<T>, b: multiset<T>, c: multiset<T>, d: multiset<T>, x: multiset<T>)
    requires a + b == c + d
    ensures a + (b + x) == (c + x) + d
  {
    assert a + (b + x) == (a + b) + x;
    assert (c + x) + d == (c + d) + x;
  }

  lemma {:induction false} WrapAppend<A>(chunks: seq<seq<Item<A>>>, c: seq<Item<A>>)
    ensures WrapChunks(chunks + [c]) == WrapChunks(chunks) + [Chunk(c)]
  {
    if |chunks| > 0 {
      assert (chunks + [c])[1..] == chunks[1..] + [c];
      WrapAppend(chunks[1..], c);
    }
  }

  lemma AccountFinish<A, R, S>(b: Binding<A, R, S>, order: bool, hasWorker: bool,
                                   tq0: seq<Entry<A>>, rq0: seq<Batch<R>>, chunks: seq<seq<Item<A>>>, next: nat,
                                   tq: seq<Entry<A>>, rq: seq<Batch<R>>, done: seq<Entry<A>>, polled: seq<Batch<R>>,
                                   tq': seq<Entry<A>>, rq': seq<Batch<R>>, fin: seq<Entry<A>>)
    requires Accounted(b, order, hasWorker, tq0, rq0, chunks, next, tq, rq, done, polled)
    requires multiset(tq) == multiset(tq') + multiset(fin) && |tq| == |tq'| + |fin|
    requires rq' == rq + Emitted(b, order, fin)
    requires !hasWorker ==> fin == []
    ensures Accounted(b, order, hasWorker, tq0, rq0, chunks, next, tq', rq', done + fin, polled)
  {
    EmittedAppend(b, order, done, fin);
    assert multiset(done + fin) == multiset(done) + multiset(fin);
    MultisetMove(multiset(tq0) + multiset(WrapChunks(chunks[..next])), multiset(tq), multiset(done), multiset(tq'), multiset(fin));
    SeqMove(polled, rq, rq0, Emitted(b, order, done), Emitted(b, order, fin));
    assert |tq0| + next == |tq'| + |done + fin|;
  }

  lemma MultisetMove<T>(all: multiset<T>, t: multiset<T>, d: multiset<T>, t': multiset<T>, f: multiset<T>)
    requires all == t + d && t == t' + f
    ensures all == t' + (d + f)
  {
  }

  lemma SeqMove<T>(p: seq<T>, q: seq<T>, q0: seq<T>, e: seq<T>, x: seq<T>)
    requires p + q == q0 + e
    ensures p + (q + x) == q0 + (e + x)
  {
    assert p + (q + x) == (p + q) + x;
    assert q0 + (e + x) == (q0 + e) + x;
  }

  lemma AccountPoll<A, R, S>(b: Binding<A, R, S>, order: bool, hasWorker: bool,
                                 tq0: seq<Entry<A>>, rq0: seq<Batch<R>>, chunks: seq<seq<Item<A>>>, next: nat,
                                 tq: seq<Entry<A>>, rq: seq<Batch<R>>, done: seq<Entry<A>>, polled: seq<Batch<R>>)
    requires Accounted(b, order, hasWorker, tq0, rq0, chunks, next, tq, rq, done, polled)
    requires |rq| > 0
    ensures Accounted(b, order, hasWorker, tq0, rq0, chunks, next, tq, rq[1..], done, polled + [rq[0]])
  {
    assert rq == [rq[0]] + rq[1..];
    assert (polled + [rq[0]]) + rq[1..] == polled + rq;
  }

  /** Starting from empty queues with chunks that all emit, the chunks in
      flight (submitted, not yet polled) are exactly those still queued or
      waiting as batches: none is lost. */
  lemma InFlightCount<A, R, S>(b: Binding<A, R, S>, order: bool, hasWorker: bool,
                                   chunks: seq<seq<Item<A>>>, next: nat,
                                   tq: seq<Entry<A>>, rq: seq<Batch<R>>, done: seq<Entry<A>>, polled: seq<Batch<R>>)
    requires Accounted(b, order, hasWorker, [], [], chunks, next, tq, rq, done, polled)
    requires AllEmit(b, order, chunks)
    ensures next - |polled| == |tq| + |rq|
  {
    var wrapped := WrapChunks(chunks[..next]);
    assert multiset(wrapped) == multiset(tq) + multiset(done);
    forall k | 0 <= k < |done| ensures Emits(b, order, done[k]) {
      assert done[k] in multiset(done);
      assert done[k] in multiset(wrapped);
      var m :| 0 <= m < |wrapped| && wrapped[m] == done[k];
      assert wrapped[m] == Chunk(chunks[m]);
    }
    EmittedCount(b, order, done);
  }

  /** Starting from empty queues, once every chunk was submitted and as many
      batches polled, nothing is left queued, every chunk emitted, and the
      polled batches hold exactly the results of all chunks. */
  lemma AllCollected<A, R, S>(b: Binding<A, R, S>, order: bool, hasWorker: bool,
                                      chunks: seq<seq<Item<A>>>,
                                      tq: seq<Entry<A>>, rq: seq<Batch<R>>, done: seq<Entry<A>>, polled: seq<Batch<R>>)
    requires Accounted(b, order, hasWorker, [], [], chunks, |chunks|, tq, rq, done, polled)
    requires |polled| == |chunks|
    ensures tq == [] && rq == []
    ensures AllEmit(b, order, chunks)
    ensures |chunks| > 0 ==> hasWorker
    ensures multiset(Flatten(polled)) == multiset(Results(b, order, chunks))
  {
    assert chunks[..|chunks|] == chunks;
    var em := Emitted(b, order, done);
    assert |polled| + |rq| == |em| <= |done|;
    assert |tq| == 0 && |rq| == 0;
    assert polled == polled + rq;
    assert em == [] + em;
    assert polled == em;
    EmittedCount(b, order, done);
    var tq0: seq<Entry<A>> := [];
    assert multiset(tq0) + multiset(WrapChunks(chunks[..|chunks|])) == multiset(tq) + multiset(done);
    assert multiset(tq0) == multiset{} && multiset(tq) == multiset{};
    assert WrapChunks(chunks[..|chunks|]) == WrapChunks(chunks);
    calc {
      multiset(WrapChunks(chunks));
      multiset(tq0) + multiset(WrapChunks(chunks[..|chunks|]));
      multiset(tq) + multiset(done);
      multiset(done);
    }
    forall k | 0 <= k < |chunks| ensures ProcessChunk(b, order, chunks[k]).Emit? {
      assert WrapChunks(chunks)[k] == Chunk(chunks[k]);
      assert Chunk(chunks[k]) in multiset(done);
      var m :| 0 <= m < |done| && done[m] == Chunk(chunks[k]);
      assert Emits(b, order, done[m]);
    }
    EmittedPermutation(b, order, done, WrapChunks(chunks));
    assert Flatten(polled) == EmittedResults(b, order, done);
  }

  /** Taking entry j out of a queue. */
  lemma TakeOut<T>(q: seq<T>, j: int)
    requires 0 <= j < |q|
    ensures |q| == |q[..j] + q[j + 1..]| + 1
    ensures multiset(q) == multiset(q[..j] + q[j + 1..]) + multiset([q[j]])
  {
    assert q == q[..j] + [q[j]] + q[j + 1..];
  }

  lemma EmittedOne<A, R, S>(b: Binding<A, R, S>, order: bool, e: Entry<A>)
    ensures Emitted(b, order, [e]) == EmittedBy(b, order, e)
  {
    assert Emitted(b, order, [e]) == EmittedBy(b, order, e) + Emitted(b, order, []);
  }

  /** One turn of the workers beside the loop. */
  method Turn<A, R, S>(b: Binding<A, R, S>, order: bool, hasWorker: bool, tq: seq<Entry<A>>, rq: seq<Batch<R>>, env: seq<nat>)
    returns (tq': seq<Entry<A>>, rq': seq<Batch<R>>, env': seq<nat>, ghost fin: seq<Entry<A>>)
    ensures env' == if |env| > 0 then env[1..] else env
    ensures |fin| <= 1 && |tq| == |tq'| + |fin|
    ensures multiset(tq) == multiset(tq') + multiset(fin)
    ensures rq' == rq + Emitted(b, order, fin)
    ensures !hasWorker ==> fin == []
    ensures hasWorker && |env| == 0 && |tq| > 0 ==> |fin| == 1
  {
    env' := if |env| > 0 then env[1..] else env;
    var j := if |env| > 0 then env[0] else 0;
    if hasWorker && j < |tq| {
      var e := tq[j];
      tq' := tq[..j] + tq[j + 1..];
      rq' := rq + EmittedBy(b, order, e);
      fin := [e];
      TakeOut(tq, j);
      EmittedOne(b, order, e);
    } else {
      tq', rq', fin := tq, rq, [];
    }
  }

  /** What the loop keeps between two turns: the bookkeeping above, the
      n_active counter (chunks submitted minus batches polled), and the
      elements yielded so far (the polled batches, concatenated). */
  ghost predicate Inv<A, R, S>(b: Binding<A, R, S>, order: bool, hasWorker: bool,
                               tq0: seq<Entry<A>>, rq0: seq<Batch<R>>, chunks: seq<seq<Item<A>>>, next: nat, na: int,
                               tq: seq<Entry<A>>, rq: seq<Batch<R>>, done: seq<Entry<A>>, polled: seq<Batch<R>>, items: seq<Out<R>>)
  {
    && Accounted(b, order, hasWorker, tq0, rq0, chunks, next, tq, rq, done, polled)
    && na == next - |polled|
    && items == Flatten(polled)
  }

  lemma InvPoll<A, R, S>(b: Binding<A, R, S>, order: bool, hasWorker: bool,
                         tq0: seq<Entry<A>>, rq0: seq<Batch<R>>, chunks: seq<seq<Item<A>>>, next: nat, na: int,
                         tq: seq<Entry<A>>, rq: seq<Batch<R>>, done: seq<Entry<A>>, polled: seq<Batch<R>>, items: seq<Out<R>>)
    requires Inv(b, order, hasWorker, tq0, rq0, chunks, next, na, tq, rq, done, polled, items)
    requires |rq| > 0
    ensures Inv(b, order, hasWorker, tq0, rq0, chunks, next, na - 1, tq, rq[1..], done, polled + [rq[0]], items + rq[0])
  {
    AccountPoll(b, order, hasWorker, tq0, rq0, chunks, next, tq, rq, done, polled);
    FlattenAppend(polled, [rq[0]]);
    assert Flatten([rq[0]]) == rq[0] + Flatten([]);
  }

  /** Two rounds of finished entries compose into one. */
  lemma FinishMore<A, R, S>(b: Binding<A, R, S>, order: bool, tq: seq<Entry<A>>, rq: seq<Batch<R>>,
                            t1: seq<Entry<A>>, r1: seq<Batch<R>>, f1: seq<Entry<A>>,
                            t2: seq<Entry<A>>, r2: seq<Batch<R>>, f2: seq<Entry<A>>)
    requires |tq| == |t1| + |f1| && multiset(tq) == multiset(t1) + multiset(f1) && r1 == rq + Emitted(b, order, f1)
    requires |t1| == |t2| + |f2| && multiset(t1) == multiset(t2) + multiset(f2) && r2 == r1 + Emitted(b, order, f2)
    ensures |tq| == |t2| + |f1 + f2| && multiset(tq) == multiset(t2) + multiset(f1 + f2)
    ensures r2 == rq + Emitted(b, order, f1 + f2)
  {
    EmittedAppend(b, order, f1, f2);
    assert multiset(f1 + f2) == multiset(f1) + multiset(f2);
    SeqMove([], r1, rq, Emitted(b, order, f1), Emitted(b, order, f2));
  }

  /** The blocking results_queue.get(): the workers take turns until a batch
      is there, or until nothing can change any more. */
  method BlockingGet<A, R, S>(b: Binding<A, R, S>, order: bool, hasWorker: bool, tq: seq<Entry<A>>, rq: seq<Batch<R>>, env: seq<nat>)
    returns (tq': seq<Entry<A>>, rq': seq<Batch<R>>, env': seq<nat>, ghost fin: seq<Entry<A>>)
    ensures |rq'| > 0 || (|rq'| == 0 && |env'| == 0 && (!hasWorker || |tq'| == 0))
    ensures |rq| > 0 ==> tq' == tq && rq' == rq && env' == env
    ensures |tq| == |tq'| + |fin|
    ensures multiset(tq) == multiset(tq') + multiset(fin)
    ensures rq' == rq + Emitted(b, order, fin)
    ensures !hasWorker ==> fin == []
  {
    tq', rq', env', fin := tq, rq, env, [];
    assert rq + [] == rq;
    while |rq'| == 0 && (|env'| > 0 || (hasWorker && |tq'| > 0))
      invariant |rq| > 0 ==> tq' == tq && rq' == rq && env' == env
      invariant |tq| == |tq'| + |fin|
      invariant multiset(tq) == multiset(tq') + multiset(fin)
      invariant rq' == rq + Emitted(b, order, fin)
      invariant !hasWorker ==> fin == []
      decreases |tq'| + |env'|
    {
      var t2, r2, e2, f2 := Turn(b, order, hasWorker, tq', rq', env');
      FinishMore(b, order, tq, rq, tq', rq', fin, t2, r2, f2);
      tq', rq', env', fin := t2, r2, e2, fin + f2;
    }
  }

  /** The final loop of imap_unordered: one blocking get per chunk still
      active, yielding its elements. */
  method Drain<A, R, S>(b: Binding<A, R, S>, order: bool, hasWorker: bool,
                        tq0: seq<Entry<A>>, rq0: seq<Batch<R>>, chunks: seq<seq<Item<A>>>, na: int,
                        tq: seq<Entry<A>>, rq: seq<Batch<R>>, env: seq<nat>,
                        ghost done: seq<Entry<A>>, ghost polled: seq<Batch<R>>, items: seq<Out<R>>)
    returns (out: Outcome<Out<R>>, tq': seq<Entry<A>>, rq': seq<Batch<R>>, ghost done': seq<Entry<A>>, ghost polled': seq<Batch<R>>)
    requires na >= 0
    requires Inv(b, order, hasWorker, tq0, rq0, chunks, |chunks|, na, tq, rq, done, polled, items)
    ensures out.Done? || out.Hangs?
    ensures polled <= polled'
    ensures Accounted(b, order, hasWorker, tq0, rq0, chunks, |chunks|, tq', rq', done', polled')
    ensures out.Done? ==> out.items == Flatten(polled') && |polled'| == |chunks|
    ensures out.Hangs? ==> out.yielded == Flatten(polled') && |polled'| < |chunks|
    ensures out.Hangs? ==> |rq'| == 0 && (!hasWorker || |tq'| == 0)
  {
    var n, ys, env' := na, items, env;
    tq', rq', done', polled' := tq, rq, done, polled;
    while n > 0
      invariant n >= 0
      invariant polled <= polled'
      invariant Inv(b, order, hasWorker, tq0, rq0, chunks, |chunks|, n, tq', rq', done', polled', ys)
      decreases n
    {
      var t2, r2, e2, f2 := BlockingGet(b, order, hasWorker, tq', rq', env');
      AccountFinish(b, order, hasWorker, tq0, rq0, chunks, |chunks|, tq', rq', done', polled', t2, r2, f2);
      tq', rq', env', done' := t2, r2, e2, done' + f2;
      if |rq'| == 0 {
        return Hangs(ys), tq', rq', done', polled';
      }
      InvPoll(b, order, hasWorker, tq0, rq0, chunks, |chunks|, n, tq', rq', done', polled', ys);
      ys, polled', rq', n := ys + rq'[0], polled' + [rq'[0]], rq'[1..], n - 1;
    }
    out := Done(ys);
  }

  lemma InvSubmit<A, R, S>(b: Binding<A, R, S>, order: bool, hasWorker: bool,
                           tq0: seq<Entry<A>>, rq0: seq<Batch<R>>, chunks: seq<seq<Item<A>>>, next: nat, na: int,
                           tq: seq<Entry<A>>, rq: seq<Batch<R>>, done: seq<Entry<A>>, polled: seq<Batch<R>>, items: seq<Out<R>>)
    requires Inv(b, order, hasWorker, tq0, rq0, chunks, next, na, tq, rq, done, polled, items)
    requires next < |chunks|
    ensures Inv(b, order, hasWorker, tq0, rq0, chunks, next + 1, na + 1, tq + [Chunk(chunks[next])], rq, done, polled, items)
  {
    AccountSubmit(b, order, hasWorker, tq0, rq0, chunks, next, tq, rq, done, polled);
  }

  /** The "max_tasks_active is None" branch: add_task for every chunk, the
      workers taking turns beside it. */
  method UnlimitedSubmit<A, R, S>(b: Binding<A, R, S>, order: bool, hasWorker: bool,
                                  tq0: seq<Entry<A>>, rq0: seq<Batch<R>>, chunks: seq<seq<Item<A>>>, env: seq<nat>)
    returns (tq: seq<Entry<A>>, rq: seq<Batch<R>>, env': seq<nat>, ghost done: seq<Entry<A>>)
    ensures Inv(b, order, hasWorker, tq0, rq0, chunks, |chunks|, |chunks|, tq, rq, done, [], [])
  {
    tq, rq, env', done := tq0, rq0, env, [];
    AccountStart(b, order, hasWorker, tq0, rq0, chunks);
    var next := 0;
    while next < |chunks|
      invariant next <= |chunks|
      invariant Inv(b, order, hasWorker, tq0, rq0, chunks, next, next, tq, rq, done, [], [])
    {
      InvSubmit(b, order, hasWorker, tq0, rq0, chunks, next, next, tq, rq, done, [], []);
      tq, next := tq + [Chunk(chunks[next])], next + 1;
      var t2, r2, e2, f2 := Turn(b, order, hasWorker, tq, rq, env');
      AccountFinish(b, order, hasWorker, tq0, rq0, chunks, next, tq, rq, done, [], t2, r2, f2);
      tq, rq, env', done := t2, r2, e2, done + f2;
    }
  }

  /** One turn of the workers followed by the non-blocking
      results_queue.get(block=False) of the limited loop. The measure
      2 * |tq| + |rq| never grows; when it stays the same a turn of the
      oracle was spent, or nothing could have happened. */
  method Poll<A, R, S>(b: Binding<A, R, S>, order: bool, hasWorker: bool,
                       tq0: seq<Entry<A>>, rq0: seq<Batch<R>>, chunks: seq<seq<Item<A>>>, next: nat, na: int,
                       tq: seq<Entry<A>>, rq: seq<Batch<R>>, env: seq<nat>,
                       ghost done: seq<Entry<A>>, ghost polled: seq<Batch<R>>, items: seq<Out<R>>)
    returns (na': int, tq': seq<Entry<A>>, rq': seq<Batch<R>>, env': seq<nat>,
             ghost done': seq<Entry<A>>, ghost polled': seq<Batch<R>>, items': seq<Out<R>>)
    requires Inv(b, order, hasWorker, tq0, rq0, chunks, next, na, tq, rq, done, polled, items)
    ensures Inv(b, order, hasWorker, tq0, rq0, chunks, next, na', tq', rq', done', polled', items')
    ensures na' == na || na' == na - 1
    ensures polled <= polled' && (na' == na - 1 <==> |polled'| == |polled| + 1)
    ensures |env'| <= |env|
    ensures 2 * |tq'| + |rq'| <= 2 * |tq| + |rq|
    ensures 2 * |tq'| + |rq'| < 2 * |tq| + |rq| || |env'| < |env| || (|rq| == 0 && |env| == 0 && (!hasWorker || |tq| == 0))
  {
    var t2, r2, e2, f2 := Turn(b, order, hasWorker, tq, rq, env);
    AccountFinish(b, order, hasWorker, tq0, rq0, chunks, next, tq, rq, done, polled, t2, r2, f2);
    assert |Emitted(b, order, f2)| <= |f2|;
    tq', rq', env', done', polled', items', na' := t2, r2, e2, done + f2, polled, items, na;
    if |rq'| > 0 {
      InvPoll(b, order, hasWorker, tq0, rq0, chunks, next, na', tq', rq', done', polled', items');
      items', polled', rq', na' := items' + rq'[0], polled' + [rq'[0]], rq'[1..], na' - 1;
    }
  }

  /** The "max_tasks_active > 0" loop: add a chunk while fewer than k are
      active and chunks remain (leaving the loop once they are used up),
      let the workers take a turn, then poll the result queue without
      blocking. stuck reports the state in which the loop spins forever:
      k chunks active, no batch ready and no worker able to finish one.
      n_active never exceeds k. */
  method LimitedSubmit<A, R, S>(b: Binding<A, R, S>, order: bool, hasWorker: bool, k: int,
                                tq0: seq<Entry<A>>, rq0: seq<Batch<R>>, chunks: seq<seq<Item<A>>>, env: seq<nat>)
    returns (stuck: bool, next: nat, na: int, tq: seq<Entry<A>>, rq: seq<Batch<R>>, env': seq<nat>,
             ghost done: seq<Entry<A>>, ghost polled: seq<Batch<R>>, items: seq<Out<R>>)
    requires k > 0
    ensures 0 <= na <= k
    ensures Inv(b, order, hasWorker, tq0, rq0, chunks, next, na, tq, rq, done, polled, items)
    ensures !stuck ==> next == |chunks|
    ensures stuck ==> na >= k && |rq| == 0 && (!hasWorker || |tq| == 0)
  {
    stuck, next, na, tq, rq, env', done, polled, items := false, 0, 0, tq0, rq0, env, [], [], [];
    AccountStart(b, order, hasWorker, tq0, rq0, chunks);
    while true
      invariant 0 <= na <= k
      invariant Inv(b, order, hasWorker, tq0, rq0, chunks, next, na, tq, rq, done, polled, items)
      decreases 3 * (|chunks| - next) + 2 * |tq| + |rq|, |env'|
    {
      if na >= k && |rq| == 0 && |env'| == 0 && (!hasWorker || |tq| == 0) {
        stuck := true;
        return;
      }
      if na < k && next == |chunks| {
        break;
      }
      next, na, tq, rq, env', done, polled, items := Round(b, order, hasWorker, k, tq0, rq0, chunks,
                                                           next, na, tq, rq, env', done, polled, items);
    }
  }

  /** One pass of the body of that loop that does not leave it (the
      StopIteration of an exhausted iterator is handled by the caller): add
      the next chunk while fewer than k are active, let the workers take a
      turn and poll. Outside the state in which the loop spins, a pass
      lowers the measure of LimitedSubmit, or keeps it and spends a turn of
      the oracle. */
  method Round<A, R, S>(b: Binding<A, R, S>, order: bool, hasWorker: bool, k: int,
                        tq0: seq<Entry<A>>, rq0: seq<Batch<R>>, chunks: seq<seq<Item<A>>>, next: nat, na: int,
                        tq: seq<Entry<A>>, rq: seq<Batch<R>>, env: seq<nat>,
                        ghost done: seq<Entry<A>>, ghost polled: seq<Batch<R>>, items: seq<Out<R>>)
    returns (next': nat, na': int, tq': seq<Entry<A>>, rq': seq<Batch<R>>, env': seq<nat>,
             ghost done': seq<Entry<A>>, ghost polled': seq<Batch<R>>, items': seq<Out<R>>)
    requires 0 <= na <= k && 0 < k
    requires Inv(b, order, hasWorker, tq0, rq0, chunks, next, na, tq, rq, done, polled, items)
    requires !(na >= k && |rq| == 0 && |env| == 0 && (!hasWorker || |tq| == 0))
    requires !(na < k && next == |chunks|)
    ensures 0 <= na' <= k && Inv(b, order, hasWorker, tq0, rq0, chunks, next', na', tq', rq', done', polled', items')
    ensures var m, m' := 3 * (|chunks| - next) + 2 * |tq| + |rq|, 3 * (|chunks| - next') + 2 * |tq'| + |rq'|;
            m' < m || (m' == m && |env'| < |env|)
  {
    next', na', tq', rq', env', done', polled', items' := next, na, tq, rq, env, done, polled, items;
    if na < k {
      InvSubmit(b, order, hasWorker, tq0, rq0, chunks, next, na, tq, rq, done, polled, items);
      tq', next', na' := tq + [Chunk(chunks[next])], next + 1, na + 1;
    }
    assert 1 <= na' <= k;
    ghost var m1 := 3 * (|chunks| - next') + 2 * |tq'| + |rq'|;
    assert m1 < 3 * (|chunks| - next) + 2 * |tq| + |rq| || (next' == next && tq' == tq);
    na', tq', rq', env', done', polled', items' := Poll(b, order, hasWorker, tq0, rq0, chunks, next', na', tq', rq', env', done', polled', items');
  }

  /** max_tasks_active after 'n_jobs*2' is replaced by twice the number of
      workers; None stands for no limit. */
  function ResolveLimit(limit: MaxActive, nWorkers: nat): (k: Option<int>)
    ensures k.None? <==> limit == Unlimited
    ensures limit.Limit? ==> k == Some(limit.k)
    ensures limit == TwiceJobs ==> k == Some(2 * nWorkers) && k.value >= 0
  {
    match limit
    case Unlimited => None
    case Limit(k) => Some(k)
    case TwiceJobs => Some(2 * nWorkers)
  }

  /** The body of imap_unordered once the workers are started: resolve
      max_tasks_active, refuse a limit below 1, pull the chunks (which raises
      the chunking errors), run the unlimited or the limited submission, and
      drain the chunks still active with blocking gets. hasWorker stands for
      at least one worker being alive. Both exceptions are raised before
      anything is added, so they leave the queues as they were. Started from empty queues, the call
      completes exactly when there are no chunks or every chunk emits a
      batch, and then yields every element result exactly once. */
  method SubmitAndCollect<A, R, S>(b: Binding<A, R, S>, order: bool, nWorkers: nat,
                                   chunks: Result<seq<seq<Item<A>>>>, limit: MaxActive,
                                   tq0: seq<Entry<A>>, rq0: seq<Batch<R>>, env: seq<nat>)
    returns (out: Outcome<Out<R>>, tq: seq<Entry<A>>, rq: seq<Batch<R>>, ghost polled: seq<Batch<R>>)
    ensures var k := ResolveLimit(limit, nWorkers);
            && (k.Some? && k.value <= 0 ==> out == Failed(NonPositiveMaxActive))
            && (!(k.Some? && k.value <= 0) && chunks.Err? ==> out == Failed(chunks.error))
            && (!(k.Some? && k.value <= 0) && chunks.Ok? ==> !out.Failed?)
    ensures out.Failed? ==> tq == tq0 && rq == rq0
    ensures out.Done? ==> chunks.Ok? && out.items == Flatten(polled) && |polled| == |chunks.value|
    ensures out.Hangs? ==> chunks.Ok? && out.yielded == Flatten(polled) && |polled| < |chunks.value|
    ensures tq0 == [] && rq0 == [] && chunks.Ok? && !out.Failed? ==>
              (out.Done? <==> |chunks.value| == 0 || (nWorkers > 0 && AllEmit(b, order, chunks.value)))
    ensures tq0 == [] && rq0 == [] && out.Done? ==>
              tq == [] && rq == [] && multiset(out.items) == multiset(Results(b, order, chunks.value))
  {
    var k := ResolveLimit(limit, nWorkers);
    var hasWorker := nWorkers > 0;
    if k.Some? && k.value <= 0 {
      return Failed(NonPositiveMaxActive), tq0, rq0, [];
    }
    if chunks.Err? {
      return Failed(chunks.error), tq0, rq0, [];
    }
    var cs := chunks.value;
    var na, env1, items;
    ghost var done;
    if k.None? {
      tq, rq, env1, done := UnlimitedSubmit(b, order, hasWorker, tq0, rq0, cs, env);
      na, items, polled := |cs|, [], [];
    } else {
      var stuck, next;
      stuck, next, na, tq, rq, env1, done, polled, items := LimitedSubmit(b, order, hasWorker, k.value, tq0, rq0, cs, env);
      if stuck {
        if tq0 == [] && rq0 == [] && hasWorker && AllEmit(b, order, cs) {
          InFlightCount(b, order, hasWorker, cs, next, tq, rq, done, polled);
        }
        return Hangs(items), tq, rq, polled;
      }
    }
    ghost var polled0 := polled;
    out, tq, rq, done, polled := Drain(b, order, hasWorker, tq0, rq0, cs, na, tq, rq, env1, done, polled0, items);
    if tq0 == [] && rq0 == [] {
      if out.Done? {
        AllCollected(b, order, hasWorker, cs, tq, rq, done, polled);
      } else if hasWorker && AllEmit(b, order, cs) {
        InFlightCount(b, order, hasWorker, cs, |cs|, tq, rq, done, polled);
      }
    }
  }
}
