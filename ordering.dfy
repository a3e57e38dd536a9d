/** How imap and map put the unordered (index, value) stream of
    imap_unordered back into input order. */
module Ordering {
  import opened Tasks

  /** The pairs (i, v[i]) that enumerate attaches to the task arguments and
      helper_func hands back with each value. */
  function Enumerate<R>(v: seq<R>): seq<Out<R>>
  {
    seq(|v|, i requires 0 <= i < |v| => Pair(i, v[i]))
  }

  /** Every element is a pair and no index occurs twice. */
  ghost predicate DistinctKeys<R>(s: seq<Out<R>>)
  {
    && (forall i | 0 <= i < |s| :: s[i].Pair?)
    && (forall i, j | 0 <= i < |s| && 0 <= j < |s| && i != j :: s[i].idx != s[j].idx)
  }

  /** The keys of m are the integers lo, lo + 1, ..., hi - 1. */
  ghost predicate KeysAre<R>(m: map<int, R>, lo: int, hi: int)
  {
    forall k :: k in m <==> lo <= k < hi
  }

  lemma SubMultisetCancel<T>(x: T, a: multiset<T>, b: multiset<T>)
    requires a + multiset{x} <= b + multiset{x}
    ensures a <= b
  {
    forall y ensures a[y] <= b[y] {
      assert (a + multiset{x})[y] <= (b + multiset{x})[y];
    }
  }

  lemma {:induction false} RemoveAt<T>(s: seq<T>, j: int)
    requires 0 <= j < |s|
    ensures multiset(s) == multiset(s[..j] + s[j + 1..]) + multiset{s[j]}
  {
    assert s == s[..j] + [s[j]] + s[j + 1..];
  }

  lemma RemoveFirst<T>(s: seq<T>)
    requires |s| > 0
    ensures multiset(s) == multiset(s[1..]) + multiset{s[0]}
  {
    assert s == [s[0]] + s[1..];
  }

  /** Any part of a sequence with distinct indices has distinct indices:
      taking a sub-multiset cannot duplicate an index. */
  lemma {:induction false} DistinctKeysOfPart<R>(rs: seq<Out<R>>, es: seq<Out<R>>)
    requires multiset(rs) <= multiset(es) && DistinctKeys(es)
    ensures DistinctKeys(rs)
    decreases |rs|
  {
    if |rs| > 0 {
      var x := rs[0];
      assert x in multiset(es);
      var j :| 0 <= j < |es| && es[j] == x;
      var es' := es[..j] + es[j + 1..];
      assert DistinctKeys(es') by {
        DropDistinct(es, j);
      }
      TailPart(rs, es, j);
      DistinctKeysOfPart(rs[1..], es');
      HeadFresh(rs, es, j);
      ConsDistinct(rs);
    }
  }

  /** Matching rs[0] with es[j] leaves the rest of rs inside the rest of es. */
  lemma TailPart<R>(rs: seq<Out<R>>, es: seq<Out<R>>, j: int)
    requires multiset(rs) <= multiset(es) && |rs| > 0 && 0 <= j < |es| && es[j] == rs[0]
    ensures multiset(rs[1..]) <= multiset(es[..j] + es[j + 1..])
  {
    RemoveAt(es, j);
    RemoveFirst(rs);
    SubMultisetCancel(rs[0], multiset(rs[1..]), multiset(es[..j] + es[j + 1..]));
  }

  /** Then no later element of rs shares the index of rs[0]. */
  lemma HeadFresh<R>(rs: seq<Out<R>>, es: seq<Out<R>>, j: int)
    requires multiset(rs) <= multiset(es) && DistinctKeys(es) && |rs| > 0 && 0 <= j < |es| && es[j] == rs[0]
    ensures rs[0].Pair? && forall m | 0 < m < |rs| :: rs[m].Pair? && rs[m].idx != rs[0].idx
  {
    TailPart(rs, es, j);
    forall m | 0 < m < |rs| ensures rs[m].Pair? && rs[m].idx != rs[0].idx {
      assert rs[m] == rs[1..][m - 1];
      assert rs[m] in multiset(es[..j] + es[j + 1..]) by {
        assert rs[1..][m - 1] in multiset(rs[1..]);
      }
      OtherKey(es, j, rs[m]);
    }
  }

  /** Dropping one element keeps the indices distinct. */
  lemma DropDistinct<R>(es: seq<Out<R>>, j: int)
    requires DistinctKeys(es) && 0 <= j < |es|
    ensures DistinctKeys(es[..j] + es[j + 1..])
  {
    var es' := es[..j] + es[j + 1..];
    assert forall k | 0 <= k < |es'| :: es'[k] == es[if k < j then k else k + 1];
  }

  /** An element of what is left after dropping es[j] has another index. */
  lemma OtherKey<R>(es: seq<Out<R>>, j: int, y: Out<R>)
    requires DistinctKeys(es) && 0 <= j < |es|
    requires y in multiset(es[..j] + es[j + 1..])
    ensures y.Pair? && y.idx != es[j].idx
  {
    var es' := es[..j] + es[j + 1..];
    var k :| 0 <= k < |es'| && es'[k] == y;
    assert es'[k] == es[if k < j then k else k + 1];
  }

  lemma ConsDistinct<R>(rs: seq<Out<R>>)
    requires |rs| > 0 && rs[0].Pair? && DistinctKeys(rs[1..])
    requires forall m | 0 < m < |rs| :: rs[m].Pair? && rs[m].idx != rs[0].idx
    ensures DistinctKeys(rs)
  {
    forall a, c | 0 <= a < |rs| && 0 <= c < |rs| && a != c ensures rs[a].idx != rs[c].idx {
      if a > 0 && c > 0 {
        assert rs[a] == rs[1..][a - 1] && rs[c] == rs[1..][c - 1];
      }
    }
  }

  /** What a part of the enumerated results looks like: as many pairs as at
      most the inputs, each index once, each pair (i, v[i]). */
  lemma PartOfEnumerate<R>(rs: seq<Out<R>>, v: seq<R>)
    requires multiset(rs) <= multiset(Enumerate(v))
    ensures DistinctKeys(rs)
    ensures forall i | 0 <= i < |rs| :: 0 <= rs[i].idx < |v| && rs[i].r == v[rs[i].idx]
  {
    var e := Enumerate(v);
    DistinctKeysOfPart(rs, e);
    forall i | 0 <= i < |rs| ensures 0 <= rs[i].idx < |v| && rs[i].r == v[rs[i].idx] {
      assert rs[i] in multiset(e);
      var k :| 0 <= k < |e| && e[k] == rs[i];
    }
  }

  /** The pair of every input index is in a full permutation of the
      enumerated results. */
  lemma AllOfEnumerate<R>(rs: seq<Out<R>>, v: seq<R>, k: int)
    requires multiset(rs) == multiset(Enumerate(v)) && 0 <= k < |v|
    ensures exists i | 0 <= i < |rs| :: rs[i].Pair? && rs[i].idx == k
  {
    var e := Enumerate(v);
    assert e[k] in multiset(rs);
    var i :| 0 <= i < |rs| && rs[i] == e[k];
  }

  /** What the buffer of imap holds while it receives part of a
      permutation of the pairs (i, v[i]): v up to the cursor was handed
      out, every buffered index lies past the cursor and maps to its value,
      and every index received so far was handed out or is buffered. */
  ghost predicate Buffered<R>(v: seq<R>, seen: set<int>, tmp: map<int, R>, cursor: int, yielded: seq<R>)
  {
    && 0 <= cursor <= |v| && yielded == v[..cursor]
    && (forall k | k in tmp :: cursor <= k < |v| && k in seen && tmp[k] == v[k])
    && (forall k | 0 <= k < cursor :: k in seen)
    && (forall k | k in seen && cursor <= k :: k in tmp)
  }

  /** Handing out the buffered value at the cursor. */
  lemma Release<R>(v: seq<R>, seen: set<int>, tmp: map<int, R>, cursor: int, yielded: seq<R>)
    requires Buffered(v, seen, tmp, cursor, yielded) && cursor in tmp
    ensures Buffered(v, seen, tmp - {cursor}, cursor + 1, yielded + [tmp[cursor]])
  {
    assert v[..cursor + 1] == v[..cursor] + [v[cursor]];
  }

  /** Receiving the pair (idx, v[idx]) for an index not received before,
      after everything due was handed out. */
  lemma Receive<R>(v: seq<R>, seen: set<int>, tmp: map<int, R>, cursor: int, yielded: seq<R>, idx: int)
    requires Buffered(v, seen, tmp, cursor, yielded) && cursor !in tmp
    requires 0 <= idx < |v| && idx !in seen
    ensures cursor <= idx
    ensures idx == cursor ==> Buffered(v, seen + {idx}, tmp, cursor + 1, yielded + [v[idx]])
    ensures idx != cursor ==> Buffered(v, seen + {idx}, tmp[idx := v[idx]], cursor, yielded)
  {
    if idx == cursor {
      assert v[..cursor + 1] == v[..cursor] + [v[cursor]];
    }
  }

  /** The number of leading results that are (index, value) pairs: how far
      imap gets before a result it cannot unpack. */
  function PairPrefix<R>(rs: seq<Out<R>>): (n: nat)
    ensures n <= |rs|
    ensures forall i | 0 <= i < n :: rs[i].Pair?
    ensures n < |rs| ==> rs[n].Value?
  {
    if |rs| == 0 || rs[0].Value? then 0 else 1 + PairPrefix(rs[1..])
  }

  /** c is the least natural number not in s. */
  ghost predicate IsMex(c: int, s: set<int>)
  {
    0 <= c && c !in s && forall j | 0 <= j < c :: j in s
  }

  lemma MexUnique(a: int, b: int, s: set<int>)
    requires IsMex(a, s) && IsMex(b, s)
    ensures a == b
  {
  }

  /** Where the cursor of imap stands after the first m results: the values
      due are released before each result, which leaves the cursor at the
      least index not received among the first m - 1 results; the m-th
      result is then handed out exactly when it is that index. */
  ghost predicate StreamCursor<R>(rs: seq<Out<R>>, m: nat, cursor: int)
    requires m <= |rs| && forall i | 0 <= i < m :: rs[i].Pair?
  {
    && (m == 0 ==> cursor == 0)
    && (m > 0 ==>
          var s, last := SeenKeys(rs, m - 1), rs[m - 1].idx;
          || (last == cursor - 1 && IsMex(cursor - 1, s))
          || (last != cursor && IsMex(cursor, s)))
  }

  /** StreamCursor pins the cursor down to one value. */
  lemma StreamCursorUnique<R>(rs: seq<Out<R>>, m: nat, c: int, d: int)
    requires m <= |rs| && forall i | 0 <= i < m :: rs[i].Pair?
    requires StreamCursor(rs, m, c) && StreamCursor(rs, m, d)
    ensures c == d
  {
    if m > 0 {
      var s, last := SeenKeys(rs, m - 1), rs[m - 1].idx;
      if last == c - 1 && IsMex(c - 1, s) {
        if last == d - 1 && IsMex(d - 1, s) {
          MexUnique(c - 1, d - 1, s);
        } else {
          MexUnique(c - 1, d, s);
        }
      } else if last == d - 1 && IsMex(d - 1, s) {
        MexUnique(c, d - 1, s);
      } else {
        MexUnique(c, d, s);
      }
    }
  }

  /** On the results (1, a), (0, b) and then one that is not a pair, imap
      hands out one value, the one for index 0, before it raises. */
  lemma StreamCursorExample<R>(a: R, b: R, x: R, cursor: int)
    requires StreamCursor([Pair(1, a), Pair(0, b), Value(x)], 2, cursor)
    ensures cursor == 1
  {
    var rs := [Pair(1, a), Pair(0, b), Value(x)];
    assert SeenKeys(rs, 1) == {1} by {
      assert SeenKeys(rs, 0) == {};
    }
    assert IsMex(0, {1});
    if cursor != 1 {
      MexUnique(0, cursor, {1});
    }
  }

  /** What the cursor and the buffer of imap keep track of, for any
      results: every index below the cursor was received, every index
      received from the cursor on is buffered, and only received indices
      are buffered. */
  ghost predicate Tracked<R>(seen: set<int>, tmp: map<int, R>, cursor: int)
  {
    && (forall k | 0 <= k < cursor :: k in seen)
    && (forall k | k in seen && cursor <= k :: k in tmp)
    && (forall k | k in tmp :: k in seen)
  }

  /** After releasing what is due, the cursor is the least index not yet
      received. */
  lemma AfterRelease<R>(seen: set<int>, tmp: map<int, R>, cursor: int, tmp': map<int, R>, cursor': int)
    requires Tracked(seen, tmp, cursor) && 0 <= cursor <= cursor' && cursor' !in tmp'
    requires forall k | cursor <= k < cursor' :: k in tmp
    requires forall k :: k in tmp' <==> k in tmp && !(cursor <= k < cursor')
    ensures Tracked(seen, tmp', cursor') && IsMex(cursor', seen)
  {
  }

  /** Handing out or buffering result i after the release. */
  lemma AfterReceive<R>(rs: seq<Out<R>>, i: nat, tmp: map<int, R>, cursor: int, tmp': map<int, R>, cursor': int)
    requires i < |rs| && forall j | 0 <= j <= i :: rs[j].Pair?
    requires Tracked(SeenKeys(rs, i), tmp, cursor) && IsMex(cursor, SeenKeys(rs, i))
    requires rs[i].idx == cursor ==> cursor' == cursor + 1 && tmp' == tmp
    requires rs[i].idx != cursor ==> cursor' == cursor && tmp' == tmp[rs[i].idx := rs[i].r]
    ensures SeenKeys(rs, i + 1) == SeenKeys(rs, i) + {rs[i].idx}
    ensures Tracked(SeenKeys(rs, i + 1), tmp', cursor') && StreamCursor(rs, i + 1, cursor')
  {
  }

  /** The streaming part of imap: for each result received, unpack it into
      (index, value), hand out every buffered value whose turn has come,
      then hand out the value itself if it is next, or buffer it. A result
      that is not a pair cannot be unpacked and stops the stream (ok is
      false) before anything more is handed out. For any results, the
      number handed out is the cursor StreamCursor describes for the pairs
      before that point, which holds it to one value. Whenever the pairs before
      that point are part of a permutation of the pairs (i, v[i]), what has
      been handed out is exactly v up to the cursor, and every buffered
      index lies past the cursor; once the whole permutation was received,
      the buffer holds exactly the indices from the cursor to the end. */
  method Stream<R>(rs: seq<Out<R>>, ghost v: seq<R>) returns (ok: bool, yielded: seq<R>, tmp: map<int, R>, cursor: int)
    ensures ok <==> forall i | 0 <= i < |rs| :: rs[i].Pair?
    ensures |yielded| == cursor
    ensures StreamCursor(rs, PairPrefix(rs), cursor)
    ensures multiset(rs[..PairPrefix(rs)]) <= multiset(Enumerate(v)) ==>
              && cursor <= |v| && yielded == v[..cursor]
              && (forall k | k in tmp :: cursor <= k < |v| && tmp[k] == v[k])
    ensures multiset(rs) <= multiset(Enumerate(v)) ==>
              && ok && cursor <= |v| && yielded == v[..cursor]
              && (forall k | k in tmp :: cursor <= k < |v| && tmp[k] == v[k])
    ensures multiset(rs) == multiset(Enumerate(v)) ==> KeysAre(tmp, cursor, |v|)
  {
    var n := PairPrefix(rs);
    ghost var sub := multiset(rs[..n]) <= multiset(Enumerate(v));
    if multiset(rs) <= multiset(Enumerate(v)) {
      PartOfEnumerate(rs, v);
      assert rs[..n] == rs;
    }
    ok, yielded, tmp, cursor := true, [], map[], 0;
    var i := 0;
    while i < |rs|
      invariant 0 <= i <= n && 0 <= cursor
      invariant |yielded| == cursor
      invariant sub ==> Buffered(v, SeenKeys(rs, i), tmp, cursor, yielded)
      invariant Tracked(SeenKeys(rs, i), tmp, cursor) && StreamCursor(rs, i, cursor)
    {
      if rs[i].Value? {
        ok := false;
        return;
      }
      yielded, tmp, cursor := Take(rs, i, yielded, tmp, cursor, v, sub);
      i := i + 1;
    }
    if multiset(rs) == multiset(Enumerate(v)) {
      FullBuffer(rs, v, tmp, cursor, yielded);
    }
  }

  /** One round of imap's for-loop over the pair rs[i]: release the values
      that are due, then hand out the pair's value if its index is next, or
      buffer it. */
  method Take<R>(rs: seq<Out<R>>, i: nat, yielded: seq<R>, tmp: map<int, R>, cursor: int, ghost v: seq<R>, ghost sub: bool)
    returns (yielded': seq<R>, tmp': map<int, R>, cursor': int)
    requires i < PairPrefix(rs) && 0 <= cursor && |yielded| == cursor
    requires Tracked(SeenKeys(rs, i), tmp, cursor)
    requires sub ==> multiset(rs[..PairPrefix(rs)]) <= multiset(Enumerate(v)) && Buffered(v, SeenKeys(rs, i), tmp, cursor, yielded)
    ensures 0 <= cursor' && |yielded'| == cursor'
    ensures Tracked(SeenKeys(rs, i + 1), tmp', cursor') && StreamCursor(rs, i + 1, cursor')
    ensures sub ==> Buffered(v, SeenKeys(rs, i + 1), tmp', cursor', yielded')
  {
    yielded', tmp', cursor' := ReleaseDue(yielded, tmp, cursor, v, SeenKeys(rs, i), sub);
    AfterRelease(SeenKeys(rs, i), tmp, cursor, tmp', cursor');
    ghost var tmp1, cursor1 := tmp', cursor';
    var idx, r := rs[i].idx, rs[i].r;
    if sub {
      var n := PairPrefix(rs);
      PartOfEnumerate(rs[..n], v);
      assert rs[i] == rs[..n][i];
      NotSeen(rs, n, i);
      Receive(v, SeenKeys(rs, i), tmp', cursor', yielded', idx);
    }
    if idx == cursor' {
      yielded', cursor' := yielded' + [r], cursor' + 1;
    } else {
      tmp' := tmp'[idx := r];
    }
    AfterReceive(rs, i, tmp1, cursor1, tmp', cursor');
  }

  /** The inner while-true loop of imap: while the next index is buffered,
      pop it and hand out its value. The values of the indices from cursor
      to cursor' were handed out in that order and left the buffer, the
      rest of the buffer is untouched, and the next index is not buffered. */
  method ReleaseDue<R>(yielded: seq<R>, tmp: map<int, R>, cursor: int, ghost v: seq<R>, ghost seen: set<int>, ghost sub: bool)
    returns (yielded': seq<R>, tmp': map<int, R>, cursor': int)
    requires 0 <= cursor && |yielded| == cursor
    requires sub ==> Buffered(v, seen, tmp, cursor, yielded)
    ensures cursor <= cursor' && |yielded'| == cursor' && cursor' !in tmp'
    ensures yielded'[..cursor] == yielded
    ensures forall k | cursor <= k < cursor' :: k in tmp && yielded'[k] == tmp[k]
    ensures forall k :: k in tmp' <==> k in tmp && !(cursor <= k < cursor')
    ensures forall k | k in tmp' :: tmp'[k] == tmp[k]
    ensures sub ==> Buffered(v, seen, tmp', cursor', yielded')
  {
    yielded', tmp', cursor' := yielded, tmp, cursor;
    while cursor' in tmp'
      invariant cursor <= cursor' && |yielded'| == cursor'
      invariant yielded'[..cursor] == yielded
      invariant forall k | cursor <= k < cursor' :: k in tmp && yielded'[k] == tmp[k]
      invariant forall k :: k in tmp' <==> k in tmp && !(cursor <= k < cursor')
      invariant forall k | k in tmp' :: tmp'[k] == tmp[k]
      invariant sub ==> Buffered(v, seen, tmp', cursor', yielded')
      decreases |tmp'.Keys|
    {
      if sub {
        Release(v, seen, tmp', cursor', yielded');
      }
      assert tmp'.Keys - {cursor'} < tmp'.Keys;
      yielded', tmp', cursor' := yielded' + [tmp'[cursor']], tmp' - {cursor'}, cursor' + 1;
    }
  }

  /** The indices of the pairs among the first n results. */
  ghost function SeenKeys<R>(rs: seq<Out<R>>, n: nat): set<int>
    requires n <= |rs|
  {
    if n == 0 then {} else SeenKeys(rs, n - 1) + (if rs[n - 1].Pair? then {rs[n - 1].idx} else {})
  }

  lemma {:induction false} SeenHas<R>(rs: seq<Out<R>>, n: nat, i: int)
    requires n <= |rs| && 0 <= i < n && rs[i].Pair?
    ensures rs[i].idx in SeenKeys(rs, n)
  {
    if i < n - 1 {
      SeenHas(rs, n - 1, i);
    }
  }

  /** With distinct indices among the first m results, a later one of them
      has an index not seen before. */
  lemma NotSeen<R>(rs: seq<Out<R>>, m: nat, n: nat)
    requires m <= |rs| && DistinctKeys(rs[..m]) && n < m
    ensures rs[n].Pair? && rs[n].idx !in SeenKeys(rs, n)
  {
    assert rs[n] == rs[..m][n];
    forall i | 0 <= i < n ensures rs[i].Pair? && rs[i].idx != rs[n].idx {
      assert rs[i] == rs[..m][i];
    }
    if rs[n].idx in SeenKeys(rs, n) {
      SeenFrom(rs, n, rs[n].idx);
      assert false;
    }
  }

  lemma {:induction false} SeenFrom<R>(rs: seq<Out<R>>, n: nat, k: int)
    requires n <= |rs| && k in SeenKeys(rs, n)
    ensures exists i | 0 <= i < n :: rs[i].Pair? && rs[i].idx == k
  {
    if !(rs[n - 1].Pair? && rs[n - 1].idx == k) {
      SeenFrom(rs, n - 1, k);
    }
  }

  /** After a full permutation every index past the cursor is buffered. */
  lemma FullBuffer<R>(rs: seq<Out<R>>, v: seq<R>, tmp: map<int, R>, cursor: int, yielded: seq<R>)
    requires multiset(rs) == multiset(Enumerate(v))
    requires Buffered(v, SeenKeys(rs, |rs|), tmp, cursor, yielded)
    ensures KeysAre(tmp, cursor, |v|)
  {
    forall k | cursor <= k < |v| ensures k in tmp {
      AllOfEnumerate(rs, v, k);
      var i :| 0 <= i < |rs| && rs[i].Pair? && rs[i].idx == k;
      SeenHas(rs, |rs|, i);
    }
  }

  lemma PickFrom(s: set<int>) returns (y: int)
    requires |s| > 0
    ensures y in s
  {
    if forall z :: z !in s {
      assert false;
    }
    y :| y in s;
  }

  /** A non-empty finite set of integers has a least element. */
  lemma {:induction false} MinExists(s: set<int>)
    requires |s| > 0
    ensures exists m | m in s :: forall x | x in s :: m <= x
    decreases |s|
  {
    var y := PickFrom(s);
    var t := s - {y};
    if t == {} {
      assert forall x | x in s :: x == y || x in t;
    } else {
      assert |t| == |s| - 1;
      MinExists(t);
      var m :| m in t && forall x | x in t :: m <= x;
      var n := if y < m then y else m;
      assert forall x | x in s :: x == y || x in t;
      assert n in s && forall x | x in s :: n <= x;
    }
  }

  /** The final loop of imap: hand out the buffered values in increasing
      index order, whatever indices the buffer holds. keys lists the
      indices in the order their values were handed out: strictly
      increasing and exactly the buffered ones. For the buffer a full
      permutation leaves, the values are the rest of v. */
  method Flush<R>(tmp: map<int, R>, ghost c: int, ghost v: seq<R>) returns (out: seq<R>, ghost keys: seq<int>)
    ensures |out| == |tmp| && |keys| == |out|
    ensures forall i, j | 0 <= i < j < |keys| :: keys[i] < keys[j]
    ensures forall k :: k in tmp <==> k in keys
    ensures forall i | 0 <= i < |keys| :: keys[i] in tmp && out[i] == tmp[keys[i]]
    ensures 0 <= c <= |v| && KeysAre(tmp, c, |v|) && (forall k | k in tmp :: tmp[k] == v[k]) ==> out == v[c..]
  {
    var rest := tmp;
    out, keys := [], [];
    while |rest| > 0
      invariant |out| + |rest| == |tmp|
      invariant InOrder(tmp, rest, out, keys)
      decreases |rest|
    {
      MinExists(rest.Keys);
      var m :| m in rest && forall x | x in rest :: m <= x;
      OrderStep(tmp, rest, out, keys, m);
      out, keys := out + [rest[m]], keys + [m];
      rest := rest - {m};
    }
    assert rest == map[];
    if 0 <= c <= |v| && KeysAre(tmp, c, |v|) && (forall k | k in tmp :: tmp[k] == v[k]) {
      FullFlush(tmp, c, v, out, keys);
    }
  }

  /** The state of the final loop for any buffer: the indices handed out so
      far are strictly increasing, each below every index still buffered,
      and together with those exactly the buffered ones; their values went
      out in that order. */
  ghost predicate InOrder<R>(tmp: map<int, R>, rest: map<int, R>, out: seq<R>, keys: seq<int>)
  {
    && |keys| == |out|
    && (forall i, j | 0 <= i < j < |keys| :: keys[i] < keys[j])
    && (forall k :: k in tmp <==> k in rest || k in keys)
    && (forall k | k in rest :: k in tmp && rest[k] == tmp[k])
    && (forall i | 0 <= i < |keys| :: keys[i] in tmp && keys[i] !in rest && out[i] == tmp[keys[i]])
    && (forall i, x | 0 <= i < |keys| && x in rest :: keys[i] < x)
  }

  /** Handing out the least buffered index keeps the order. */
  lemma OrderStep<R>(tmp: map<int, R>, rest: map<int, R>, out: seq<R>, keys: seq<int>, m: int)
    requires InOrder(tmp, rest, out, keys)
    requires m in rest && forall x | x in rest :: m <= x
    ensures InOrder(tmp, rest - {m}, out + [rest[m]], keys + [m])
  {
    var keys', out' := keys + [m], out + [rest[m]];
    assert forall i | 0 <= i < |keys| :: keys'[i] == keys[i] && out'[i] == out[i];
  }

  /** Strictly increasing integers grow by at least the distance. */
  lemma {:induction false} IncreasingGap(keys: seq<int>, i: int, j: int)
    requires forall a, b | 0 <= a < b < |keys| :: keys[a] < keys[b]
    requires 0 <= i <= j < |keys|
    ensures keys[j] - keys[i] >= j - i
    decreases j - i
  {
    if i < j {
      IncreasingGap(keys, i, j - 1);
    }
  }

  /** Strictly increasing integers that are exactly lo, ..., hi - 1 are
      lo, lo + 1, ... in that order. */
  lemma {:induction false} KeyAt(keys: seq<int>, lo: int, hi: int, i: int)
    requires forall a, b | 0 <= a < b < |keys| :: keys[a] < keys[b]
    requires forall k :: k in keys <==> lo <= k < hi
    requires 0 <= i < |keys|
    ensures keys[i] == lo + i
    decreases i
  {
    IncreasingGap(keys, 0, i);
    assert keys[0] in keys && keys[i] in keys;
    assert lo + i in keys;
    var j :| 0 <= j < |keys| && keys[j] == lo + i;
    if j < i {
      KeyAt(keys, lo, hi, j);
      assert false;
    }
  }

  /** Flushing the buffer a full permutation leaves hands out v from c on. */
  lemma FullFlush<R>(tmp: map<int, R>, c: int, v: seq<R>, out: seq<R>, keys: seq<int>)
    requires 0 <= c <= |v| && KeysAre(tmp, c, |v|) && (forall k | k in tmp :: tmp[k] == v[k])
    requires |keys| == |out| && forall i, j | 0 <= i < j < |keys| :: keys[i] < keys[j]
    requires forall k :: k in tmp <==> k in keys
    requires forall i | 0 <= i < |keys| :: keys[i] in tmp && out[i] == tmp[keys[i]]
    ensures out == v[c..]
  {
    forall i | 0 <= i < |keys| ensures keys[i] == c + i {
      KeyAt(keys, c, |v|, i);
    }
    if c < |v| {
      assert |v| - 1 in keys;
      var j :| 0 <= j < |keys| && keys[j] == |v| - 1;
    }
    if |keys| > 0 {
      assert keys[|keys| - 1] in tmp;
    }
    assert |out| == |v| - c;
  }

  /** imap's reconstruction as a whole over what imap_unordered produced: a
      completed stream is streamed and then flushed, a stream that hangs
      hands out only what the streaming part did, an exception passes
      through, and a result that is not a pair raises. For a completed
      permutation of the pairs (i, v[i]) the outcome is v itself; for a
      stream that hangs, as many values were handed out as StreamCursor
      fixes for what was received, and on part of such a permutation they
      are a prefix of v. */
  method Reorder<R>(out: Outcome<Out<R>>, ghost v: seq<R>) returns (r: Outcome<R>)
    ensures out.Failed? ==> r == Failed(out.error)
    ensures r.Failed? ==> out.Failed? || r.error == NotAPair
    ensures r.Done? ==> out.Done?
    ensures out.Done? && (exists i | 0 <= i < |out.items| :: out.items[i].Value?) ==> r == Failed(NotAPair)
    ensures out.Hangs? && (exists i | 0 <= i < |out.yielded| :: out.yielded[i].Value?) ==> r == Failed(NotAPair)
    ensures out.Done? && (forall i | 0 <= i < |out.items| :: out.items[i].Pair?) ==> r.Done?
    ensures out.Hangs? && (forall i | 0 <= i < |out.yielded| :: out.yielded[i].Pair?) ==> r.Hangs?
    ensures out.Done? && multiset(out.items) == multiset(Enumerate(v)) ==> r == Done(v)
    ensures out.Hangs? && multiset(out.yielded) <= multiset(Enumerate(v)) ==> r.Hangs? && r.yielded <= v
    ensures out.Hangs? && r.Hangs? ==> StreamCursor(out.yielded, |out.yielded|, |r.yielded|)
  {
    match out
    case Failed(e) =>
      r := Failed(e);
    case Done(rs) =>
      var ok, yielded, tmp, cursor := Stream(rs, v);
      if !ok {
        return Failed(NotAPair);
      }
      var rest;
      ghost var keys;
      rest, keys := Flush(tmp, cursor, v);
      if multiset(rs) == multiset(Enumerate(v)) {
        assert v[..cursor] + v[cursor..] == v;
      }
      r := Done(yielded + rest);
    case Hangs(rs) =>
      var ok, yielded, tmp, cursor := Stream(rs, v);
      if !ok {
        return Failed(NotAPair);
      }
      r := Hangs(yielded);
  }

  /** Non-decreasing in the index. */
  ghost predicate SortedByIndex<R>(s: seq<Out<R>>)
  {
    && (forall i | 0 <= i < |s| :: s[i].Pair?)
    && (forall i, j | 0 <= i < j < |s| :: s[i].idx <= s[j].idx)
  }

  /** Place x before the first element whose index is not smaller. */
  function Insert<R>(x: Out<R>, s: seq<Out<R>>): (r: seq<Out<R>>)
    requires x.Pair? && SortedByIndex(s)
    ensures SortedByIndex(r)
    ensures |r| == |s| + 1
    ensures multiset(r) == multiset(s) + multiset{x}
  {
    if |s| == 0 || x.idx <= s[0].idx then [x] + s
    else
      SortedTail(s);
      var t := Insert(x, s[1..]);
      InsertStep(x, s, t);
      [s[0]] + t
  }

  lemma SortedTail<R>(s: seq<Out<R>>)
    requires |s| > 0 && SortedByIndex(s)
    ensures SortedByIndex(s[1..])
  {
    var t := s[1..];
    forall i, j | 0 <= i < j < |t| ensures t[i].idx <= t[j].idx {
      assert t[i] == s[i + 1] && t[j] == s[j + 1];
    }
  }

  /** The recursive case of Insert: x goes after s[0], into the rest. */
  lemma InsertStep<R>(x: Out<R>, s: seq<Out<R>>, t: seq<Out<R>>)
    requires x.Pair? && SortedByIndex(s) && |s| > 0 && s[0].idx < x.idx
    requires SortedByIndex(t) && multiset(t) == multiset(s[1..]) + multiset{x}
    ensures SortedByIndex([s[0]] + t)
    ensures multiset([s[0]] + t) == multiset(s) + multiset{x}
  {
    var u := s[1..] + [x];
    assert multiset(u) == multiset(s[1..]) + multiset{x};
    forall i | 0 <= i < |u| ensures u[i].Pair? && s[0].idx <= u[i].idx {
      if i < |s| - 1 {
        assert u[i] == s[i + 1];
      }
    }
    LowerBound(t, u, s[0].idx);
    ConsSorted(s[0], t);
    assert s == [s[0]] + s[1..];
  }

  /** A bound on the indices of a sequence holds for its permutations. */
  lemma LowerBound<R>(t: seq<Out<R>>, u: seq<Out<R>>, lo: int)
    requires multiset(t) == multiset(u)
    requires forall i | 0 <= i < |u| :: u[i].Pair? && lo <= u[i].idx
    ensures forall i | 0 <= i < |t| :: t[i].Pair? && lo <= t[i].idx
  {
    forall i | 0 <= i < |t| ensures t[i].Pair? && lo <= t[i].idx {
      assert t[i] in multiset(u);
      var k :| 0 <= k < |u| && u[k] == t[i];
    }
  }

  lemma ConsSorted<R>(y: Out<R>, t: seq<Out<R>>)
    requires y.Pair? && SortedByIndex(t)
    requires forall i | 0 <= i < |t| :: y.idx <= t[i].idx
    ensures SortedByIndex([y] + t)
  {
    var r := [y] + t;
    forall i, j | 0 <= i < j < |r| ensures r[i].idx <= r[j].idx {
      assert r[j] == t[j - 1];
      if i > 0 {
        assert r[i] == t[i - 1];
      }
    }
  }

  /** sorted(results, key=lambda result: result[0]), as an insertion sort:
      a permutation of the results, non-decreasing in the index. */
  function SortByIndex<R>(rs: seq<Out<R>>): (s: seq<Out<R>>)
    requires forall i | 0 <= i < |rs| :: rs[i].Pair?
    ensures SortedByIndex(s)
    ensures |s| == |rs|
    ensures multiset(s) == multiset(rs)
  {
    if |rs| == 0 then []
    else
      assert rs == [rs[0]] + rs[1..];
      Insert(rs[0], SortByIndex(rs[1..]))
  }

  /** [result[1] for result in ...]. */
  function Values<R>(s: seq<Out<R>>): seq<R>
  {
    seq(|s|, i requires 0 <= i < |s| => s[i].r)
  }

  /** The last line of map: sort the results by their index, then keep the
      values. A result that is not a pair has no index to sort by. */
  function MapOrder<R>(rs: seq<Out<R>>): (r: Result<seq<R>>)
    ensures r.Err? <==> exists i | 0 <= i < |rs| :: rs[i].Value?
    ensures r.Err? ==> r.error == NotAPair
    ensures r.Ok? ==> |r.value| == |rs|
  {
    if exists i | 0 <= i < |rs| :: rs[i].Value? then Err(NotAPair)
    else Ok(Values(SortByIndex(rs)))
  }

  /** Indices strictly increasing along s grow by at least the distance. */
  lemma {:induction false} StrictGap<R>(s: seq<Out<R>>, i: int, j: int)
    requires SortedByIndex(s) && DistinctKeys(s)
    requires 0 <= i <= j < |s|
    ensures s[j].idx - s[i].idx >= j - i
    decreases j - i
  {
    if i < j {
      StrictGap(s, i, j - 1);
      assert s[j - 1].idx < s[j].idx;
    }
  }

  /** map restores the input order: sorting any permutation of the pairs
      (i, v[i]) by index and dropping the indices gives v. */
  lemma MapRestoresOrder<R>(rs: seq<Out<R>>, v: seq<R>)
    requires multiset(rs) == multiset(Enumerate(v))
    ensures MapOrder(rs) == Ok(v)
  {
    PartOfEnumerate(rs, v);
    assert |rs| == |v| by {
      assert |multiset(rs)| == |multiset(Enumerate(v))|;
    }
    var s := SortByIndex(rs);
    PartOfEnumerate(s, v);
    var n := |s|;
    forall k | 0 <= k < n ensures s[k].idx == k {
      StrictGap(s, 0, k);
      StrictGap(s, k, n - 1);
    }
    assert Values(s) == v;
  }
}
