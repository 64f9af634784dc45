/** The jobs that feed a server stream: each maps its source into a bounded channel and stops at the
    first send that does not go through. */
module ServerStreams {
  import opened Sequences

  datatype SendOutcome = Sent | TimedOut | Closed

  /** How the n-th send on a channel ends is up to the adversary, for as long as it cares; after that
      the channel is closed. */
  function OutcomeOf(outcomes: seq<SendOutcome>, n: nat): SendOutcome {
    if n < |outcomes| then outcomes[n] else Closed
  }

  /** The sending half of the channel of a server stream. */
  class Outbox<T> {
    const outcomes: seq<SendOutcome>
    var sent: seq<T>
    var attempts: nat

    constructor (outcomes: seq<SendOutcome>)
      ensures this.outcomes == outcomes && sent == [] && attempts == 0
    {
      this.outcomes := outcomes;
      sent, attempts := [], 0;
    }

    method SendTimeout(item: T) returns (result: SendOutcome)
      modifies this
      ensures result == OutcomeOf(outcomes, old(attempts)) && attempts == old(attempts) + 1
      ensures sent == if result.Sent? then old(sent) + [item] else old(sent)
    {
      result := OutcomeOf(outcomes, attempts);
      attempts := attempts + 1;
      if result.Sent? { sent := sent + [item]; }
    }
  }

  ghost predicate AllSent(outcomes: seq<SendOutcome>, from: nat, to: nat) {
    forall i :: from <= i < to ==> OutcomeOf(outcomes, i).Sent?
  }

  /** From the a-th attempt on, of `total` items exactly the first n were sent, and after the first
      failed send nothing more was attempted. */
  ghost predicate StoppedAt(outcomes: seq<SendOutcome>, a: nat, attempts: nat, total: nat, n: nat) {
    && n <= total
    && AllSent(outcomes, a, a + n)
    && (n < total ==> !OutcomeOf(outcomes, a + n).Sent?)
    && attempts == a + n + (if n < total then 1 else 0)
  }

  /** `send_from_iterator` and `send_from_iterator_with_transformation`. */
  method SendFromIterator<A, B>(tx: Outbox<B>, src: seq<A>, mapping: A -> B) returns (ghost n: nat)
    modifies tx
    ensures n <= |src| && tx.sent == old(tx.sent) + Map(mapping, src)[..n]
    ensures StoppedAt(tx.outcomes, old(tx.attempts), tx.attempts, |src|, n)
  {
    hide Map;
    n := 0;
    for i := 0 to |src|
      invariant n == i
      invariant tx.sent == old(tx.sent) + Map(mapping, src)[..i]
      invariant tx.attempts == old(tx.attempts) + i
      invariant AllSent(tx.outcomes, old(tx.attempts), tx.attempts)
    {
      var contract := mapping(src[i]);
      var result := tx.SendTimeout(contract);
      if !result.Sent? { return; }
      assert Map(mapping, src)[..i + 1] == Map(mapping, src)[..i] + [contract];
      n := n + 1;
    }
  }

  // ---- hash maps ----

  /** An order in which a hash map may be iterated: every key once. */
  ghost predicate Enumerates<K, V>(order: seq<K>, m: map<K, V>) {
    && (forall i, j :: 0 <= i < j < |order| ==> order[i] != order[j])
    && m.Keys == (set k | k in order)
  }

  function Mapped<K, V, D>(m: map<K, V>, order: seq<K>, mapping: (K, V) -> D): (r: seq<D>)
    requires forall k :: k in order ==> k in m
    ensures |r| == |order| && forall i :: 0 <= i < |order| ==> r[i] == mapping(order[i], m[order[i]])
  {
    seq(|order|, i requires 0 <= i < |order| => assert order[i] in order; mapping(order[i], m[order[i]]))
  }

  method SendHashMap<K(==), V, D>(tx: Outbox<D>, src: map<K, V>, order: seq<K>, mapping: (K, V) -> D)
    returns (ghost n: nat)
    requires Enumerates(order, src)
    modifies tx
    ensures n <= |order| && tx.sent == old(tx.sent) + Mapped(src, order, mapping)[..n]
    ensures StoppedAt(tx.outcomes, old(tx.attempts), tx.attempts, |order|, n)
  {
    hide Mapped;
    n := 0;
    ghost var all := Mapped(src, order, mapping);
    for i := 0 to |order|
      invariant n == i
      invariant tx.sent == old(tx.sent) + all[..i]
      invariant tx.attempts == old(tx.attempts) + i
      invariant AllSent(tx.outcomes, old(tx.attempts), tx.attempts)
    {
      assert order[i] in order;
      var contract := mapping(order[i], src[order[i]]);
      var result := tx.SendTimeout(contract);
      if !result.Sent? { return; }
      assert all[..i + 1] == all[..i] + [contract];
      n := n + 1;
    }
  }

  // ---- chunks ----

  /** The canonical k-chunking. */
  function Chunks<T>(s: seq<T>, k: nat): seq<seq<T>>
    requires k > 0
    decreases |s|
  {
    if s == [] then [] else if |s| <= k then [s] else [s[..k]] + Chunks(s[k..], k)
  }

  lemma {:induction false} ChunksAreConsecutive<T>(s: seq<T>, k: nat)
    requires k > 0
    ensures Flatten(Chunks(s, k)) == s
    ensures forall i :: 0 <= i < |Chunks(s, k)| - 1 ==> |Chunks(s, k)[i]| == k
    ensures s != [] ==> Chunks(s, k) != [] && 1 <= |Last(Chunks(s, k))| <= k
    decreases |s|
  {
    if s == [] {
    } else if |s| <= k {
      assert Flatten([s]) == s + Flatten([s][1..]);
    } else {
      var rest := Chunks(s[k..], k);
      ChunksAreConsecutive(s[k..], k);
      assert ([s[..k]] + rest)[1..] == rest;
      assert s == s[..k] + s[k..];
    }
  }

  lemma ProductsAreOrdered(a: nat, b: nat, k: nat)
    ensures a <= b ==> a * k <= b * k
  {
    if a <= b { assert b * k == a * k + (b - a) * k; }
  }

  lemma DivIsUnique(n: nat, k: nat, q: nat, r: nat)
    requires k > 0 && r < k && n == q * k + r
    ensures n / k == q
  {
    var p, t := n / k, n % k;
    assert n == p * k + t;
    ProductsAreOrdered(p + 1, q, k);
    ProductsAreOrdered(q + 1, p, k);
  }

  lemma DivOneMore(n: nat, k: nat)
    requires k > 0
    ensures (n + k) / k == n / k + 1
  {
    var q, r := n / k, n % k;
    assert n == q * k + r;
    assert n + k == (q + 1) * k + r;
    DivIsUnique(n + k, k, q + 1, r);
  }

  lemma SmallDiv(n: nat, k: nat)
    requires n < k
    ensures n / k == 0
  {
    DivIsUnique(n, k, 0, n);
  }

  lemma {:induction false} ChunkCount<T>(s: seq<T>, k: nat)
    requires k > 0
    ensures |Chunks(s, k)| == (|s| + k - 1) / k
    decreases |s|
  {
    if |s| > k {
      ChunkCount(s[k..], k);
      DivOneMore(|s| - 1, k);
      assert |s[k..]| + k - 1 == |s| - 1;
    } else if s != [] {
      DivOneMore(|s| - 1, k);
      SmallDiv(|s| - 1, k);
    } else {
      SmallDiv(k - 1, k);
    }
  }

  lemma FullChunkFirst<T>(chunk: seq<T>, rest: seq<T>, k: nat)
    requires |chunk| == k > 0
    ensures Chunks(chunk + rest, k) == [chunk] + Chunks(rest, k)
  {
    if rest == [] {
      assert chunk + rest == chunk;
    } else {
      assert (chunk + rest)[..k] == chunk && (chunk + rest)[k..] == rest;
    }
  }

  /** all = done + what chunking the items that are left will give. */
  ghost predicate SplitsInto<T>(all: seq<seq<T>>, done: seq<seq<T>>, left: seq<T>, k: nat)
    requires k > 0
  {
    all == if done == [] then Chunks(left, k) else done + Chunks(left, k)
  }

  lemma FullChunkIsNext<T>(all: seq<seq<T>>, done: seq<seq<T>>, chunk: seq<T>, rest: seq<T>, k: nat)
    requires |chunk| == k > 0 && SplitsInto(all, done, chunk + rest, k)
    ensures SplitsInto(all, done + [chunk], rest, k)
    ensures |done| < |all|
  {
    FullChunkFirst(chunk, rest, k);
    assert done + ([chunk] + Chunks(rest, k)) == done + [chunk] + Chunks(rest, k);
  }

  /** What is left is the buffer and the source items from i on. */
  ghost predicate IsLeft<T>(left: seq<T>, chunk: seq<T>, items: seq<T>, i: nat)
    requires i <= |items|
  {
    left == if chunk == [] then items[i..] else chunk + items[i..]
  }

  lemma NextItemIsBuffered<T>(left: seq<T>, chunk: seq<T>, items: seq<T>, i: nat)
    requires i < |items| && IsLeft(left, chunk, items, i)
    ensures IsLeft(left, chunk + [items[i]], items, i + 1) && left != []
  {
  }

  lemma MapOneMore<A, B>(f: A -> B, done: seq<A>, x: A)
    ensures Map(f, done + [x]) == Map(f, done) + [f(x)]
  {
  }

  /** Since the channel held `before`, the images of `done` went into it. */
  ghost predicate WentIn<A, B>(sent: seq<B>, before: seq<B>, f: A -> B, done: seq<A>) {
    sent == if done == [] then before else before + Map(f, done)
  }

  lemma OneMoreWentIn<A, B>(sent: seq<B>, before: seq<B>, f: A -> B, done: seq<A>, x: A)
    requires WentIn(sent, before, f, done)
    ensures WentIn(sent + [f(x)], before, f, done + [x])
  {
    MapOneMore(f, done, x);
    if done != [] { assert before + (Map(f, done) + [f(x)]) == before + Map(f, done) + [f(x)]; }
  }

  lemma SentIsAPrefix<A, B>(all: seq<seq<A>>, done: seq<seq<A>>, left: seq<A>, k: nat, f: seq<A> -> B,
                            sent: seq<B>, before: seq<B>)
    requires k > 0 && SplitsInto(all, done, left, k) && WentIn(sent, before, f, done)
    ensures |done| <= |all| && sent == before + Map(f, all)[..|done|]
    ensures |all| == |done| <==> left == []
  {
    assert Map(f, all)[..|done|] == Map(f, done);
  }

  lemma LastChunkCompletes<A, B>(all: seq<seq<A>>, done: seq<seq<A>>, chunk: seq<A>, k: nat, f: seq<A> -> B,
                                 sent: seq<B>, before: seq<B>)
    requires 0 < |chunk| <= k && SplitsInto(all, done, chunk, k) && WentIn(sent, before, f, done)
    ensures |all| == |done| + 1 && sent + [f(chunk)] == before + Map(f, all)[..|all|]
  {
    assert all == done + [chunk];
    OneMoreWentIn(sent, before, f, done, chunk);
    assert Map(f, all)[..|all|] == Map(f, all);
  }

  lemma NothingSentYet<A, B>(mapped: seq<A>, k: nat, sent: seq<B>, f: seq<A> -> B)
    requires k > 0
    ensures IsLeft(mapped, [], mapped, 0) && SplitsInto(Chunks(mapped, k), [], mapped, k) && WentIn(sent, sent, f, [])
  {
  }

  lemma SourceExhausted<T>(left: seq<T>, chunk: seq<T>, items: seq<T>)
    requires IsLeft(left, chunk, items, |items|)
    ensures left == chunk
  {
    assert chunk + items[|items|..] == chunk;
  }

  lemma BufferIsLeft<T>(left: seq<T>, chunk: seq<T>, items: seq<T>, i: nat)
    requires i <= |items| && chunk != [] && IsLeft(left, chunk, items, i)
    ensures left == chunk + items[i..] && IsLeft(items[i..], [], items, i)
  {
  }

  /** Buffers mapped items and sends a chunk whenever the buffer is full. Leaves the rest in `chunk`;
      after a failed send the buffer has just been swapped empty. */
  method SendFullChunks<A, B, C>(tx: Outbox<C>, src: seq<A>, chunkSize: nat, mapping: A -> B, transform: seq<B> -> C,
                                 ghost all: seq<seq<B>>)
    returns (chunk: seq<B>, ghost done: seq<seq<B>>, ghost left: seq<B>, ghost failed: bool)
    requires all == Chunks(Map(mapping, src), Max(1, chunkSize))
    modifies tx
    ensures WentIn(tx.sent, old(tx.sent), transform, done)
    ensures SplitsInto(all, done, left, Max(1, chunkSize))
    ensures AllSent(tx.outcomes, old(tx.attempts), old(tx.attempts) + |done|)
    ensures failed ==> chunk == [] && left != []
    ensures failed ==>
      tx.attempts == old(tx.attempts) + |done| + 1 && !OutcomeOf(tx.outcomes, old(tx.attempts) + |done|).Sent?
    ensures !failed ==> left == chunk && |chunk| < Max(1, chunkSize) && tx.attempts == old(tx.attempts) + |done|
  {
    hide SplitsInto, IsLeft, WentIn, Chunks;
    ghost var k := Max(1, chunkSize);
    ghost var mapped := Map(mapping, src);
    NothingSentYet(mapped, k, tx.sent, transform);
    left := mapped;
    done, chunk, failed := [], [], false;
    var i := 0;
    while i < |src|
      invariant i <= |src| && |chunk| < k
      invariant IsLeft(left, chunk, mapped, i) && SplitsInto(all, done, left, k)
      invariant WentIn(tx.sent, old(tx.sent), transform, done)
      invariant tx.attempts == old(tx.attempts) + |done|
      invariant AllSent(tx.outcomes, old(tx.attempts), tx.attempts)
    {
      NextItemIsBuffered(left, chunk, mapped, i);
      BufferIsLeft(left, chunk + [mapped[i]], mapped, i + 1);
      chunk := chunk + [mapping(src[i])];
      i := i + 1;
      if |chunk| < chunkSize { continue; }

      var chunkToSend := chunk;
      chunk := [];
      OneMoreWentIn(tx.sent, old(tx.sent), transform, done, chunkToSend);
      FullChunkIsNext(all, done, chunkToSend, mapped[i..], k);
      var result := tx.SendTimeout(transform(chunkToSend));
      if !result.Sent? { failed := true; return; }
      done := done + [chunkToSend];
      left := mapped[i..];
    }
    SourceExhausted(left, chunk, mapped);
  }

  /** `send_vec_to_stream_by_chunks`. A chunk size of 0 sends every item on its own. */
  method SendVecByChunks<A, B, C>(tx: Outbox<C>, src: seq<A>, chunkSize: nat, mapping: A -> B, transform: seq<B> -> C)
    returns (ghost n: nat)
    modifies tx
    ensures var all := Map(transform, Chunks(Map(mapping, src), Max(1, chunkSize)));
      && n <= |all|
      && tx.sent == old(tx.sent) + all[..n]
      && StoppedAt(tx.outcomes, old(tx.attempts), tx.attempts, |all|, n)
  {
    hide SplitsInto, WentIn, Chunks, Map;
    ghost var k := Max(1, chunkSize);
    ghost var all := Chunks(Map(mapping, src), k);
    var chunk;
    ghost var done, left, failed;
    chunk, done, left, failed := SendFullChunks(tx, src, chunkSize, mapping, transform, all);
    SentIsAPrefix(all, done, left, k, transform, tx.sent, old(tx.sent));
    n := |done|;
    if |chunk| > 0 {
      LastChunkCompletes(all, done, chunk, k, transform, tx.sent, old(tx.sent));
      var result := tx.SendTimeout(transform(chunk));
      if result.Sent? {
        n := n + 1;
      }
    }
  }
}
