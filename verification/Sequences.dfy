/** Small facts about sequences that several parts of the model share. */
module Sequences {

  datatype Option<+T> = None | Some(value: T)

  datatype Result<+T, +E> = Ok(value: T) | Err(error: E)

  function Max(a: nat, b: nat): nat {
    if a < b then b else a
  }

  function Last<T>(s: seq<T>): T
    requires s != []
  {
    s[|s| - 1]
  }

  function DropLast<T>(s: seq<T>): seq<T>
    requires s != []
  {
    s[..|s| - 1]
  }

  function Map<A, B>(f: A -> B, s: seq<A>): (r: seq<B>)
    ensures |r| == |s| && forall i :: 0 <= i < |s| ==> r[i] == f(s[i])
  {
    seq(|s|, i requires 0 <= i < |s| => f(s[i]))
  }

  function Filter<T>(keep: T -> bool, s: seq<T>): seq<T> {
    if s == [] then []
    else (if keep(s[0]) then [s[0]] else []) + Filter(keep, s[1..])
  }

  lemma {:induction false} FilterConcat<T>(keep: T -> bool, a: seq<T>, b: seq<T>)
    ensures Filter(keep, a + b) == Filter(keep, a) + Filter(keep, b)
  {
    if a == [] {
      assert a + b == b;
    } else {
      FilterConcat(keep, a[1..], b);
      assert (a + b)[1..] == a[1..] + b && (a + b)[0] == a[0];
      var head := if keep(a[0]) then [a[0]] else [];
      assert head + (Filter(keep, a[1..]) + Filter(keep, b)) == head + Filter(keep, a[1..]) + Filter(keep, b);
    }
  }

  function Flatten<T>(ss: seq<seq<T>>): seq<T> {
    if ss == [] then [] else ss[0] + Flatten(ss[1..])
  }

  /** The images of the elements, one after the other. */
  function FlatMap<A, B>(f: A -> seq<B>, s: seq<A>): seq<B> {
    if s == [] then [] else f(s[0]) + FlatMap(f, s[1..])
  }

  lemma {:induction false} FlatMapConcat<A, B>(f: A -> seq<B>, a: seq<A>, b: seq<A>)
    ensures FlatMap(f, a + b) == FlatMap(f, a) + FlatMap(f, b)
  {
    if a == [] {
      assert a + b == b;
    } else {
      FlatMapConcat(f, a[1..], b);
      assert (a + b)[1..] == a[1..] + b && (a + b)[0] == a[0];
      assert f(a[0]) + (FlatMap(f, a[1..]) + FlatMap(f, b)) == f(a[0]) + FlatMap(f, a[1..]) + FlatMap(f, b);
    }
  }

  lemma FlatMapOne<A, B>(f: A -> seq<B>, x: A)
    ensures FlatMap(f, [x]) == f(x)
  {
    assert [x][1..] == [] && f(x) + [] == f(x);
  }

  lemma FilterOne<T>(keep: T -> bool, x: T)
    ensures Filter(keep, [x]) == if keep(x) then [x] else []
  {
    assert [x][1..] == [];
  }

  // ---- splitting on a separator ----

  /** The pieces between the separators: one more than there are separators. */
  function Split<T(==)>(s: seq<T>, sep: T): (r: seq<seq<T>>)
    ensures r != []
  {
    if s == [] then [[]]
    else
      var rest := Split(s[1..], sep);
      if s[0] == sep then [[]] + rest else [[s[0]] + rest[0]] + rest[1..]
  }

  function Join<T>(pieces: seq<seq<T>>, sep: T): seq<T>
    requires pieces != []
  {
    if |pieces| == 1 then pieces[0]
    else pieces[0] + [sep] + Join(pieces[1..], sep)
  }

  lemma {:induction false} SplitPrefix<T>(a: seq<T>, b: seq<T>, sep: T)
    requires sep !in a
    ensures Split(a + b, sep) == [a + Split(b, sep)[0]] + Split(b, sep)[1..]
  {
    if a == [] {
      assert a + b == b;
      assert a + Split(b, sep)[0] == Split(b, sep)[0];
      assert Split(b, sep) == [Split(b, sep)[0]] + Split(b, sep)[1..];
    } else {
      SplitPrefix(a[1..], b, sep);
      assert (a + b)[1..] == a[1..] + b;
      assert [a[0]] + (a[1..] + Split(b, sep)[0]) == a + Split(b, sep)[0];
    }
  }

  lemma {:induction false} SplitJoin<T>(pieces: seq<seq<T>>, sep: T)
    requires pieces != []
    requires forall i :: 0 <= i < |pieces| ==> sep !in pieces[i]
    ensures Split(Join(pieces, sep), sep) == pieces
  {
    if |pieces| == 1 {
      SplitPrefix(pieces[0], [], sep);
      assert pieces[0] + [] == pieces[0];
    } else {
      var tail := Join(pieces[1..], sep);
      SplitJoin(pieces[1..], sep);
      SplitPrefix(pieces[0], [sep] + tail, sep);
      assert ([sep] + tail)[1..] == tail;
      assert pieces[0] + ([sep] + tail) == Join(pieces, sep);
      assert Split([sep] + tail, sep) == [[]] + pieces[1..];
      assert pieces[0] + [] == pieces[0];
      assert pieces == [pieces[0]] + pieces[1..];
    }
  }

  lemma {:induction false} JoinOneMore<T>(pieces: seq<seq<T>>, more: seq<T>, sep: T)
    requires pieces != []
    ensures Join(pieces + [more], sep) == Join(pieces, sep) + [sep] + more
  {
    var all := pieces + [more];
    if |pieces| == 1 {
      assert all[1..] == [more];
    } else {
      JoinOneMore(pieces[1..], more, sep);
      assert all[1..] == pieces[1..] + [more];
      var a, b, c := pieces[0] + [sep], Join(pieces[1..], sep), [sep] + more;
      assert a + (b + c) == a + b + c;
      assert b + [sep] + more == b + c;
      assert Join(pieces, sep) + [sep] + more == a + b + c;
    }
  }

  // ---- subsequences ----

  /** idx picks the elements of xs out of ys, left to right. */
  ghost predicate Picks<T>(idx: seq<nat>, xs: seq<T>, ys: seq<T>) {
    && |idx| == |xs|
    && (forall i :: 0 <= i < |idx| ==> idx[i] < |ys| && xs[i] == ys[idx[i]])
    && (forall i, j :: 0 <= i < j < |idx| ==> idx[i] < idx[j])
  }

  ghost predicate Subsequence<T>(xs: seq<T>, ys: seq<T>) {
    exists idx: seq<nat> :: Picks(idx, xs, ys)
  }

  lemma SubsequenceConcat<T>(a: seq<T>, b: seq<T>, c: seq<T>, d: seq<T>)
    requires Subsequence(a, b) && Subsequence(c, d)
    ensures Subsequence(a + c, b + d)
  {
    var i: seq<nat> :| Picks(i, a, b);
    var j: seq<nat> :| Picks(j, c, d);
    var k: seq<nat> := i + seq(|j|, n requires 0 <= n < |j| => j[n] + |b|);
    assert Picks(k, a + c, b + d);
  }

  lemma PrefixIsSubsequence<T>(a: seq<T>, b: seq<T>)
    ensures Subsequence(a, a + b)
  {
    var idx: seq<nat> := seq(|a|, n => n);
    assert Picks(idx, a, a + b);
  }
}
