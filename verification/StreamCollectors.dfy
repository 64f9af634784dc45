/** The client loops that rebuild vectors and maps from a response stream. */
module StreamCollectors {
  import opened Sequences
  import opened ServerStreams

  /** What one wait for the next item brings. A stream that has nothing more ends. */
  datatype Arrival<T> = Item(value: T) | Failure(status: int) | NothingInTime

  datatype ReadError = Timeout | TonicStatus(status: int)

  predicate AllItems<T>(arrivals: seq<Arrival<T>>) {
    forall i :: 0 <= i < |arrivals| ==> arrivals[i].Item?
  }

  /** The n-th wait is the first that brings no item. */
  predicate FirstTrouble<T>(arrivals: seq<Arrival<T>>, n: int) {
    0 <= n < |arrivals| && !arrivals[n].Item? && AllItems(arrivals[..n])
  }

  function Values<T>(arrivals: seq<Arrival<T>>): (r: seq<T>)
    requires AllItems(arrivals)
    ensures |r| == |arrivals| && forall i :: 0 <= i < |r| ==> r[i] == arrivals[i].value
  {
    seq(|arrivals|, i requires 0 <= i < |arrivals| => arrivals[i].value)
  }

  lemma TroubleIsFirst<T>(arrivals: seq<Arrival<T>>, n: nat)
    requires FirstTrouble(arrivals, n)
    ensures !AllItems(arrivals) && forall m :: FirstTrouble(arrivals, m) ==> m == n
  {
    forall m, k | 0 <= k < m <= |arrivals| && AllItems(arrivals[..m]) ensures arrivals[k].Item? {
      assert arrivals[..m][k] == arrivals[k];
    }
  }

  /** `as_vec` and `as_vec_with_transformation`. Either everything arrived, or the first trouble is the
      result: never a partial success. */
  method AsVec<T, D>(arrivals: seq<Arrival<T>>, into: T -> D) returns (r: Result<seq<D>, ReadError>)
    ensures r.Ok? <==> AllItems(arrivals)
    ensures r.Ok? ==>
      |r.value| == |arrivals| && forall i :: 0 <= i < |arrivals| ==> r.value[i] == into(arrivals[i].value)
    ensures forall n :: FirstTrouble(arrivals, n) ==>
      r == Err(if arrivals[n].Failure? then TonicStatus(arrivals[n].status) else Timeout)
  {
    var result: seq<D> := [];
    for i := 0 to |arrivals|
      invariant AllItems(arrivals[..i])
      invariant |result| == i && forall k :: 0 <= k < i ==> arrivals[k].Item? && result[k] == into(arrivals[k].value)
    {
      match arrivals[i]
      case Item(item) => result := result + [into(item)];
      case Failure(status) => TroubleIsFirst(arrivals, i); return Err(TonicStatus(status));
      case NothingInTime => TroubleIsFirst(arrivals, i); return Err(Timeout);
    }
    return Ok(result);
  }

  // ---- maps ----

  /** What a map holds after the pairs were inserted one after the other. */
  function LastWins<K, V>(pairs: seq<(K, V)>): map<K, V> {
    if pairs == [] then map[] else LastWins(DropLast(pairs))[Last(pairs).0 := Last(pairs).1]
  }

  function PairsOf<T, K, V>(arrivals: seq<Arrival<T>>, getKey: T -> (K, V)): seq<(K, V)>
    requires AllItems(arrivals)
  {
    Map(getKey, Values(arrivals))
  }

  /** p[i] is the last pair with its key. */
  ghost predicate IsLastOfItsKey<K, V>(pairs: seq<(K, V)>, i: nat)
    requires i < |pairs|
  {
    forall j :: i < j < |pairs| ==> pairs[j].0 != pairs[i].0
  }

  lemma {:induction false} CollectedKeys<K, V>(pairs: seq<(K, V)>)
    ensures LastWins(pairs).Keys == (set p | p in pairs :: p.0)
  {
    if pairs != [] {
      var init := DropLast(pairs);
      CollectedKeys(init);
      assert pairs == init + [Last(pairs)];
      assert (set p | p in pairs :: p.0) == (set p | p in init :: p.0) + {Last(pairs).0};
    }
  }

  lemma {:induction false} LastWriteIsKept<K, V>(pairs: seq<(K, V)>, i: nat)
    requires i < |pairs| && IsLastOfItsKey(pairs, i)
    ensures pairs[i].0 in LastWins(pairs) && LastWins(pairs)[pairs[i].0] == pairs[i].1
  {
    if i < |pairs| - 1 {
      assert pairs[|pairs| - 1].0 != pairs[i].0;
      LastWriteIsKept(DropLast(pairs), i);
    }
  }

  /** Last write wins: the keys are those of the pairs, each with the value of the last pair that has it. */
  lemma MapHoldsTheLastWrites<K, V>(pairs: seq<(K, V)>)
    ensures LastWins(pairs).Keys == (set p | p in pairs :: p.0)
    ensures forall i :: 0 <= i < |pairs| && IsLastOfItsKey(pairs, i) ==>
      pairs[i].0 in LastWins(pairs) && LastWins(pairs)[pairs[i].0] == pairs[i].1
  {
    CollectedKeys(pairs);
    forall i | 0 <= i < |pairs| && IsLastOfItsKey(pairs, i)
      ensures pairs[i].0 in LastWins(pairs) && LastWins(pairs)[pairs[i].0] == pairs[i].1
    {
      LastWriteIsKept(pairs, i);
    }
  }

  ghost predicate NoLaterItemHasItsKey<T, K, V>(arrivals: seq<Arrival<T>>, getKey: T -> (K, V), i: nat)
    requires AllItems(arrivals) && i < |arrivals|
  {
    forall j :: i < j < |arrivals| ==> getKey(arrivals[j].value).0 != getKey(arrivals[i].value).0
  }

  /** The map has the keys of the items, each with the value of the last item that has it. */
  ghost predicate LastItemWins<T, K, V>(m: map<K, V>, arrivals: seq<Arrival<T>>, getKey: T -> (K, V))
    requires AllItems(arrivals)
  {
    && (forall k :: k in m ==> exists i :: 0 <= i < |arrivals| && getKey(arrivals[i].value).0 == k)
    && (forall i :: 0 <= i < |arrivals| ==> getKey(arrivals[i].value).0 in m)
    && (forall i :: 0 <= i < |arrivals| && NoLaterItemHasItsKey(arrivals, getKey, i) ==>
          m[getKey(arrivals[i].value).0] == getKey(arrivals[i].value).1)
  }

  lemma LastWinsByItems<T, K, V>(arrivals: seq<Arrival<T>>, getKey: T -> (K, V))
    requires AllItems(arrivals)
    ensures LastItemWins(LastWins(PairsOf(arrivals, getKey)), arrivals, getKey)
  {
    hide LastWins;
    var pairs := PairsOf(arrivals, getKey);
    assert forall i :: 0 <= i < |arrivals| ==> pairs[i] == getKey(arrivals[i].value);
    MapHoldsTheLastWrites(pairs);
    forall k | k in LastWins(pairs) ensures exists i :: 0 <= i < |arrivals| && getKey(arrivals[i].value).0 == k {
      var p :| p in pairs && p.0 == k;
      var i :| 0 <= i < |pairs| && pairs[i] == p;
      assert getKey(arrivals[i].value).0 == k;
    }
    forall i | 0 <= i < |arrivals| ensures getKey(arrivals[i].value).0 in LastWins(pairs) {
      assert pairs[i] in pairs;
    }
    forall i | 0 <= i < |arrivals| && NoLaterItemHasItsKey(arrivals, getKey, i)
      ensures LastWins(pairs)[getKey(arrivals[i].value).0] == getKey(arrivals[i].value).1
    {
      assert IsLastOfItsKey(pairs, i);
    }
  }

  /** `as_hash_map`; `as_b_tree_map` is the same loop over an ordered map. */
  method AsMap<T, K(==), V>(arrivals: seq<Arrival<T>>, getKey: T -> (K, V)) returns (r: Result<map<K, V>, ReadError>)
    ensures r.Ok? <==> AllItems(arrivals)
    ensures r.Ok? ==> r.value == LastWins(PairsOf(arrivals, getKey)) && LastItemWins(r.value, arrivals, getKey)
    ensures forall n :: FirstTrouble(arrivals, n) ==>
      r == Err(if arrivals[n].Failure? then TonicStatus(arrivals[n].status) else Timeout)
  {
    var result: map<K, V> := map[];
    for i := 0 to |arrivals|
      invariant AllItems(arrivals[..i])
      invariant result == LastWins(PairsOf(arrivals[..i], getKey))
    {
      match arrivals[i]
      case Item(item) =>
        var (key, value) := getKey(item);
        assert AllItems(arrivals[..i + 1]);
        ghost var pairs := PairsOf(arrivals[..i + 1], getKey);
        assert DropLast(pairs) == PairsOf(arrivals[..i], getKey) && Last(pairs) == (key, value);
        result := result[key := value];
      case Failure(status) => TroubleIsFirst(arrivals, i); return Err(TonicStatus(status));
      case NothingInTime => TroubleIsFirst(arrivals, i); return Err(Timeout);
    }
    assert arrivals[..|arrivals|] == arrivals;
    LastWinsByItems(arrivals, getKey);
    return Ok(result);
  }

  /** The entries of a map in any order build the map again. */
  lemma EntriesRebuildTheMap<K, V>(m: map<K, V>, order: seq<K>, pairs: seq<(K, V)>)
    requires Enumerates(order, m) && |pairs| == |order|
    requires forall i :: 0 <= i < |order| ==> order[i] in m && pairs[i] == (order[i], m[order[i]])
    ensures LastWins(pairs) == m
  {
    hide LastWins;
    MapHoldsTheLastWrites(pairs);
    forall k ensures k in LastWins(pairs) <==> k in m {
      if k in LastWins(pairs) {
        var p :| p in pairs && p.0 == k;
      }
      if k in m {
        assert k in order;
        var i :| 0 <= i < |order| && order[i] == k;
        assert pairs[i] in pairs;
      }
    }
    forall k | k in m ensures LastWins(pairs)[k] == m[k] {
      assert k in order;
      var i :| 0 <= i < |order| && order[i] == k;
      assert IsLastOfItsKey(pairs, i);
    }
  }

  /** Map round trip: whatever the iteration order of the sender's map, if every send went through and
      the key extractor undoes the mapping, the collected map is the map that was sent. */
  lemma CollectedMapIsTheSentMap<K, V, D>(m: map<K, V>, order: seq<K>, mapping: (K, V) -> D, getKey: D -> (K, V),
                                          arrivals: seq<Arrival<D>>)
    requires Enumerates(order, m)
    requires forall k :: k in m ==> getKey(mapping(k, m[k])) == (k, m[k])
    requires |arrivals| == |order|
    requires forall i :: 0 <= i < |order| ==> arrivals[i] == Item(Mapped(m, order, mapping)[i])
    ensures LastWins(PairsOf(arrivals, getKey)) == m
  {
    hide LastWins, Map, Mapped;
    var pairs := PairsOf(arrivals, getKey);
    forall i | 0 <= i < |order| ensures order[i] in m && pairs[i] == (order[i], m[order[i]]) {
      assert order[i] in order;
    }
    EntriesRebuildTheMap(m, order, pairs);
  }
}
