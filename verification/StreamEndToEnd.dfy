/** A server stream from its source to the collected vector: the feeding job and the collecting client
    step concurrently, with a bounded channel and the transport between them. */
module StreamEndToEnd {
  import opened Sequences
  import opened StreamCollectors

  const CHANNEL_SIZE: nat := 100

  datatype Client<T> = Collecting(result: seq<T>) | Returned(outcome: Result<seq<T>, ReadError>)

  /** `next` counts the source items already sent. `feeding` ends when the loop ends and the sender is
      dropped; `broken` is a reset connection, which also takes the receiver away. */
  datatype Flow<S, T> = Flow(
    src: seq<S>,
    next: nat,
    feeding: bool,
    failed: bool,
    queue: seq<T>,
    wire: seq<T>,
    broken: bool,
    client: Client<T>)

  datatype Event =
    | Send
    | SendTimesOut
    | SendFindsClosed
    | SourceExhausted
    | Transmit
    | Break
    | Take
    | EndOfStream
    | ReadTimesOut
    | ReadFails(status: int)

  predicate Enabled<S, T>(f: Flow<S, T>, e: Event) {
    match e
    case Send => f.feeding && f.next < |f.src| && !f.broken && |f.queue| < CHANNEL_SIZE
    case SendTimesOut => f.feeding && f.next < |f.src| && |f.queue| >= CHANNEL_SIZE
    case SendFindsClosed => f.feeding && f.next < |f.src| && f.broken
    case SourceExhausted => f.feeding && f.next >= |f.src|
    case Transmit => f.queue != [] && !f.broken
    case Break => !f.broken
    case Take => f.client.Collecting? && f.wire != []
    case EndOfStream => f.client.Collecting? && f.wire == [] && f.queue == [] && !f.feeding && !f.broken
    case ReadTimesOut => f.client.Collecting? && f.wire == []
    case ReadFails(_) => f.client.Collecting? && f.wire == [] && f.broken
  }

  /** mapping is applied by the server to each source item, into by the client to each received one. */
  function Next<S, T>(f: Flow<S, T>, e: Event, mapping: S -> T, into: T -> T): Flow<S, T>
    requires Enabled(f, e)
  {
    match e
    case Send => f.(queue := f.queue + [mapping(f.src[f.next])], next := f.next + 1)
    case SendTimesOut => f.(failed := true, feeding := false)
    case SendFindsClosed => f.(failed := true, feeding := false)
    case SourceExhausted => f.(feeding := false)
    case Transmit => f.(queue := f.queue[1..], wire := f.wire + [f.queue[0]])
    case Break => f.(broken := true)
    case Take => f.(wire := f.wire[1..], client := Collecting(f.client.result + [into(f.wire[0])]))
    case EndOfStream => f.(client := Returned(Ok(f.client.result)))
    case ReadTimesOut => f.(client := Returned(Err(Timeout)), broken := true)
    case ReadFails(status) => f.(client := Returned(Err(TonicStatus(status))))
  }

  function Opening<S, T>(src: seq<S>): Flow<S, T> {
    Flow(src, 0, true, false, [], [], false, Collecting([]))
  }

  ghost predicate Runs<S, T>(f: Flow<S, T>, events: seq<Event>, g: Flow<S, T>, mapping: S -> T, into: T -> T)
    decreases events
  {
    if events == [] then f == g
    else Enabled(f, events[0]) && Runs(Next(f, events[0], mapping, into), events[1..], g, mapping, into)
  }

  /** The image of a source in the collected vector. */
  function Image<S, T>(src: seq<S>, mapping: S -> T, into: T -> T): seq<T> {
    Map(into, Map(mapping, src))
  }

  ghost predicate Inv<S, T>(f: Flow<S, T>, mapping: S -> T, into: T -> T) {
    && f.next <= |f.src|
    && |f.queue| <= CHANNEL_SIZE
    && (f.failed ==> !f.feeding && f.next < |f.src|)
    && (!f.feeding && !f.failed ==> f.next == |f.src|)
    && (f.client.Collecting? ==>
          f.client.result + Map(into, f.wire + f.queue) == Image(f.src[..f.next], mapping, into))
    && (f.client.Returned? && f.client.outcome.Ok? ==>
          !f.feeding && f.client.outcome.value == Image(f.src[..f.next], mapping, into))
  }

  /** On an unbroken connection a send fails only by a timeout on a full channel, so only when the
      source is longer than the channel. */
  ghost predicate FailsOnlyWhenLong<S, T>(f: Flow<S, T>) {
    && |f.queue| <= f.next
    && (f.failed && (!f.broken || (f.client.Returned? && f.client.outcome.Ok?)) ==> |f.src| > CHANNEL_SIZE)
  }

  lemma FailsOnlyWhenLongPreserved<S, T>(f: Flow<S, T>, e: Event, mapping: S -> T, into: T -> T)
    requires Inv(f, mapping, into) && FailsOnlyWhenLong(f) && Enabled(f, e)
    ensures FailsOnlyWhenLong(Next(f, e, mapping, into))
  {
    hide Image;
  }

  lemma SentItemJoinsTheImage<S, T>(src: seq<S>, n: nat, carried: seq<T>, mapping: S -> T, into: T -> T)
    requires n < |src|
    ensures Map(into, carried + [mapping(src[n])]) == Map(into, carried) + [into(mapping(src[n]))]
    ensures Image(src[..n + 1], mapping, into) == Image(src[..n], mapping, into) + [into(mapping(src[n]))]
  {
    assert src[..n + 1] == src[..n] + [src[n]];
  }

  lemma TakenItemMovesToTheResult<T>(result: seq<T>, wire: seq<T>, queue: seq<T>, into: T -> T)
    requires wire != []
    ensures result + [into(wire[0])] + Map(into, wire[1..] + queue) == result + Map(into, wire + queue)
  {
    assert (wire + queue)[0] == wire[0] && (wire + queue)[1..] == wire[1..] + queue;
    assert Map(into, wire + queue) == [into(wire[0])] + Map(into, wire[1..] + queue);
  }

  lemma InvPreserved<S, T>(f: Flow<S, T>, e: Event, mapping: S -> T, into: T -> T)
    requires Inv(f, mapping, into) && Enabled(f, e)
    ensures Inv(Next(f, e, mapping, into), mapping, into)
  {
    if e.Send? {
      SentItemJoinsTheImage(f.src, f.next, f.wire + f.queue, mapping, into);
      assert f.wire + (f.queue + [mapping(f.src[f.next])]) == f.wire + f.queue + [mapping(f.src[f.next])];
    } else if e.Transmit? {
      assert f.wire + [f.queue[0]] + f.queue[1..] == f.wire + f.queue;
    } else if e.Take? {
      TakenItemMovesToTheResult(f.client.result, f.wire, f.queue, into);
    } else if e.EndOfStream? {
      assert f.wire + f.queue == [];
    }
  }

  lemma {:induction false} InvAlongRun<S, T>(f: Flow<S, T>, events: seq<Event>, g: Flow<S, T>,
                                             mapping: S -> T, into: T -> T)
    requires Inv(f, mapping, into) && FailsOnlyWhenLong(f) && Runs(f, events, g, mapping, into)
    ensures Inv(g, mapping, into) && FailsOnlyWhenLong(g) && g.src == f.src
    decreases events
  {
    if events != [] {
      InvPreserved(f, events[0], mapping, into);
      FailsOnlyWhenLongPreserved(f, events[0], mapping, into);
      InvAlongRun(Next(f, events[0], mapping, into), events[1..], g, mapping, into);
    }
  }

  lemma ImageIsWholeExactly<S, T>(src: seq<S>, n: nat, mapping: S -> T, into: T -> T)
    requires n <= |src|
    ensures Image(src[..n], mapping, into) == Image(src, mapping, into) <==> n == |src|
  {
    if n == |src| {
      assert src[..n] == src;
    } else {
      assert |Image(src[..n], mapping, into)| < |Image(src, mapping, into)|;
    }
  }

  lemma OpeningSatisfiesInv<S, T>(src: seq<S>, mapping: S -> T, into: T -> T)
    ensures Inv(Opening(src), mapping, into) && FailsOnlyWhenLong<S, T>(Opening(src))
  {
  }

  /** If the collector succeeds its vector is the image of a prefix of the source, of all of it exactly
      when no send of the server failed. The channel never holds more than its size. */
  lemma CollectedVectorIsAPrefixImage<S, T>(src: seq<S>, events: seq<Event>, g: Flow<S, T>,
                                            mapping: S -> T, into: T -> T)
    requires Runs(Opening(src), events, g, mapping, into)
    ensures |g.queue| <= CHANNEL_SIZE
    ensures g.client.Returned? && g.client.outcome.Ok? ==>
      && g.next <= |src|
      && g.client.outcome.value == Image(src[..g.next], mapping, into)
      && (g.client.outcome.value == Image(src, mapping, into) <==> !g.failed)
  {
    hide Image, Runs;
    OpeningSatisfiesInv(src, mapping, into);
    InvAlongRun(Opening(src), events, g, mapping, into);
    ImageIsWholeExactly(src, g.next, mapping, into);
  }

  /** A source that fits into the channel arrives whole whenever the collector succeeds. */
  lemma ShortSourcesArriveWhole<S, T>(src: seq<S>, events: seq<Event>, g: Flow<S, T>, mapping: S -> T, into: T -> T)
    requires |src| <= CHANNEL_SIZE && Runs(Opening(src), events, g, mapping, into)
    ensures g.client.Returned? && g.client.outcome.Ok? ==> g.client.outcome.value == Image(src, mapping, into)
  {
    hide Image, Runs;
    OpeningSatisfiesInv(src, mapping, into);
    InvAlongRun(Opening(src), events, g, mapping, into);
    CollectedVectorIsAPrefixImage(src, events, g, mapping, into);
  }

  // ---- a partial success does happen ----

  lemma {:induction false} RunsThenOne<S, T>(f: Flow<S, T>, events: seq<Event>, g: Flow<S, T>, e: Event,
                                             mapping: S -> T, into: T -> T)
    requires Runs(f, events, g, mapping, into) && Enabled(g, e)
    ensures Runs(f, events + [e], Next(g, e, mapping, into), mapping, into)
    decreases events
  {
    if events == [] {
      assert events + [e] == [e] && [e][1..] == [];
    } else {
      assert (events + [e])[1..] == events[1..] + [e];
      RunsThenOne(Next(f, events[0], mapping, into), events[1..], g, e, mapping, into);
    }
  }

  lemma {:induction false} FillChannel<S, T>(src: seq<S>, n: nat, mapping: S -> T, into: T -> T)
    returns (events: seq<Event>, g: Flow<S, T>)
    requires n <= CHANNEL_SIZE && n < |src|
    ensures Runs(Opening(src), events, g, mapping, into)
    ensures g.src == src && g.next == n && g.feeding && !g.failed && !g.broken
    ensures g.client == Collecting([]) && g.wire == []
    ensures |g.queue| == n
    decreases n
  {
    if n == 0 {
      events, g := [], Opening(src);
    } else {
      var before, h := FillChannel(src, n - 1, mapping, into);
      events, g := before + [Send], Next(h, Send, mapping, into);
      RunsThenOne(Opening(src), before, h, Send, mapping, into);
    }
  }

  lemma {:induction false} DrainChannel<S, T>(start: Flow<S, T>, before: seq<Event>, f: Flow<S, T>,
                                              mapping: S -> T, into: T -> T)
    returns (events: seq<Event>, g: Flow<S, T>)
    requires Runs(start, before, f, mapping, into)
    requires !f.feeding && f.failed && !f.broken && f.client.Collecting? && f.wire == []
    ensures Runs(start, events, g, mapping, into)
    ensures g.failed && g.client.Returned? && g.client.outcome.Ok?
    decreases |f.queue|
  {
    if f.queue == [] {
      events, g := before + [EndOfStream], Next(f, EndOfStream, mapping, into);
      RunsThenOne(start, before, f, EndOfStream, mapping, into);
    } else {
      var h := Next(f, Transmit, mapping, into);
      RunsThenOne(start, before, f, Transmit, mapping, into);
      RunsThenOne(start, before + [Transmit], h, Take, mapping, into);
      events, g := DrainChannel(start, before + [Transmit] + [Take], Next(h, Take, mapping, into), mapping, into);
    }
  }

  /** For every source longer than the channel there is a run in which a send times out and the client
      is told Ok all the same, with a proper prefix. */
  lemma PartialSuccessExists<S, T>(src: seq<S>, mapping: S -> T, into: T -> T)
    returns (events: seq<Event>, g: Flow<S, T>)
    requires |src| > CHANNEL_SIZE
    ensures Runs(Opening(src), events, g, mapping, into)
    ensures g.client.Returned? && g.client.outcome.Ok? && g.client.outcome.value != Image(src, mapping, into)
  {
    var before, f := FillChannel(src, CHANNEL_SIZE, mapping, into);
    RunsThenOne(Opening(src), before, f, SendTimesOut, mapping, into);
    events, g :=
      DrainChannel(Opening(src), before + [SendTimesOut], Next(f, SendTimesOut, mapping, into), mapping, into);
    CollectedVectorIsAPrefixImage(src, events, g, mapping, into);
  }

  ghost predicate CanBePartial<S(!new), T(!new)>(src: seq<S>, mapping: S -> T, into: T -> T) {
    exists events, g ::
      Runs(Opening(src), events, g, mapping, into)
      && g.client.Returned? && g.client.outcome.Ok? && g.client.outcome.value != Image(src, mapping, into)
  }

  /** The client can be told Ok with a part of the source exactly when the source is longer than the
      channel. */
  lemma PartialSuccessExactlyForLongSources<S(!new), T(!new)>(src: seq<S>, mapping: S -> T, into: T -> T)
    ensures CanBePartial(src, mapping, into) <==> |src| > CHANNEL_SIZE
  {
    if |src| > CHANNEL_SIZE {
      var events, g := PartialSuccessExists(src, mapping, into);
    } else {
      forall events, g | Runs(Opening(src), events, g, mapping, into)
        ensures g.client.Returned? && g.client.outcome.Ok? ==> g.client.outcome.value == Image(src, mapping, into)
      {
        ShortSourcesArriveWhole(src, events, g, mapping, into);
      }
    }
  }
}
