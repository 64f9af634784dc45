/** `StreamedResponseWriter` and the producers it hands out: many senders of one bounded channel whose
    receiver becomes the response stream. */
module ResponseWriter {
  import opened Sequences

  /** Handle 0 is the writer itself. */
  const WRITER: nat := 0

  /** `log` tags every item that entered the channel with its sender; `started` and `succeeded` are
      each handle's own histories of sends. Each handle awaits one send before the next. */
  datatype Writer<T> = Writer(
    capacity: nat,
    alive: set<nat>,
    created: nat,
    pending: map<nat, T>,
    queue: seq<T>,
    received: seq<T>,
    taken: bool,
    open: bool,
    ended: bool,
    log: seq<(nat, T)>,
    started: map<nat, seq<T>>,
    succeeded: map<nat, seq<T>>)

  datatype Event<T> =
    | GetStreamProducer
    | SendBegins(h: nat, item: T)
    | SendSucceeds(h: nat)
    | SendTimesOut(h: nat)
    | SendFindsClosed(h: nat)
    | DropProducer(h: nat)
    | GetResult
    | DropWriter
    | Receive
    | EndOfStream
    | CloseReceiver

  predicate Enabled<T>(w: Writer<T>, e: Event<T>) {
    match e
    case GetStreamProducer => WRITER in w.alive
    case SendBegins(h, _) => h in w.alive && h !in w.pending
    case SendSucceeds(h) => h in w.pending && w.open && |w.queue| < w.capacity
    case SendTimesOut(h) => h in w.pending
    case SendFindsClosed(h) => h in w.pending && !w.open
    case DropProducer(h) => h in w.alive && h != WRITER && h !in w.pending
    case GetResult => WRITER in w.alive && WRITER !in w.pending
    case DropWriter => WRITER in w.alive && WRITER !in w.pending
    case Receive => w.taken && w.open && w.queue != []
    case EndOfStream => w.taken && w.open && w.queue == [] && w.alive == {} && !w.ended
    case CloseReceiver => w.taken && w.open
  }

  function Own<T>(histories: map<nat, seq<T>>, h: nat): seq<T> {
    if h in histories then histories[h] else []
  }

  function Next<T>(w: Writer<T>, e: Event<T>): Writer<T>
    requires Enabled(w, e)
  {
    match e
    case GetStreamProducer => w.(created := w.created + 1, alive := w.alive + {w.created + 1})
    case SendBegins(h, item) =>
      w.(pending := w.pending[h := item], started := w.started[h := Own(w.started, h) + [item]])
    case SendSucceeds(h) =>
      var item := w.pending[h];
      w.(queue := w.queue + [item], log := w.log + [(h, item)], pending := w.pending - {h},
         succeeded := w.succeeded[h := Own(w.succeeded, h) + [item]])
    case SendTimesOut(h) => w.(pending := w.pending - {h})
    case SendFindsClosed(h) => w.(pending := w.pending - {h})
    case DropProducer(h) => w.(alive := w.alive - {h})
    case GetResult => w.(alive := w.alive - {WRITER}, taken := true)
    case DropWriter => w.(alive := w.alive - {WRITER}, open := false)
    case Receive => w.(received := w.received + [w.queue[0]], queue := w.queue[1..])
    case EndOfStream => w.(ended := true)
    case CloseReceiver => w.(open := false)
  }

  function Start<T>(capacity: nat): Writer<T> {
    Writer(capacity, {WRITER}, 0, map[], [], [], false, true, false, [], map[], map[])
  }

  ghost predicate Runs<T>(w: Writer<T>, events: seq<Event<T>>, v: Writer<T>)
    decreases events
  {
    if events == [] then w == v
    else Enabled(w, events[0]) && Runs(Next(w, events[0]), events[1..], v)
  }

  function Items<T>(log: seq<(nat, T)>): seq<T> {
    if log == [] then [] else Items(DropLast(log)) + [Last(log).1]
  }

  /** What sender h contributed to the log, in log order. */
  function Of<T>(log: seq<(nat, T)>, h: nat): seq<T> {
    if log == [] then []
    else Of(DropLast(log), h) + (if Last(log).0 == h then [Last(log).1] else [])
  }

  /** Of the started sends of h the succeeded ones, then possibly the one under way. */
  ghost predicate InOrder<T>(w: Writer<T>, h: nat) {
    if h in w.pending then
      var s := Own(w.started, h);
      s != [] && Last(s) == w.pending[h] && Subsequence(Own(w.succeeded, h), DropLast(s))
    else Subsequence(Own(w.succeeded, h), Own(w.started, h))
  }

  ghost predicate Inv<T>(w: Writer<T>) {
    && |w.queue| <= w.capacity
    && Items(w.log) == w.received + w.queue
    && (forall h: nat :: Of(w.log, h) == Own(w.succeeded, h))
    && (forall h: nat :: InOrder(w, h))
    && (forall h :: h in w.pending ==> h in w.alive)
    && (forall h :: h in w.alive ==> h <= w.created)
    && (w.taken ==> WRITER !in w.alive)
    && (w.ended ==> w.taken && w.alive == {} && w.queue == [])
  }

  lemma EmptyIsSubsequence<T>(ys: seq<T>)
    ensures Subsequence([], ys)
  {
    PrefixIsSubsequence([], ys);
    assert [] + ys == ys;
  }

  lemma SubsequenceOneMore<T>(xs: seq<T>, ys: seq<T>, y: T)
    requires Subsequence(xs, ys)
    ensures Subsequence(xs, ys + [y])
    ensures Subsequence(xs + [y], ys + [y])
  {
    EmptyIsSubsequence([y]);
    SubsequenceConcat(xs, ys, [], [y]);
    assert xs + [] == xs;
    PrefixIsSubsequence([y], []);
    assert [y] + [] == [y];
    SubsequenceConcat(xs, ys, [y], [y]);
  }

  lemma LastSendSucceeds<T>(w: Writer<T>, h: nat)
    requires InOrder(w, h) && h in w.pending
    ensures Subsequence(Own(w.succeeded, h) + [w.pending[h]], Own(w.started, h))
  {
    var s := Own(w.started, h);
    SubsequenceOneMore(Own(w.succeeded, h), DropLast(s), Last(s));
    assert DropLast(s) + [Last(s)] == s;
  }

  lemma FailedSendKeepsOrder<T>(w: Writer<T>, h: nat)
    requires InOrder(w, h) && h in w.pending
    ensures Subsequence(Own(w.succeeded, h), Own(w.started, h))
  {
    var s := Own(w.started, h);
    SubsequenceOneMore(Own(w.succeeded, h), DropLast(s), Last(s));
    assert DropLast(s) + [Last(s)] == s;
  }

  lemma InOrderPreserved<T>(w: Writer<T>, e: Event<T>, h: nat)
    requires InOrder(w, h) && Enabled(w, e)
    ensures InOrder(Next(w, e), h)
  {
    var v := Next(w, e);
    if e == SendSucceeds(h) {
      LastSendSucceeds(w, h);
    } else if e == SendTimesOut(h) || e == SendFindsClosed(h) {
      FailedSendKeepsOrder(w, h);
    } else if e.SendBegins? && e.h == h {
      assert DropLast(Own(w.started, h) + [e.item]) == Own(w.started, h);
    } else {
      assert h in v.pending <==> h in w.pending;
      assert Own(v.started, h) == Own(w.started, h) && Own(v.succeeded, h) == Own(w.succeeded, h);
    }
  }

  lemma ChannelPreserved<T>(w: Writer<T>, e: Event<T>)
    requires Inv(w) && Enabled(w, e)
    ensures var v := Next(w, e); |v.queue| <= v.capacity && Items(v.log) == v.received + v.queue
    ensures forall h: nat :: Of(Next(w, e).log, h) == Own(Next(w, e).succeeded, h)
  {
    var v := Next(w, e);
    if e.SendSucceeds? {
      assert DropLast(v.log) == w.log;
      assert v.received + v.queue == w.received + w.queue + [w.pending[e.h]];
    } else if e.Receive? {
      assert w.queue == [w.queue[0]] + w.queue[1..];
    }
  }

  lemma InvPreserved<T>(w: Writer<T>, e: Event<T>)
    requires Inv(w) && Enabled(w, e)
    ensures Inv(Next(w, e))
  {
    ChannelPreserved(w, e);
    forall h: nat ensures InOrder(Next(w, e), h) { InOrderPreserved(w, e, h); }
  }

  lemma {:induction false} InvAlongRun<T>(w: Writer<T>, events: seq<Event<T>>, v: Writer<T>)
    requires Inv(w) && Runs(w, events, v)
    ensures Inv(v)
    decreases events
  {
    if events != [] {
      InvPreserved(w, events[0]);
      InvAlongRun(Next(w, events[0]), events[1..], v);
    }
  }

  lemma StartSatisfiesInv<T>(capacity: nat)
    ensures Inv(Start<T>(capacity))
  {
    EmptyIsSubsequence<T>([]);
  }

  lemma {:induction false} CapacityIsKept<T>(w: Writer<T>, events: seq<Event<T>>, v: Writer<T>)
    requires Runs(w, events, v)
    ensures v.capacity == w.capacity
    decreases events
  {
    if events != [] { CapacityIsKept(Next(w, events[0]), events[1..], v); }
  }

  /** The received stream is always a prefix of a merge of what each sender got through; the merge keeps
      each sender's own order, and what got through is in the order the sender asked for it. */
  lemma ReceivedIsPrefixOfAMerge<T>(capacity: nat, events: seq<Event<T>>, v: Writer<T>)
    requires Runs(Start(capacity), events, v)
    ensures v.received <= Items(v.log)
    ensures forall h: nat :: Of(v.log, h) == Own(v.succeeded, h)
    ensures forall h: nat :: Subsequence(Own(v.succeeded, h), Own(v.started, h))
    ensures |v.queue| <= capacity
  {
    StartSatisfiesInv<T>(capacity);
    InvAlongRun(Start(capacity), events, v);
    CapacityIsKept(Start(capacity), events, v);
    forall h: nat ensures Subsequence(Own(v.succeeded, h), Own(v.started, h)) {
      assert InOrder(v, h);
      if h in v.pending { FailedSendKeepsOrder(v, h); }
    }
  }

  /** The stream ends only after the result was taken, every producer was dropped and everything sent
      was received; and then nothing is ever sent again. */
  lemma EndIsCompleteAndFinal<T>(capacity: nat, events: seq<Event<T>>, v: Writer<T>)
    requires Runs(Start(capacity), events, v) && v.ended
    ensures v.taken && v.alive == {} && v.received == Items(v.log)
    ensures forall e: Event<T> :: Enabled(v, e) ==> e.CloseReceiver?
  {
    StartSatisfiesInv<T>(capacity);
    InvAlongRun(Start(capacity), events, v);
    assert v.received + v.queue == v.received;
    assert forall h :: h !in v.pending;
  }

  predicate Drops<T>(events: seq<Event<T>>, h: nat) {
    events != [] && (events[0] == DropProducer(h) || Drops(events[1..], h))
  }

  lemma OnlyItsDropEndsAProducer<T>(w: Writer<T>, e: Event<T>, h: nat)
    requires Enabled(w, e) && h != WRITER && h <= w.created
    ensures h <= Next(w, e).created
    ensures h in Next(w, e).alive <==> h in w.alive && e != DropProducer(h)
  {
  }

  lemma {:induction false} ProducerStaysUntilDropped<T>(w: Writer<T>, events: seq<Event<T>>, v: Writer<T>, h: nat)
    requires Runs(w, events, v) && h != WRITER && h <= w.created
    ensures h in v.alive <==> h in w.alive && !Drops(events, h)
    decreases events
  {
    hide Next, Enabled;
    if events != [] {
      var u := Next(w, events[0]);
      OnlyItsDropEndsAProducer(w, events[0], h);
      ProducerStaysUntilDropped(u, events[1..], v, h);
    }
  }

  /** A producer handed out stays alive, and so keeps the stream from ending, exactly until it is
      dropped itself: neither taking the result nor dropping the writer or another producer ends it. */
  lemma HandedOutProducerLivesExactlyUntilDropped<T>(w: Writer<T>, events: seq<Event<T>>, v: Writer<T>)
    requires Inv(w) && Enabled(w, GetStreamProducer) && Runs(Next(w, GetStreamProducer), events, v)
    ensures w.created + 1 !in w.alive
    ensures w.created + 1 in v.alive <==> !Drops(events, w.created + 1)
    ensures v.ended ==> Drops(events, w.created + 1)
  {
    var u := Next(w, GetStreamProducer);
    InvPreserved(w, GetStreamProducer);
    InvAlongRun(u, events, v);
    ProducerStaysUntilDropped(u, events, v, w.created + 1);
  }
}
