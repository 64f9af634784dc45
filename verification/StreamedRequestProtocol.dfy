/** The request stream as concurrent jobs sharing one mutex: any number of producers sending, any
    number of spawned "bind the sender" jobs (one per consumer) and spawned end-of-stream jobs.
    A step is the stretch a job runs between two awaits. `send` and `set_sender` await channel
    capacity while they hold the mutex, so both take several steps; receiving never needs the mutex. */
module StreamedRequestProtocol {
  import opened Sequences

  /** What the mutex guards. S names a sender. */
  datatype RequestAsStream<T, S> =
    | NotInitialized(items: seq<T>, hasEndOfStream: bool)
    | Initialized(sender: Option<S>)

  /** The slot after `set_sender` ran on it and `forwarded` of the buffered items went through. */
  function SlotAfterBind<T, S>(slot: RequestAsStream<T, S>, sender: S, forwarded: nat): RequestAsStream<T, S> {
    match slot
    case NotInitialized(items, eof) =>
      if forwarded < |items| || eof then NotInitialized([], eof) else Initialized(Some(sender))
    case Initialized(_) => Initialized(Some(sender))
  }

  function SlotAfterEof<T, S>(slot: RequestAsStream<T, S>): RequestAsStream<T, S> {
    match slot
    case NotInitialized(items, _) => NotInitialized(items, true)
    case Initialized(_) => Initialized(None)
  }

  /** One bounded channel. `received + queue` is everything that ever entered it, also after the
      receiver closed; `lost` is what was meant for it and did not enter. */
  datatype Pipe<T> = Pipe(capacity: nat, received: seq<T>, queue: seq<T>, lost: seq<T>, open: bool, ended: bool) {
    function Entered(): seq<T> { received + queue }

    function Account(): seq<T> { Entered() + lost }

    predicate HasRoom() { open && |queue| < capacity }

    function Push(item: T): Pipe<T> { this.(queue := queue + [item]) }

    function Lose(items: seq<T>): Pipe<T> { this.(lost := lost + items) }
  }

  /** Who holds the mutex across an await. */
  datatype Mutex<T> =
    | Free
    | Sending(item: T, to: nat)
    | Draining(rest: seq<T>, to: nat)

  /** `requested` are channels whose bind job has not started, `leaving` those whose bind job has
      released the mutex and is about to drop the sender it did not store. `accepted` and `bound`
      are histories: items in the order `send` took them, channels in the order they were bound. */
  datatype State<T> = State(
    slot: RequestAsStream<T, nat>,
    mutex: Mutex<T>,
    pipes: seq<Pipe<T>>,
    requested: set<nat>,
    leaving: set<nat>,
    accepted: seq<T>,
    bound: seq<nat>,
    panics: nat)

  datatype Label<T> =
    | GetConsumer(capacity: nat)
    | BindBegin(c: nat)
    | DrainNext
    | DrainRefused
    | DrainEnd
    | DropSender(c: nat)
    | SendBegin(item: T)
    | SendDone
    | SendRefused
    | SendEof
    | Receive(c: nat)
    | ReceiveEnd(c: nat)
    | CloseReceiver(c: nat)

  function Start<T>(): State<T> {
    State(NotInitialized([], false), Free, [], {}, {}, [], [], 0)
  }

  function Count(b: bool): nat { if b then 1 else 0 }

  /** How many live sender handles of channel c exist. */
  function Handles<T>(s: State<T>, c: nat): nat {
    Count(c in s.requested) + Count(s.mutex.Draining? && s.mutex.to == c)
    + Count(s.slot.Initialized? && s.slot.sender == Some(c)) + Count(c in s.leaving)
  }

  predicate Enabled<T>(s: State<T>, l: Label<T>) {
    match l
    case GetConsumer(capacity) => capacity > 0
    case BindBegin(c) => s.mutex.Free? && c in s.requested
    case DrainNext => s.mutex.Draining? && s.mutex.rest != [] && s.mutex.to < |s.pipes| && s.pipes[s.mutex.to].HasRoom()
    case DrainRefused => s.mutex.Draining? && s.mutex.rest != [] && s.mutex.to < |s.pipes| && !s.pipes[s.mutex.to].open
    case DrainEnd => s.mutex.Draining? && s.mutex.rest == []
    case DropSender(c) => c in s.leaving
    case SendBegin(_) => s.mutex.Free?
    case SendDone => s.mutex.Sending? && s.mutex.to < |s.pipes| && s.pipes[s.mutex.to].HasRoom()
    case SendRefused => s.mutex.Sending? && s.mutex.to < |s.pipes| && !s.pipes[s.mutex.to].open
    case SendEof => s.mutex.Free?
    case Receive(c) => c < |s.pipes| && s.pipes[c].open && s.pipes[c].queue != []
    case ReceiveEnd(c) =>
      c < |s.pipes| && s.pipes[c].open && s.pipes[c].queue == [] && !s.pipes[c].ended && Handles(s, c) == 0
    case CloseReceiver(c) => c < |s.pipes| && s.pipes[c].open
  }

  function Next<T>(s: State<T>, l: Label<T>): State<T>
    requires Enabled(s, l)
  {
    match l
    case GetConsumer(capacity) =>
      s.(pipes := s.pipes + [Pipe(capacity, [], [], [], true, false)], requested := s.requested + {|s.pipes|})
    case BindBegin(c) =>
      var t := s.(requested := s.requested - {c}, bound := s.bound + [c]);
      (match s.slot
       case NotInitialized(items, eof) => t.(slot := NotInitialized([], eof), mutex := Draining(items, c))
       case Initialized(_) => t.(slot := Initialized(Some(c))))
    case DrainNext =>
      var c := s.mutex.to;
      s.(pipes := s.pipes[c := s.pipes[c].Push(s.mutex.rest[0])], mutex := Draining(s.mutex.rest[1..], c))
    case DrainRefused =>
      var c := s.mutex.to;
      s.(pipes := s.pipes[c := s.pipes[c].Lose(s.mutex.rest)], mutex := Free, leaving := s.leaving + {c})
    case DrainEnd =>
      if s.slot.NotInitialized? && s.slot.hasEndOfStream then
        s.(mutex := Free, leaving := s.leaving + {s.mutex.to})
      else
        s.(mutex := Free, slot := Initialized(Some(s.mutex.to)))
    case DropSender(c) => s.(leaving := s.leaving - {c})
    case SendBegin(item) =>
      (match s.slot
       case NotInitialized(items, eof) =>
         if eof then s.(panics := s.panics + 1)
         else s.(slot := NotInitialized(items + [item], false), accepted := s.accepted + [item])
       case Initialized(None) => s.(panics := s.panics + 1)
       case Initialized(Some(c)) => s.(mutex := Sending(item, c), accepted := s.accepted + [item]))
    case SendDone =>
      var c := s.mutex.to;
      s.(pipes := s.pipes[c := s.pipes[c].Push(s.mutex.item)], mutex := Free)
    case SendRefused =>
      var c := s.mutex.to;
      s.(pipes := s.pipes[c := s.pipes[c].Lose([s.mutex.item])], mutex := Free)
    case SendEof => s.(slot := SlotAfterEof(s.slot))
    case Receive(c) =>
      var p := s.pipes[c];
      s.(pipes := s.pipes[c := p.(received := p.received + [p.queue[0]], queue := p.queue[1..])])
    case ReceiveEnd(c) => s.(pipes := s.pipes[c := s.pipes[c].(ended := true)])
    case CloseReceiver(c) => s.(pipes := s.pipes[c := s.pipes[c].(open := false)])
  }

  ghost predicate Runs<T>(s: State<T>, labels: seq<Label<T>>, t: State<T>)
    decreases labels
  {
    if labels == [] then s == t
    else Enabled(s, labels[0]) && Runs(Next(s, labels[0]), labels[1..], t)
  }

  // ---- the invariant ----

  /** Items taken by the mutex holder or the buffer and not yet at a channel. */
  function Held<T>(s: State<T>): seq<T> {
    (match s.mutex
     case Free => []
     case Sending(item, _) => [item]
     case Draining(rest, _) => rest)
    + (if s.slot.NotInitialized? then s.slot.items else [])
  }

  /** Everything meant for the bound channels, in bind order. */
  function Ledger<T>(pipes: seq<Pipe<T>>, bound: seq<nat>): seq<T>
    requires forall i :: 0 <= i < |bound| ==> bound[i] < |pipes|
  {
    if bound == [] then [] else Ledger(pipes, DropLast(bound)) + pipes[Last(bound)].Account()
  }

  /** The same without the losses: the channel histories one after the other, in bind order. */
  function Histories<T>(pipes: seq<Pipe<T>>, bound: seq<nat>): seq<T>
    requires forall i :: 0 <= i < |bound| ==> bound[i] < |pipes|
  {
    if bound == [] then [] else Histories(pipes, DropLast(bound)) + pipes[Last(bound)].Entered()
  }

  ghost predicate BoundOnce<T>(s: State<T>) {
    && (forall i :: 0 <= i < |s.bound| ==> s.bound[i] < |s.pipes| && s.bound[i] !in s.requested)
    && (forall i, j :: 0 <= i < j < |s.bound| ==> s.bound[i] != s.bound[j])
    && (forall c :: c in s.requested ==> c < |s.pipes| && s.pipes[c].Account() == [])
    && (forall c: nat :: c < |s.pipes| ==> c in s.requested || c in s.bound)
  }

  ghost predicate HolderIsLatest<T>(s: State<T>) {
    && (!s.mutex.Free? ==> s.bound != [] && s.mutex.to == Last(s.bound))
    && (s.slot.Initialized? && s.slot.sender.Some? ==> s.bound != [] && s.slot.sender == Some(Last(s.bound)))
    && (s.mutex.Sending? ==> s.slot.Initialized? && s.slot.sender.Some?)
    && (s.mutex.Draining? ==> s.slot.NotInitialized? && s.slot.items == [])
    && (forall c :: c in s.leaving ==> c in s.bound)
    && (s.mutex.Draining? ==> s.mutex.to !in s.leaving)
    && (s.slot.Initialized? && s.slot.sender.Some? ==> s.slot.sender.value !in s.leaving)
  }

  ghost predicate PipesSound<T>(s: State<T>) {
    forall c: nat :: c < |s.pipes| ==>
      var p := s.pipes[c];
      && p.capacity > 0
      && |p.queue| <= p.capacity
      && (p.lost != [] ==> !p.open)
      && (p.ended ==> p.queue == [] && Handles(s, c) == 0)
  }

  ghost predicate Balanced<T>(s: State<T>)
    requires BoundOnce(s)
  {
    s.accepted == Ledger(s.pipes, s.bound) + Held(s)
  }

  ghost predicate Inv<T>(s: State<T>) {
    && BoundOnce(s)
    && HolderIsLatest(s)
    && PipesSound(s)
    && Balanced(s)
  }

  lemma FirstTwoDiffer(bound: seq<nat>)
    requires forall i, j :: 0 <= i < j < |bound| ==> bound[i] != bound[j]
    ensures |bound| > 1 ==> bound[0] != bound[1]
  {
  }

  lemma DistinctZeros(bound: seq<nat>)
    requires forall i :: 0 <= i < |bound| ==> bound[i] == 0
    requires forall i, j :: 0 <= i < j < |bound| ==> bound[i] != bound[j]
    ensures bound == [] || bound == [0]
  {
    FirstTwoDiffer(bound);
  }

  lemma NothingOrZero(requested: set<nat>)
    requires forall c :: c in requested ==> c == 0
    ensures requested == if 0 in requested then {0} else {}
  {
  }

  /** With one channel, it is either waiting to be bound or the only one bound. */
  lemma BoundIsZero<T>(s: State<T>)
    requires BoundOnce(s) && |s.pipes| <= 1
    ensures s.pipes == [] ==> s.bound == [] && s.requested == {}
    ensures |s.pipes| == 1 ==> (s.bound == [] && s.requested == {0}) || (s.bound == [0] && s.requested == {})
  {
    hide Pipe<T>.Account;
    DistinctZeros(s.bound);
    NothingOrZero(s.requested);
    if s.bound == [0] { assert s.bound[0] !in s.requested; }
    if |s.pipes| == 1 { assert 0 in s.requested || 0 in s.bound; }
  }

  // ---- preservation ----

  lemma {:induction false} LedgerFrame<T>(p: seq<Pipe<T>>, q: seq<Pipe<T>>, bound: seq<nat>)
    requires forall i :: 0 <= i < |bound| ==>
      bound[i] < |p| && bound[i] < |q| && p[bound[i]].Account() == q[bound[i]].Account()
    ensures Ledger(p, bound) == Ledger(q, bound)
  {
    if bound != [] {
      LedgerFrame(p, q, DropLast(bound));
    }
  }

  /** Changing only what the latest bound channel got changes only the end of the ledger. */
  lemma LedgerAtEnd<T>(p: seq<Pipe<T>>, q: seq<Pipe<T>>, bound: seq<nat>, more: seq<T>)
    requires bound != [] && |p| == |q|
    requires forall i :: 0 <= i < |bound| ==> bound[i] < |p|
    requires forall i, j :: 0 <= i < j < |bound| ==> bound[i] != bound[j]
    requires q[Last(bound)].Account() == p[Last(bound)].Account() + more
    requires forall c :: 0 <= c < |p| && c != Last(bound) ==> p[c] == q[c]
    ensures Ledger(q, bound) == Ledger(p, bound) + more
  {
    LedgerFrame(p, q, DropLast(bound));
    assert Ledger(p, DropLast(bound)) + (p[Last(bound)].Account() + more)
        == Ledger(p, DropLast(bound)) + p[Last(bound)].Account() + more;
  }

  lemma BindingPreservesBoundOnce<T>(s: State<T>, c: nat)
    requires BoundOnce(s) && Enabled(s, BindBegin(c))
    ensures BoundOnce(Next(s, BindBegin(c)))
  {
    var t := Next(s, BindBegin(c));
    forall d: nat | d < |t.pipes| ensures d in t.requested || d in t.bound {
      if d == c { assert t.bound[|s.bound|] == d; }
      else { assert d in s.requested || d in s.bound; }
    }
  }

  lemma BoundOncePreserved<T>(s: State<T>, l: Label<T>)
    requires BoundOnce(s) && HolderIsLatest(s) && Enabled(s, l)
    ensures BoundOnce(Next(s, l))
  {
    hide Handles;
    var t := Next(s, l);
    if l.BindBegin? {
      BindingPreservesBoundOnce(s, l.c);
    } else if l.GetConsumer? {
      assert forall c: nat :: c < |s.pipes| ==> t.pipes[c] == s.pipes[c];
    } else {
      assert t.bound == s.bound && t.requested == s.requested && |t.pipes| == |s.pipes|;
      forall c | c in t.requested ensures t.pipes[c].Account() == [] {
        assert s.pipes[c].Account() == [];
      }
    }
  }

  lemma HolderPreserved<T>(s: State<T>, l: Label<T>)
    requires BoundOnce(s) && HolderIsLatest(s) && Enabled(s, l)
    ensures HolderIsLatest(Next(s, l))
  {
    var t := Next(s, l);
    if l.BindBegin? {
      assert Last(t.bound) == l.c;
      forall c | c in t.leaving ensures c in t.bound && c != l.c { assert c in s.bound; }
    }
  }

  lemma EndedStaysEnded<T>(s: State<T>, l: Label<T>, c: nat)
    requires BoundOnce(s) && HolderIsLatest(s) && PipesSound(s) && Enabled(s, l)
    requires c < |Next(s, l).pipes| && Next(s, l).pipes[c].ended
    ensures Next(s, l).pipes[c].queue == [] && Handles(Next(s, l), c) == 0
  {
    assert c < |s.pipes| && Handles(s, c) == 0;
  }

  lemma PipesPreserved<T>(s: State<T>, l: Label<T>)
    requires BoundOnce(s) && HolderIsLatest(s) && PipesSound(s) && Enabled(s, l)
    ensures PipesSound(Next(s, l))
  {
    var t := Next(s, l);
    forall c: nat | c < |t.pipes|
      ensures var p := t.pipes[c];
        p.capacity > 0 && |p.queue| <= p.capacity && (p.lost != [] ==> !p.open)
        && (p.ended ==> p.queue == [] && Handles(t, c) == 0)
    {
      if t.pipes[c].ended { EndedStaysEnded(s, l, c); }
      if c < |s.pipes| { assert |s.pipes[c].queue| <= s.pipes[c].capacity; }
    }
  }

  predicate ReachesChannel<T>(l: Label<T>) {
    l.DrainNext? || l.DrainRefused? || l.SendDone? || l.SendRefused?
  }

  /** The items such a step settles, in the channel or lost to it. */
  function Settled<T>(s: State<T>, l: Label<T>): seq<T>
    requires Enabled(s, l) && ReachesChannel(l)
  {
    if s.mutex.Sending? then [s.mutex.item] else if l.DrainNext? then [s.mutex.rest[0]] else s.mutex.rest
  }

  lemma SettledItemsEnterTheAccount<T>(s: State<T>, l: Label<T>)
    requires HolderIsLatest(s) && PipesSound(s) && Enabled(s, l) && ReachesChannel(l)
    ensures var t := Next(s, l); var c := s.mutex.to;
      && t.bound == s.bound && t.accepted == s.accepted && s.bound != [] && c == Last(s.bound)
      && c < |s.pipes| == |t.pipes|
      && (forall d :: 0 <= d < |s.pipes| && d != c ==> t.pipes[d] == s.pipes[d])
      && t.pipes[c].Account() == s.pipes[c].Account() + Settled(s, l)
      && Settled(s, l) + Held(t) == Held(s)
  {
    hide Handles;
    assert l.DrainNext? || l.SendDone? ==> s.pipes[s.mutex.to].lost == [];
  }

  /** The four steps in which the mutex holder settles items with the latest channel: they move from
      the front of what is held to the end of the ledger, and so keep the balance. */
  lemma SettledItemsMoveToTheLedger<T>(s: State<T>, l: Label<T>)
    requires Inv(s) && Enabled(s, l) && ReachesChannel(l)
    requires BoundOnce(Next(s, l))
    ensures Ledger(Next(s, l).pipes, Next(s, l).bound) == Ledger(s.pipes, s.bound) + Settled(s, l)
    ensures Held(s) == Settled(s, l) + Held(Next(s, l))
    ensures Balanced(Next(s, l))
  {
    hide Next, Enabled, Held, Settled, Ledger, PipesSound, HolderIsLatest, Pipe<T>.Account;
    var t := Next(s, l);
    var more := Settled(s, l);
    SettledItemsEnterTheAccount(s, l);
    LedgerAtEnd(s.pipes, t.pipes, s.bound, more);
    assert Ledger(s.pipes, s.bound) + (more + Held(t)) == Ledger(s.pipes, s.bound) + more + Held(t);
  }

  /** The other steps leave every account as it was. */
  lemma OtherStepsKeepAccounts<T>(s: State<T>, l: Label<T>)
    requires BoundOnce(s) && Enabled(s, l) && !ReachesChannel(l)
    ensures if l.BindBegin? then Next(s, l).bound == s.bound + [l.c] && Next(s, l).pipes == s.pipes
      else Next(s, l).bound == s.bound
    ensures |s.pipes| <= |Next(s, l).pipes|
    ensures forall c: nat :: c < |s.pipes| ==> Next(s, l).pipes[c].Account() == s.pipes[c].Account()
  {
    if l.Receive? {
      assert Next(s, l).pipes[l.c].Entered() == s.pipes[l.c].Entered();
    }
  }

  lemma HeldGrowsWithAccepted<T>(s: State<T>, l: Label<T>)
    requires HolderIsLatest(s) && Enabled(s, l) && !ReachesChannel(l)
    ensures var more := if Next(s, l).accepted == s.accepted then [] else [l.item];
      Next(s, l).accepted == s.accepted + more && Held(Next(s, l)) == Held(s) + more
  {
    if l.SendBegin? && s.slot.NotInitialized? && !s.slot.hasEndOfStream {
      assert Held(s) == s.slot.items;
    }
  }

  lemma UnchangedAccountsKeepTheLedger<T>(s: State<T>, t: State<T>)
    requires BoundOnce(s) && t.bound == s.bound && |s.pipes| <= |t.pipes|
    requires forall c: nat :: c < |s.pipes| ==> t.pipes[c].Account() == s.pipes[c].Account()
    ensures forall i :: 0 <= i < |t.bound| ==> t.bound[i] < |t.pipes|
    ensures Ledger(t.pipes, t.bound) == Ledger(s.pipes, s.bound)
  {
    LedgerFrame(s.pipes, t.pipes, s.bound);
  }

  lemma BindingKeepsTheLedger<T>(s: State<T>, t: State<T>, c: nat)
    requires BoundOnce(s) && t.pipes == s.pipes && t.bound == s.bound + [c] && c in s.requested
    ensures forall i :: 0 <= i < |t.bound| ==> t.bound[i] < |t.pipes|
    ensures Ledger(t.pipes, t.bound) == Ledger(s.pipes, s.bound)
  {
    assert DropLast(t.bound) == s.bound && Last(t.bound) == c;
    assert s.pipes[c].Account() == [];
  }

  lemma BalanceMovesOn<T>(s: State<T>, t: State<T>, more: seq<T>)
    requires BoundOnce(s) && BoundOnce(t) && Balanced(s)
    requires Ledger(t.pipes, t.bound) == Ledger(s.pipes, s.bound)
    requires t.accepted == s.accepted + more && Held(t) == Held(s) + more
    ensures Balanced(t)
  {
    var settled := Ledger(s.pipes, s.bound);
    assert settled + (Held(s) + more) == settled + Held(s) + more;
  }

  lemma OtherStepsKeepBalance<T>(s: State<T>, l: Label<T>)
    requires BoundOnce(s) && HolderIsLatest(s) && Balanced(s) && Enabled(s, l) && !ReachesChannel(l)
    requires BoundOnce(Next(s, l))
    ensures Balanced(Next(s, l))
  {
    var t := Next(s, l);
    var more := if t.accepted == s.accepted then [] else [l.item];
    HeldGrowsWithAccepted(s, l);
    OtherStepsKeepAccounts(s, l);
    if l.BindBegin? {
      BindingKeepsTheLedger(s, t, l.c);
    } else {
      UnchangedAccountsKeepTheLedger(s, t);
    }
    BalanceMovesOn(s, t, more);
  }

  lemma InvPreserved<T>(s: State<T>, l: Label<T>)
    requires Inv(s) && Enabled(s, l)
    ensures Inv(Next(s, l))
  {
    BoundOncePreserved(s, l);
    HolderPreserved(s, l);
    PipesPreserved(s, l);
    if ReachesChannel(l) { SettledItemsMoveToTheLedger(s, l); } else { OtherStepsKeepBalance(s, l); }
  }

  lemma {:induction false} InvAlongRun<T>(s: State<T>, labels: seq<Label<T>>, t: State<T>)
    requires Inv(s) && Runs(s, labels, t)
    ensures Inv(t)
    decreases labels
  {
    if labels != [] {
      InvPreserved(s, labels[0]);
      InvAlongRun(Next(s, labels[0]), labels[1..], t);
    }
  }
}
