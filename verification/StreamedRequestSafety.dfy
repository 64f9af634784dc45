/** What holds of the request stream in every interleaving, for any number of producers, consumers
    (one per attempt of a retried request) and end-of-stream jobs. */
module StreamedRequestSafety {
  import opened Sequences
  import opened StreamedRequestProtocol

  lemma StartSatisfiesInv<T>()
    ensures Inv(Start<T>())
  {
    assert Held(Start<T>()) == [];
  }

  lemma ReachableStatesSatisfyInv<T>(labels: seq<Label<T>>, t: State<T>)
    requires Runs(Start(), labels, t)
    ensures Inv(t)
  {
    StartSatisfiesInv<T>();
    InvAlongRun(Start(), labels, t);
  }

  // ---- no item is duplicated or reordered; what is lost is accounted for ----

  lemma {:induction false} HistoriesWithinLedger<T>(pipes: seq<Pipe<T>>, bound: seq<nat>)
    requires forall i :: 0 <= i < |bound| ==> bound[i] < |pipes|
    ensures Subsequence(Histories(pipes, bound), Ledger(pipes, bound))
  {
    if bound == [] {
      PrefixIsSubsequence<T>([], []);
      var none: seq<T> := [];
      assert none + none == none;
    } else {
      var p := pipes[Last(bound)];
      HistoriesWithinLedger(pipes, DropLast(bound));
      PrefixIsSubsequence(p.Entered(), p.lost);
      SubsequenceConcat(Histories(pipes, DropLast(bound)), Ledger(pipes, DropLast(bound)), p.Entered(), p.Account());
    }
  }

  /** Over any number of rebinds: the channel histories, concatenated in bind order, pick strictly
      increasing positions of the accepted items, so each accepted item enters at most one channel,
      once. Every other accepted item is still held or was lost to a channel whose receiver closed. */
  lemma RebindsNeverDuplicateOrReorder<T>(labels: seq<Label<T>>, t: State<T>)
    requires Runs(Start(), labels, t)
    ensures BoundOnce(t)
    ensures Subsequence(Histories(t.pipes, t.bound), t.accepted)
    ensures t.accepted == Ledger(t.pipes, t.bound) + Held(t)
    ensures forall c: nat :: c < |t.pipes| && t.pipes[c].lost != [] ==> !t.pipes[c].open
  {
    ReachableStatesSatisfyInv(labels, t);
    HistoriesWithinLedger(t.pipes, t.bound);
    PrefixIsSubsequence<T>([], Held(t));
    assert [] + Held(t) == Held(t);
    SubsequenceConcat(Histories(t.pipes, t.bound), Ledger(t.pipes, t.bound), [], Held(t));
    assert Histories(t.pipes, t.bound) + [] == Histories(t.pipes, t.bound);
  }

  /** With one consumer whose receiver stays open nothing is lost: received, queued, in the hands of
      the mutex holder and buffered, in this order, are the items accepted. */
  lemma SingleBindConservesItems<T>(labels: seq<Label<T>>, t: State<T>)
    requires Runs(Start(), labels, t)
    requires |t.pipes| == 1 && t.pipes[0].open
    ensures t.accepted == t.pipes[0].received + t.pipes[0].queue + Held(t)
    ensures |t.pipes[0].queue| <= t.pipes[0].capacity
  {
    ReachableStatesSatisfyInv(labels, t);
    if t.bound == [] {
      assert 0 in t.requested || 0 in t.bound;
      assert t.pipes[0].Account() == [];
    } else {
      BoundIsZero(t);
      assert Ledger(t.pipes, t.bound) == Ledger(t.pipes, []) + t.pipes[0].Account();
    }
  }

  // ---- end of stream ----

  /** A channel never has two live senders, and one without a sender never gets another. */
  lemma AtMostOneSender<T>(s: State<T>, l: Label<T>, c: nat)
    requires Inv(s) && Enabled(s, l) && c < |s.pipes|
    ensures Handles(s, c) <= 1
    ensures Handles(s, c) == 0 ==> Handles(Next(s, l), c) == 0
  {
    if c in s.requested {
      assert c !in s.bound;
    }
  }

  lemma SenderlessChannelIsFrozen<T>(s: State<T>, l: Label<T>, c: nat)
    requires Inv(s) && Enabled(s, l) && c < |s.pipes| && Handles(s, c) == 0
    ensures c < |Next(s, l).pipes|
    ensures Next(s, l).pipes[c].Entered() == s.pipes[c].Entered()
  {
    hide Balanced, BoundOnce, PipesSound;
    if l.Receive? && l.c == c {
      assert s.pipes[c].queue == [s.pipes[c].queue[0]] + s.pipes[c].queue[1..];
    }
  }

  /** Over every run: a channel that has lost its sender stays without one, and nothing enters it. */
  lemma {:induction false} SenderlessChannelStaysFrozen<T>(s: State<T>, labels: seq<Label<T>>, t: State<T>, c: nat)
    requires Inv(s) && c < |s.pipes| && Handles(s, c) == 0 && Runs(s, labels, t)
    ensures c < |t.pipes| && Handles(t, c) == 0
    ensures t.pipes[c].Entered() == s.pipes[c].Entered()
    decreases labels
  {
    hide Inv, Handles, Enabled;
    if labels != [] {
      InvPreserved(s, labels[0]);
      AtMostOneSender(s, labels[0], c);
      SenderlessChannelIsFrozen(s, labels[0], c);
      SenderlessChannelStaysFrozen(Next(s, labels[0]), labels[1..], t, c);
    }
  }

  lemma EndedStep<T>(s: State<T>, l: Label<T>, c: nat)
    requires Inv(s) && Enabled(s, l) && c < |s.pipes| && s.pipes[c].ended
    ensures var p := Next(s, l).pipes[c]; p.ended && p.received == s.pipes[c].received
  {
    hide Balanced, BoundOnce;
  }

  /** End-of-stream is final: whatever runs after a consumer saw it, that consumer already had
      everything that ever enters its channel. */
  lemma {:induction false} EndOfStreamIsFinal<T>(s: State<T>, labels: seq<Label<T>>, t: State<T>, c: nat)
    requires Inv(s) && c < |s.pipes| && s.pipes[c].ended && Runs(s, labels, t)
    ensures c < |t.pipes| && t.pipes[c].ended && t.pipes[c].queue == []
    ensures t.pipes[c].received == s.pipes[c].received
    decreases labels
  {
    if labels != [] {
      InvPreserved(s, labels[0]);
      EndedStep(s, labels[0], c);
      EndOfStreamIsFinal(Next(s, labels[0]), labels[1..], t, c);
    }
  }

  lemma {:induction false} RunsConcat<T>(s: State<T>, a: seq<Label<T>>, t: State<T>, b: seq<Label<T>>, u: State<T>)
    requires Runs(s, a, t) && Runs(t, b, u)
    ensures Runs(s, a + b, u)
    decreases a
  {
    if a == [] {
      assert a + b == b;
    } else {
      assert (a + b)[0] == a[0] && (a + b)[1..] == a[1..] + b;
      RunsConcat(Next(s, a[0]), a[1..], t, b, u);
    }
  }

  lemma TwoSteps<T>(s: State<T>, x: Label<T>, y: Label<T>) returns (t: State<T>)
    requires Enabled(s, x) && Enabled(Next(s, x), y)
    ensures t == Next(Next(s, x), y) && Runs(s, [x, y], t)
  {
    t := Next(Next(s, x), y);
    assert [x, y][1..] == [y] && [y][1..] == [];
    assert Runs(Next(s, x), [y], t);
  }

  // ---- nobody waits for the mutex forever ----

  /** The step the mutex holder itself takes. */
  predicate IsHolderStep<T>(l: Label<T>) {
    ReachesChannel(l) || l.DrainEnd?
  }

  /** No deadlock, with any number of producers and consumers, whatever receivers have closed: while
      the mutex is held the holder can go on, or its channel is full and open and can be read, which
      does not need the mutex. */
  lemma HeldMutexCanProceed<T>(s: State<T>) returns (l: Label<T>)
    requires Inv(s) && !s.mutex.Free?
    ensures Enabled(s, l) && (IsHolderStep(l) || l == Receive(s.mutex.to))
    ensures l.Receive? ==> |s.pipes[l.c].queue| == s.pipes[l.c].capacity
  {
    hide Balanced, Handles;
    var p := s.pipes[s.mutex.to];
    match s.mutex
    case Sending(_, c) => l := if p.HasRoom() then SendDone else if p.open then Receive(c) else SendRefused;
    case Draining(rest, c) =>
      l := if rest == [] then DrainEnd
        else if p.HasRoom() then DrainNext
        else if p.open then Receive(c) else DrainRefused;
  }

  // ---- an ended stream, and what revives it ----

  /** The end was processed and no sender has been stored since. */
  predicate Over<T>(s: State<T>) {
    match s.slot
    case NotInitialized(_, hasEndOfStream) => hasEndOfStream
    case Initialized(sender) => sender.None?
  }

  ghost predicate OverThroughout<T>(s: State<T>, labels: seq<Label<T>>)
    decreases labels
  {
    Over(s) && (labels == [] || (Enabled(s, labels[0]) && OverThroughout(Next(s, labels[0]), labels[1..])))
  }

  predicate HasBind<T>(labels: seq<Label<T>>) {
    labels != [] && (labels[0].BindBegin? || HasBind(labels[1..]))
  }

  lemma StepWhenOver<T>(s: State<T>, l: Label<T>)
    requires Inv(s) && Over(s) && Enabled(s, l)
    ensures Next(s, l).accepted == s.accepted
    ensures Over(Next(s, l)) <==> s.slot.NotInitialized? || !l.BindBegin?
    ensures Over(Next(s, l)) ==> (Next(s, l).slot.NotInitialized? <==> s.slot.NotInitialized?)
    ensures l.BindBegin? && s.slot.Initialized? ==> Next(s, l).slot == Initialized(Some(l.c))
  {
    hide BoundOnce, PipesSound, Balanced, Handles;
  }

  /** An ended stream stays ended along a run exactly when it ended before any bind had stored a
      sender, or nothing is bound in the run. While it does, nothing is accepted. */
  lemma {:induction false} EndedStreamStaysEndedExactly<T>(s: State<T>, labels: seq<Label<T>>, t: State<T>)
    requires Inv(s) && Over(s) && Runs(s, labels, t)
    ensures OverThroughout(s, labels) <==> s.slot.NotInitialized? || !HasBind(labels)
    ensures OverThroughout(s, labels) ==> Over(t) && t.accepted == s.accepted
    ensures s.slot.NotInitialized? ==> t.slot.NotInitialized?
    decreases labels
  {
    hide Inv, Next, Enabled;
    if labels != [] {
      var u := Next(s, labels[0]);
      StepWhenOver(s, labels[0]);
      InvPreserved(s, labels[0]);
      if Over(u) { EndedStreamStaysEndedExactly(u, labels[1..], t); }
    }
  }

  /** A send panics exactly on an ended stream, and takes its item exactly otherwise. */
  lemma SendPanicsExactlyWhenOver<T>(s: State<T>, item: T)
    requires Enabled(s, SendBegin(item))
    ensures Next(s, SendBegin(item)).panics == s.panics + (if Over(s) then 1 else 0)
    ensures Next(s, SendBegin(item)).accepted == s.accepted + (if Over(s) then [] else [item])
    ensures Over(s) ==> Next(s, SendBegin(item)).slot == s.slot && Next(s, SendBegin(item)).pipes == s.pipes
  {
  }

  lemma UnboundStep<T>(s: State<T>, l: Label<T>)
    requires s.mutex.Free? && s.slot.NotInitialized? && Enabled(s, l) && !l.BindBegin?
    ensures var u := Next(s, l);
      && u.mutex.Free? && u.slot.NotInitialized? && s.accepted <= u.accepted && |s.pipes| <= |u.pipes|
      && u.slot.items == s.slot.items + u.accepted[|s.accepted|..]
      && (forall c :: 0 <= c < |s.pipes| ==>
            u.pipes[c].Entered() == s.pipes[c].Entered() && u.pipes[c].lost == s.pipes[c].lost)
  {
    if l.Receive? {
      assert Next(s, l).pipes[l.c].Entered() == s.pipes[l.c].Entered();
    }
  }

  lemma GrownInTwoSteps<T>(a: seq<T>, b: seq<T>, c: seq<T>, items: seq<T>)
    requires a <= b <= c
    ensures a <= c && items + c[|a|..] == items + b[|a|..] + c[|b|..]
  {
    assert c[|a|..] == b[|a|..] + c[|b|..];
  }

  lemma {:induction false} UnboundStreamBuffers<T>(s: State<T>, labels: seq<Label<T>>, t: State<T>)
    requires Inv(s) && s.mutex.Free? && s.slot.NotInitialized? && Runs(s, labels, t) && !HasBind(labels)
    ensures t.mutex.Free? && t.slot.NotInitialized? && s.accepted <= t.accepted && |s.pipes| <= |t.pipes|
    ensures t.slot.items == s.slot.items + t.accepted[|s.accepted|..]
    ensures forall c :: 0 <= c < |s.pipes| ==>
      t.pipes[c].Entered() == s.pipes[c].Entered() && t.pipes[c].lost == s.pipes[c].lost
    decreases labels
  {
    hide Next, Enabled, Inv;
    if labels != [] {
      var u := Next(s, labels[0]);
      InvPreserved(s, labels[0]);
      UnboundStep(s, labels[0]);
      UnboundStreamBuffers(u, labels[1..], t);
      GrownInTwoSteps(s.accepted, u.accepted, t.accepted, s.slot.items);
    } else {
      assert s.slot.items + s.accepted[|s.accepted|..] == s.slot.items;
    }
  }

  /** A bind whose drain is refused leaves the stream unbound: until the next bind everything accepted
      is held for it, and nothing more is lost to the channel that refused. */
  lemma RefusedDrainLeavesTheStreamUnbound<T>(s: State<T>, labels: seq<Label<T>>, t: State<T>)
    requires Inv(s) && Enabled(s, DrainRefused) && !HasBind(labels)
    requires Runs(Next(s, DrainRefused), labels, t)
    ensures t.slot.NotInitialized? && t.mutex.Free? && s.mutex.to < |t.pipes|
    ensures t.accepted == s.accepted + t.slot.items
    ensures t.pipes[s.mutex.to].Entered() == s.pipes[s.mutex.to].Entered()
    ensures t.pipes[s.mutex.to].lost == s.pipes[s.mutex.to].lost + s.mutex.rest
  {
    var u := Next(s, DrainRefused);
    InvPreserved(s, DrainRefused);
    UnboundStreamBuffers(u, labels, t);
    assert t.accepted == u.accepted + t.accepted[|u.accepted|..];
  }

  /** A consumer's channel never holds more than the size it was asked for. */
  lemma {:induction false} ChannelKeepsItsSize<T>(s: State<T>, labels: seq<Label<T>>, t: State<T>, c: nat)
    requires c < |s.pipes| && Runs(s, labels, t)
    ensures c < |t.pipes| && t.pipes[c].capacity == s.pipes[c].capacity
    decreases labels
  {
    if labels != [] { ChannelKeepsItsSize(Next(s, labels[0]), labels[1..], t, c); }
  }

  lemma ConsumerGetsTheSizeAskedFor<T>(before: seq<Label<T>>, s: State<T>, size: nat, after: seq<Label<T>>, t: State<T>)
    requires Runs(Start(), before, s) && Enabled(s, GetConsumer(size))
    requires Runs(Next(s, GetConsumer(size)), after, t)
    ensures |s.pipes| < |t.pipes| && |t.pipes[|s.pipes|].queue| <= size == t.pipes[|s.pipes|].capacity
  {
    ReachableStatesSatisfyInv(before, s);
    InvPreserved(s, GetConsumer(size));
    InvAlongRun(Next(s, GetConsumer(size)), after, t);
    ChannelKeepsItsSize(Next(s, GetConsumer(size)), after, t, |s.pipes|);
  }

  lemma OneMoreConsumerRevives<T>(s: State<T>) returns (labels: seq<Label<T>>, t: State<T>)
    requires Inv(s) && s.slot == Initialized(None)
    ensures Runs(s, labels, t) && !Over(t)
  {
    labels := [GetConsumer(1), BindBegin(|s.pipes|)];
    t := TwoSteps(s, GetConsumer(1), BindBegin(|s.pipes|));
  }

  ghost predicate CanRevive<T(!new)>(s: State<T>) {
    exists labels, t :: Runs(s, labels, t) && !Over(t)
  }

  /** Some run brings a stream back to life after its end was processed exactly when an earlier bind
      had stored a sender by then. */
  lemma RebindRevivesExactlyAfterAnEarlierBind<T(!new)>(s: State<T>)
    requires Inv(s) && s.mutex.Free?
    ensures CanRevive(Next(s, SendEof)) <==> s.slot.Initialized?
  {
    var e := Next(s, SendEof);
    InvPreserved(s, SendEof);
    if s.slot.Initialized? {
      var labels, t := OneMoreConsumerRevives(e);
      assert Runs(e, labels, t) && !Over(t);
    } else {
      forall labels, t | Runs(e, labels, t) ensures Over(t) {
        EndedStreamStaysEndedExactly(e, labels, t);
      }
    }
  }

  /** One consumer is bound, the producer ends, and the consumer sees the end. */
  lemma FirstStreamEnds<T>(capacity: nat) returns (labels: seq<Label<T>>, t: State<T>)
    requires capacity > 0
    ensures Runs(Start(), labels, t)
    ensures t == State(Initialized(None), Free, [Pipe(capacity, [], [], [], true, true)], {}, {}, [], [0], 0)
  {
    var a := TwoSteps(Start<T>(), GetConsumer(capacity), BindBegin(0));
    var b := TwoSteps(a, DrainEnd, SendEof);
    t := Next(b, ReceiveEnd(0));
    RunsConcat(Start<T>(), [GetConsumer(capacity), BindBegin(0)], a, [DrainEnd, SendEof], b);
    var last: seq<Label<T>> := [ReceiveEnd(0)];
    labels := [GetConsumer(capacity), BindBegin(0)] + [DrainEnd, SendEof] + last;
    assert last[1..] == [] && Runs(b, last, t);
    RunsConcat(Start<T>(), [GetConsumer(capacity), BindBegin(0)] + [DrainEnd, SendEof], b, last, t);
    assert t.bound == [0] && t.requested == {};
  }

  /** Such a run: the first stream ended properly, the retry's stream has a sender nobody drops. */
  lemma RevivedStreamExists<T>(capacity: nat) returns (labels: seq<Label<T>>, t: State<T>)
    requires capacity > 0
    ensures Runs(Start(), labels, t)
    ensures |t.pipes| == 2 && t.pipes[0].ended && Handles(t, 1) == 1 && t.slot == Initialized(Some(1)) && t.mutex.Free?
  {
    var before, s := FirstStreamEnds<T>(capacity);
    t := TwoSteps(s, GetConsumer(capacity), BindBegin(1));
    labels := before + [GetConsumer(capacity), BindBegin(1)];
    RunsConcat(Start<T>(), before, s, [GetConsumer(capacity), BindBegin(1)], t);
  }

  // ---- the critical sections behave as if they were one step ----

  /** A run in which the mutex is held in every state but the last. */
  ghost predicate HeldRun<T>(s: State<T>, labels: seq<Label<T>>, t: State<T>)
    decreases labels
  {
    if labels == [] then s == t && t.mutex.Free?
    else !s.mutex.Free? && Enabled(s, labels[0]) && HeldRun(Next(s, labels[0]), labels[1..], t)
  }

  /** A step under a draining bind either forwards its next item or leaves it and its channel alone. */
  lemma StepUnderDrain<T>(s: State<T>, l: Label<T>)
    requires Inv(s) && s.mutex.Draining? && Enabled(s, l) && !Next(s, l).mutex.Free?
    ensures var c := s.mutex.to; var u := Next(s, l);
      && c < |s.pipes| <= |u.pipes|
      && u.mutex.Draining? && u.mutex.to == c && u.slot == s.slot && u.accepted == s.accepted
      && u.pipes[c].lost == s.pipes[c].lost
      && (if l.DrainNext? then
            s.mutex.rest == [s.mutex.rest[0]] + u.mutex.rest && u.pipes[c].lost == []
            && u.pipes[c].Entered() == s.pipes[c].Entered() + [s.mutex.rest[0]]
          else u.mutex == s.mutex && u.pipes[c].Entered() == s.pipes[c].Entered())
  {
    if l.Receive? {
      assert Next(s, l).pipes[l.c].Entered() == s.pipes[l.c].Entered();
    }
  }

  /** The step that ends a drain: everything went through, or the rest is refused. */
  lemma LastStepOfDrain<T>(s: State<T>, l: Label<T>)
    requires Inv(s) && s.mutex.Draining? && Enabled(s, l) && Next(s, l).mutex.Free?
    ensures var c := s.mutex.to; var u := Next(s, l); var k := if l.DrainEnd? then |s.mutex.rest| else 0;
      && c < |u.pipes|
      && u.slot == SlotAfterBind(NotInitialized(s.mutex.rest, s.slot.hasEndOfStream), c, k)
      && u.pipes[c].Entered() == s.pipes[c].Entered() + s.mutex.rest[..k]
      && u.pipes[c].lost == s.pipes[c].lost + s.mutex.rest[k..]
      && u.accepted == s.accepted
  {
    assert s.mutex.rest[..0] == [] && s.mutex.rest[0..] == s.mutex.rest;
  }

  /** However receivers, new consumers and closing interleave with a bind that is draining, its
      whole effect is the sequential one: k items enter the channel, the rest of the drain is lost,
      the slot becomes `SlotAfterBind`, and no send or end-of-stream gets in between. */
  lemma {:induction false} BindSectionIsAtomic<T>(s: State<T>, labels: seq<Label<T>>, t: State<T>) returns (k: nat)
    requires Inv(s) && s.mutex.Draining? && s.mutex.to < |s.pipes|
    requires HeldRun(s, labels, t)
    ensures k <= |s.mutex.rest| && s.mutex.to < |t.pipes|
    ensures var c := s.mutex.to; var rest := s.mutex.rest;
      && t.slot == SlotAfterBind(NotInitialized(rest, s.slot.hasEndOfStream), c, k)
      && t.pipes[c].Entered() == s.pipes[c].Entered() + rest[..k]
      && t.pipes[c].lost == s.pipes[c].lost + rest[k..]
      && t.accepted == s.accepted
    decreases labels
  {
    hide Inv, Next, Enabled;
    var c := s.mutex.to;
    var l := labels[0];
    var u := Next(s, l);
    InvPreserved(s, l);
    if u.mutex.Free? {
      assert labels[1..] == [];
      k := if l.DrainEnd? then |s.mutex.rest| else 0;
      LastStepOfDrain(s, l);
    } else {
      assert u.mutex.Draining? && u.mutex.to == c < |u.pipes| by { StepUnderDrain(s, l); }
      var j := BindSectionIsAtomic(u, labels[1..], t);
      k := if l.DrainNext? then j + 1 else j;
      StepUnderDrain(s, l);
      if l.DrainNext? {
        assert s.mutex.rest[..k] == [s.mutex.rest[0]] + u.mutex.rest[..j];
        assert s.mutex.rest[k..] == u.mutex.rest[j..];
      }
    }
  }

  /** A step under a send that waits with the mutex held either settles its item or leaves it and its
      channel alone. */
  lemma StepUnderSend<T>(s: State<T>, l: Label<T>)
    requires Inv(s) && s.mutex.Sending? && Enabled(s, l)
    ensures var c := s.mutex.to; var u := Next(s, l);
      && c < |s.pipes| <= |u.pipes| && u.slot == s.slot && u.accepted == s.accepted
      && (u.mutex.Free? <==> l.SendDone? || l.SendRefused?)
      && (!u.mutex.Free? ==> u.mutex == s.mutex)
      && u.pipes[c].Entered() == s.pipes[c].Entered() + (if l.SendDone? then [s.mutex.item] else [])
      && u.pipes[c].lost == s.pipes[c].lost + (if l.SendRefused? then [s.mutex.item] else [])
  {
    hide PipesSound, Balanced, Handles;
    if l.Receive? {
      assert Next(s, l).pipes[l.c].Entered() == s.pipes[l.c].Entered();
    }
  }

  /** The same for a send that waits for capacity: its item enters the channel or is lost to it, and
      the slot and the accepted items do not change before it lets go of the mutex. */
  lemma {:induction false} SendSectionIsAtomic<T>(s: State<T>, labels: seq<Label<T>>, t: State<T>) returns (sent: bool)
    requires Inv(s) && s.mutex.Sending? && s.mutex.to < |s.pipes|
    requires HeldRun(s, labels, t)
    ensures s.mutex.to < |t.pipes| && t.slot == s.slot && t.accepted == s.accepted
    ensures t.pipes[s.mutex.to].Entered() == s.pipes[s.mutex.to].Entered() + (if sent then [s.mutex.item] else [])
    ensures t.pipes[s.mutex.to].lost == s.pipes[s.mutex.to].lost + (if sent then [] else [s.mutex.item])
    decreases labels
  {
    hide Inv, Next, Enabled;
    var l := labels[0];
    var u := Next(s, l);
    InvPreserved(s, l);
    StepUnderSend(s, l);
    if u.mutex.Free? {
      assert labels[1..] == [];
      sent := l.SendDone?;
    } else {
      sent := SendSectionIsAtomic(u, labels[1..], t);
    }
  }
}
