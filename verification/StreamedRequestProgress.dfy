/** One producer that sends a finite script, each send awaited, and is then dropped; one consumer
    that asks for the stream at any moment and keeps reading. Every step is a step of the shared
    protocol, so everything proved there holds here; what is new is that the run always gets through. */
module StreamedRequestProgress {
  import opened Sequences
  import opened StreamedRequestProtocol
  import opened StreamedRequestSafety

  /** Dropping the producer spawns the end-of-stream job, which runs later. */
  datatype Phase = Active | EofPending | EofDone

  datatype Session<T> = Session(capacity: nat, todo: seq<T>, phase: Phase, net: State<T>)

  datatype Move<T> = Step(act: Label<T>) | DropProducer

  ghost predicate CanMove<T>(s: Session<T>, m: Move<T>) {
    match m
    case DropProducer => s.phase.Active? && s.todo == [] && !s.net.mutex.Sending?
    case Step(l) =>
      && Enabled(s.net, l)
      && (match l
          case SendBegin(item) => s.phase.Active? && s.todo != [] && item == s.todo[0]
          case SendEof => s.phase.EofPending?
          case GetConsumer(capacity) => s.net.pipes == [] && capacity == s.capacity
          case CloseReceiver(_) => false
          case _ => true)
  }

  ghost function AfterMove<T>(s: Session<T>, m: Move<T>): Session<T>
    requires CanMove(s, m)
  {
    match m
    case DropProducer => s.(phase := EofPending)
    case Step(l) =>
      var t := s.(net := Next(s.net, l));
      if l.SendBegin? then t.(todo := s.todo[1..])
      else if l.SendEof? then t.(phase := EofDone)
      else t
  }

  function Opening<T>(capacity: nat, script: seq<T>): Session<T> {
    Session(capacity, script, Active, Start())
  }

  ghost predicate Plays<T>(s: Session<T>, moves: seq<Move<T>>, t: Session<T>)
    decreases moves
  {
    if moves == [] then s == t
    else CanMove(s, moves[0]) && Plays(AfterMove(s, moves[0]), moves[1..], t)
  }

  predicate Finished<T>(s: Session<T>) {
    |s.net.pipes| == 1 && s.net.pipes[0].ended && s.net.leaving == {}
  }

  // ---- the invariant of a session ----

  /** Where the one sender handle is, and what the slot says about the producer. */
  ghost predicate InStep<T>(s: Session<T>) {
    var net := s.net;
    && s.capacity > 0
    && |net.pipes| <= 1
    && (s.phase != Active ==> s.todo == [] && !net.mutex.Sending?)
    && (net.slot.NotInitialized? ==> (net.slot.hasEndOfStream <==> s.phase.EofDone?))
    && (net.slot.Initialized? ==> |net.pipes| == 1 && (net.slot.sender.None? <==> s.phase.EofDone?))
    && (net.leaving != {} ==> net.slot.NotInitialized? && s.phase.EofDone?)
    && net.leaving <= {0}
    && net.panics == 0
  }

  /** The consumer's channel: open, at most one sender, and no sender only once the end was processed
      and nothing is left in the buffer. */
  ghost predicate OneChannel<T>(s: Session<T>) {
    var net := s.net;
    |net.pipes| == 1 ==>
      && net.pipes[0].open
      && (0 in net.requested ==> net.bound == [] && net.slot.NotInitialized?)
      && (0 !in net.requested ==> net.bound == [0] && (net.slot.NotInitialized? ==> net.slot.items == []))
      && (Handles(net, 0) == 0 ==> s.phase.EofDone? && net.mutex.Free?)
  }

  ghost predicate SessionInv<T>(s: Session<T>) {
    Inv(s.net) && InStep(s) && OneChannel(s)
  }

  lemma InStepPreserved<T>(s: Session<T>, m: Move<T>)
    requires SessionInv(s) && CanMove(s, m)
    ensures InStep(AfterMove(s, m))
  {
    hide PipesSound, Balanced, BoundOnce;
    BoundIsZero(s.net);
  }

  lemma OneChannelPreserved<T>(s: Session<T>, m: Move<T>)
    requires SessionInv(s) && CanMove(s, m)
    ensures OneChannel(AfterMove(s, m))
  {
    hide PipesSound, Balanced, BoundOnce;
    BoundIsZero(s.net);
  }

  lemma SessionInvPreserved<T>(s: Session<T>, m: Move<T>)
    requires SessionInv(s) && CanMove(s, m)
    ensures SessionInv(AfterMove(s, m))
  {
    if m.Step? { InvPreserved(s.net, m.act); }
    InStepPreserved(s, m);
    OneChannelPreserved(s, m);
  }

  lemma ScriptIsKept<T>(s: Session<T>, m: Move<T>)
    requires InStep(s) && CanMove(s, m)
    ensures AfterMove(s, m).net.accepted + AfterMove(s, m).todo == s.net.accepted + s.todo
  {
    if m.Step? && m.act.SendBegin? {
      assert s.todo == [s.todo[0]] + s.todo[1..];
    }
  }

  lemma {:induction false} SessionInvAlongPlay<T>(s: Session<T>, moves: seq<Move<T>>, t: Session<T>, script: seq<T>)
    requires SessionInv(s) && s.net.accepted + s.todo == script && Plays(s, moves, t)
    ensures SessionInv(t) && t.net.accepted + t.todo == script
    decreases moves
  {
    if moves != [] {
      SessionInvPreserved(s, moves[0]);
      ScriptIsKept(s, moves[0]);
      SessionInvAlongPlay(AfterMove(s, moves[0]), moves[1..], t, script);
    }
  }

  lemma ReachableSessionsSatisfyInv<T>(capacity: nat, script: seq<T>, moves: seq<Move<T>>, t: Session<T>)
    requires capacity > 0 && Plays(Opening(capacity, script), moves, t)
    ensures SessionInv(t) && t.net.accepted + t.todo == script
  {
    StartSatisfiesInv<T>();
    SessionInvAlongPlay(Opening(capacity, script), moves, t, script);
  }

  lemma SessionConserves<T>(s: Session<T>)
    requires SessionInv(s)
    ensures |s.net.pipes| == 1 ==>
      s.net.accepted == s.net.pipes[0].received + s.net.pipes[0].queue + Held(s.net)
  {
    BoundIsZero(s.net);
    if |s.net.pipes| == 1 {
      if s.net.bound == [] {
        assert s.net.pipes[0].Account() == [];
      } else {
        assert DropLast(s.net.bound) == [] && s.net.pipes[0].lost == [];
        assert Ledger(s.net.pipes, [0]) == [] + s.net.pipes[0].Account();
        assert s.net.pipes[0].Account() == s.net.pipes[0].Entered();
      }
    }
  }

  // ---- what the consumer sees ----

  /** At every moment, whenever binding happened, the consumer has a prefix of the script; sends never
      panic; and there is exactly one live sender from the request of the stream until it closes. */
  lemma ConsumerSeesAPrefix<T>(capacity: nat, script: seq<T>, moves: seq<Move<T>>, t: Session<T>)
    requires capacity > 0 && Plays(Opening(capacity, script), moves, t) && |t.net.pipes| == 1
    ensures t.net.pipes[0].received <= script
    ensures t.net.panics == 0
    ensures Handles(t.net, 0) == 1 || (Handles(t.net, 0) == 0 && t.phase.EofDone? && Held(t.net) == [])
  {
    ReachableSessionsSatisfyInv(capacity, script, moves, t);
    SessionConserves(t);
    if 0 in t.net.requested { assert 0 !in t.net.bound; }
    if Handles(t.net, 0) == 0 && t.net.slot.NotInitialized? { assert t.net.slot.items == []; }
  }

  /** End-of-stream is seen only after the producer's end was processed and the whole script arrived. */
  lemma EndOfStreamMeansEverythingArrived<T>(capacity: nat, script: seq<T>, moves: seq<Move<T>>, t: Session<T>)
    requires capacity > 0 && Plays(Opening(capacity, script), moves, t)
    requires |t.net.pipes| == 1 && t.net.pipes[0].ended
    ensures t.phase.EofDone? && t.net.pipes[0].received == script
  {
    ReachableSessionsSatisfyInv(capacity, script, moves, t);
    SessionConserves(t);
    assert Handles(t.net, 0) == 0;
    if t.net.slot.NotInitialized? { assert t.net.slot.items == []; }
    assert Held(t.net) == [];
  }

  // ---- progress ----

  function StageWeight<T>(s: State<T>): nat {
    if s.pipes == [] then 4
    else if 0 in s.requested then 3
    else if s.mutex.Draining? then 2
    else if s.leaving != {} then 1 else 0
  }

  function ItemWeight<T>(s: Session<T>): nat {
    3 * |s.todo| + 2 * |Held(s.net)| + (if s.net.pipes == [] then 0 else |s.net.pipes[0].queue|)
  }

  function JobWeight<T>(s: Session<T>): nat {
    StageWeight(s.net)
    + (if s.net.pipes != [] && s.net.pipes[0].ended then 0 else 1)
    + (match s.phase case Active => 2 case EofPending => 1 case EofDone => 0)
  }

  function Weight<T>(s: Session<T>): nat { ItemWeight(s) + JobWeight(s) }

  ghost predicate MovesAnItem<T>(m: Move<T>) {
    m.Step? && (m.act.SendBegin? || ReachesChannel(m.act) || m.act.Receive?)
  }

  lemma SettledItemGetsLighter<T>(s: Session<T>, l: Label<T>)
    requires SessionInv(s) && CanMove(s, Step(l)) && ReachesChannel(l)
    ensures var t := AfterMove(s, Step(l)); ItemWeight(t) < ItemWeight(s) && JobWeight(t) == JobWeight(s)
  {
    hide PipesSound, Balanced, BoundOnce;
    BoundIsZero(s.net);
  }

  lemma MovedItemGetsLighter<T>(s: Session<T>, m: Move<T>)
    requires SessionInv(s) && CanMove(s, m) && MovesAnItem(m)
    ensures ItemWeight(AfterMove(s, m)) < ItemWeight(s) && JobWeight(AfterMove(s, m)) == JobWeight(s)
  {
    hide PipesSound, Balanced, BoundOnce;
    if ReachesChannel(m.act) {
      SettledItemGetsLighter(s, m.act);
    } else {
      BoundIsZero(s.net);
    }
  }

  lemma OtherMovesAdvanceAJob<T>(s: Session<T>, m: Move<T>)
    requires SessionInv(s) && CanMove(s, m) && !MovesAnItem(m)
    ensures ItemWeight(AfterMove(s, m)) == ItemWeight(s) && JobWeight(AfterMove(s, m)) < JobWeight(s)
  {
    hide PipesSound, Balanced, BoundOnce;
    BoundIsZero(s.net);
  }

  lemma EveryMoveLowersWeight<T>(s: Session<T>, m: Move<T>)
    requires SessionInv(s) && CanMove(s, m)
    ensures Weight(AfterMove(s, m)) < Weight(s)
  {
    if MovesAnItem(m) { MovedItemGetsLighter(s, m); } else { OtherMovesAdvanceAJob(s, m); }
  }

  /** No deadlock: a full channel can always be read, because reading does not take the mutex. */
  lemma UnfinishedSessionCanMove<T>(s: Session<T>) returns (m: Move<T>)
    requires SessionInv(s) && !Finished(s)
    ensures CanMove(s, m)
  {
    BoundIsZero(s.net);
    var net := s.net;
    if !net.mutex.Free? {
      var l := HeldMutexCanProceed(net);
      m := Step(l);
    }
    else if net.pipes == [] { m := Step(GetConsumer(s.capacity)); }
    else if 0 in net.requested { m := Step(BindBegin(0)); }
    else if net.leaving != {} { assert 0 in net.leaving; m := Step(DropSender(0)); }
    else if s.phase.Active? { m := if s.todo == [] then DropProducer else Step(SendBegin(s.todo[0])); }
    else if s.phase.EofPending? { m := Step(SendEof); }
    else if net.pipes[0].queue != [] { m := Step(Receive(0)); }
    else { m := Step(ReceiveEnd(0)); }
  }

  lemma {:induction false} PlayIsBounded<T>(s: Session<T>, moves: seq<Move<T>>, t: Session<T>)
    requires SessionInv(s) && Plays(s, moves, t)
    ensures |moves| + Weight(t) <= Weight(s)
    decreases moves
  {
    if moves != [] {
      SessionInvPreserved(s, moves[0]);
      EveryMoveLowersWeight(s, moves[0]);
      PlayIsBounded(AfterMove(s, moves[0]), moves[1..], t);
    }
  }

  /** Every run is finite, with a bound known from the start, and every run that cannot go on has
      delivered the whole script followed by end-of-stream, whatever the order of the steps was. */
  lemma EveryMaximalRunDelivers<T>(capacity: nat, script: seq<T>, moves: seq<Move<T>>, t: Session<T>)
    requires capacity > 0 && Plays(Opening(capacity, script), moves, t)
    ensures |moves| <= 3 * |script| + 7
    ensures (forall m: Move<T> :: !CanMove(t, m)) ==>
      Finished(t) && t.net.pipes[0].received == script && t.phase.EofDone?
  {
    StartSatisfiesInv<T>();
    ReachableSessionsSatisfyInv(capacity, script, moves, t);
    PlayIsBounded(Opening(capacity, script), moves, t);
    if !Finished(t) {
      var m := UnfinishedSessionCanMove(t);
    } else {
      EndOfStreamMeansEverythingArrived(capacity, script, moves, t);
    }
  }

  /** A run that cannot go on is one that has finished. */
  lemma FinishedSessionCannotMove<T>(s: Session<T>, m: Move<T>)
    requires SessionInv(s) && Finished(s)
    ensures !CanMove(s, m)
  {
    hide Balanced;
    BoundIsZero(s.net);
    assert Handles(s.net, 0) == 0;
  }

  /** Every run can be completed. */
  lemma {:induction false} EveryRunExtends<T>(s: Session<T>) returns (moves: seq<Move<T>>, t: Session<T>)
    requires SessionInv(s)
    ensures Plays(s, moves, t) && SessionInv(t) && Finished(t)
    decreases Weight(s)
  {
    hide SessionInv, CanMove, AfterMove, Weight;
    if Finished(s) {
      moves, t := [], s;
    } else {
      var m := UnfinishedSessionCanMove(s);
      SessionInvPreserved(s, m);
      EveryMoveLowersWeight(s, m);
      var rest;
      rest, t := EveryRunExtends(AfterMove(s, m));
      moves := [m] + rest;
      assert moves[1..] == rest;
    }
  }

  lemma {:induction false} PlaysConcat<T>(s: Session<T>, a: seq<Move<T>>, t: Session<T>, b: seq<Move<T>>, u: Session<T>)
    requires Plays(s, a, t) && Plays(t, b, u)
    ensures Plays(s, a + b, u)
    decreases a
  {
    hide CanMove, AfterMove;
    if a == [] {
      assert a + b == b;
    } else {
      assert (a + b)[0] == a[0] && (a + b)[1..] == a[1..] + b;
      PlaysConcat(AfterMove(s, a[0]), a[1..], t, b, u);
    }
  }

  /** However a run began, it can be brought to its end, and the end is the delivered script: so there
      are complete runs for every script and every channel size. */
  lemma EveryRunCanBeCompleted<T>(capacity: nat, script: seq<T>, moves: seq<Move<T>>, t: Session<T>)
    returns (rest: seq<Move<T>>, u: Session<T>)
    requires capacity > 0 && Plays(Opening(capacity, script), moves, t)
    ensures Plays(Opening(capacity, script), moves + rest, u)
    ensures forall m: Move<T> :: !CanMove(u, m)
    ensures |u.net.pipes| == 1 && u.net.pipes[0].ended && u.net.pipes[0].received == script
  {
    ReachableSessionsSatisfyInv(capacity, script, moves, t);
    rest, u := EveryRunExtends(t);
    PlaysConcat(Opening(capacity, script), moves, t, rest, u);
    forall m: Move<T> ensures !CanMove(u, m) { FinishedSessionCannotMove(u, m); }
    EndOfStreamMeansEverythingArrived(capacity, script, moves + rest, u);
  }

  /** Two complete runs give the consumer the same stream, however binding raced with sending. */
  lemma StreamDoesNotDependOnTheRace<T>(script: seq<T>, cap1: nat, moves1: seq<Move<T>>, t1: Session<T>,
                                        cap2: nat, moves2: seq<Move<T>>, t2: Session<T>)
    requires cap1 > 0 && Plays(Opening(cap1, script), moves1, t1) && (forall m: Move<T> :: !CanMove(t1, m))
    requires cap2 > 0 && Plays(Opening(cap2, script), moves2, t2) && (forall m: Move<T> :: !CanMove(t2, m))
    ensures |t1.net.pipes| == |t2.net.pipes| == 1
    ensures t1.net.pipes[0].received == t2.net.pipes[0].received && t1.net.pipes[0].ended && t2.net.pipes[0].ended
  {
    EveryMaximalRunDelivers(cap1, script, moves1, t1);
    EveryMaximalRunDelivers(cap2, script, moves2, t2);
  }
}
