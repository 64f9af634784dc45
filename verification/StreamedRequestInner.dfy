/** `StreamedRequestInner` as the object it is: the methods run while they hold the mutex, so only the
    receivers act meanwhile. `BindSectionIsAtomic` and `SendSectionIsAtomic` of `StreamedRequestSafety`
    justify reading them as one step. */
module StreamedRequestInner {
  import opened Sequences
  import opened StreamedRequestProtocol

  /** The sending half of a channel. The receiver may go away for good after `patience` items;
      waiting for capacity is not visible to the sender. */
  class Sender<T> {
    const patience: Option<nat>
    var entered: seq<T>
    var dropped: bool

    constructor (patience: Option<nat>)
      ensures this.patience == patience && entered == [] && !dropped
    {
      this.patience := patience;
      entered, dropped := [], false;
    }

    /** How many of the next n items will get through. */
    function Room(n: nat): (k: nat)
      reads this
      ensures k <= n && (patience.None? ==> k == n)
    {
      match patience
      case None => n
      case Some(limit) => if |entered| + n <= limit then n else if |entered| <= limit then limit - |entered| else 0
    }

    method Send(item: T) returns (ok: bool)
      modifies this`entered
      ensures ok <==> old(Room(1)) == 1
      ensures entered == if ok then old(entered) + [item] else old(entered)
    {
      ok := patience.None? || |entered| < patience.value;
      if ok { entered := entered + [item]; }
    }

    method Drop()
      modifies this`dropped
      ensures dropped
    {
      dropped := true;
    }
  }

  datatype Mode<T> =
    | AsVec(items: seq<T>)
    | AsStream(slot: RequestAsStream<T, Sender<T>>)

  datatype SendOutcome = Buffered | Forwarded | NotForwarded | Panicked

  class StreamedRequestInner<T> {
    var mode: Mode<T>

    constructor NewAsVec(items: seq<T>)
      ensures mode == AsVec(items)
    {
      mode := AsVec(items);
    }

    constructor NewAsStream()
      ensures mode == AsStream(NotInitialized([], false))
    {
      mode := AsStream(NotInitialized([], false));
    }

    /** The sender the slot holds, if any. */
    ghost function Stored(): set<Sender<T>>
      reads this
    {
      if mode.AsStream? && mode.slot.Initialized? && mode.slot.sender.Some? then {mode.slot.sender.value} else {}
    }

    ghost predicate Valid()
      reads this, Stored()
    {
      forall s :: s in Stored() ==> !s.dropped
    }

    method Send(item: T) returns (outcome: SendOutcome)
      requires Valid()
      modifies this, Stored()
      ensures Valid() && Stored() == old(Stored())
      ensures outcome == Panicked <==>
        old(mode).AsVec? || old(mode).slot == Initialized(None)
        || (old(mode).slot.NotInitialized? && old(mode).slot.hasEndOfStream)
      ensures outcome == Buffered <==>
        old(mode).AsStream? && old(mode).slot.NotInitialized? && !old(mode).slot.hasEndOfStream
      ensures outcome == Buffered ==>
        mode == AsStream(NotInitialized(old(mode).slot.items + [item], false))
      ensures outcome != Buffered ==> mode == old(mode)
      ensures outcome == Forwarded || outcome == NotForwarded <==> old(Stored()) != {}
      ensures forall s :: s in Stored() && outcome == Forwarded ==> s.entered == old(s.entered) + [item]
      ensures forall s :: s in Stored() && outcome != Forwarded ==> s.entered == old(s.entered) && old(s.Room(1)) == 0
    {
      match mode
      case AsVec(_) => outcome := Panicked;
      case AsStream(slot) =>
        match slot
        case NotInitialized(items, hasEndOfStream) =>
          if hasEndOfStream { return Panicked; }
          mode := AsStream(NotInitialized(items + [item], hasEndOfStream));
          outcome := Buffered;
        case Initialized(Some(sender)) =>
          var ok := sender.Send(item);
          outcome := if ok then Forwarded else NotForwarded;
        case Initialized(None) => outcome := Panicked;
    }

    /** Forwards items until one is refused. */
    method Forward(items: seq<T>, sender: Sender<T>) returns (k: nat)
      modifies sender`entered
      ensures k == old(sender.Room(|items|))
      ensures k < |items| ==> sender.patience.Some? && |sender.entered| >= sender.patience.value
      ensures sender.entered == old(sender.entered) + items[..k]
    {
      k := 0;
      while k < |items|
        invariant k <= |items|
        invariant k <= old(sender.Room(|items|))
        invariant sender.entered == old(sender.entered) + items[..k]
      {
        var ok := sender.Send(items[k]);
        if !ok { return; }
        k := k + 1;
      }
    }

    method SetSender(sender: Sender<T>)
      requires Valid() && !sender.dropped && sender !in Stored()
      modifies this, sender, Stored()
      ensures Valid()
      ensures match old(mode)
        case AsVec(items) =>
          && mode == old(mode)
          && sender.entered == old(sender.entered) + items[..old(sender.Room(|items|))]
          && sender.dropped
        case AsStream(slot) =>
          var items := if slot.NotInitialized? then slot.items else [];
          var k := old(sender.Room(|items|));
          && mode == AsStream(SlotAfterBind(slot, sender, k))
          && sender.entered == old(sender.entered) + items[..k]
          && (sender.dropped <==> sender !in Stored())
          && (forall s :: s in old(Stored()) ==> s.dropped && s.entered == old(s.entered))
    {
      match mode
      case AsVec(items) =>
        var _ := Forward(items, sender);
        sender.Drop();
      case AsStream(slot) =>
        match slot {
          case NotInitialized(items, hasEndOfStream) =>
            mode := AsStream(NotInitialized([], hasEndOfStream));
            var k := Forward(items, sender);
            if k < |items| || hasEndOfStream {
              sender.Drop();
              return;
            }
          case Initialized(existing) =>
            if existing.Some? { existing.value.Drop(); }
            mode := AsStream(Initialized(None));
        }
        mode := AsStream(Initialized(Some(sender)));
    }

    method SendEof()
      requires Valid()
      modifies this, Stored()
      ensures Valid()
      ensures mode == if old(mode).AsVec? then old(mode) else AsStream(SlotAfterEof(old(mode).slot))
      ensures forall s :: s in old(Stored()) ==> s.dropped && s.entered == old(s.entered)
    {
      match mode
      case AsVec(_) =>
      case AsStream(slot) =>
        match slot
        case NotInitialized(items, _) => mode := AsStream(NotInitialized(items, true));
        case Initialized(existing) =>
          if existing.Some? { existing.value.Drop(); }
          mode := AsStream(Initialized(None));
    }
  }

  /** A retried request in vector mode: every attempt binds a new consumer, and each gets a prefix of
      the same vector followed by end-of-stream, the whole of it if its receiver stays. */
  method ReplayOnEveryAttempt<T>(inner: StreamedRequestInner<T>, consumers: seq<Sender<T>>)
    requires inner.mode.AsVec?
    requires forall i :: 0 <= i < |consumers| ==> !consumers[i].dropped && consumers[i].entered == []
    requires forall i, j :: 0 <= i < j < |consumers| ==> consumers[i] != consumers[j]
    modifies inner, consumers
    ensures inner.mode == old(inner.mode)
    ensures forall i :: 0 <= i < |consumers| ==>
      && consumers[i].dropped
      && consumers[i].entered <= inner.mode.items
      && (consumers[i].patience.None? || consumers[i].patience.value >= |inner.mode.items| ==>
            consumers[i].entered == inner.mode.items)
  {
    var i := 0;
    while i < |consumers|
      invariant i <= |consumers|
      invariant inner.mode == old(inner.mode)
      invariant forall j :: i <= j < |consumers| ==> !consumers[j].dropped && consumers[j].entered == []
      invariant forall j :: 0 <= j < i ==>
        && consumers[j].dropped
        && consumers[j].entered <= inner.mode.items
        && (consumers[j].patience.None? || consumers[j].patience.value >= |inner.mode.items| ==>
              consumers[j].entered == inner.mode.items)
    {
      inner.SetSender(consumers[i]);
      i := i + 1;
    }
  }

  // ---- whole uses of one stream ----

  /** Sends while no sender is bound. */
  method SendUnbound<T>(inner: StreamedRequestInner<T>, items: seq<T>)
    requires inner.mode.AsStream? && inner.mode.slot.NotInitialized? && !inner.mode.slot.hasEndOfStream
    modifies inner
    ensures inner.mode == AsStream(NotInitialized(old(inner.mode).slot.items + items, false))
  {
    for i := 0 to |items|
      invariant inner.mode == AsStream(NotInitialized(old(inner.mode).slot.items + items[..i], false))
    {
      var outcome := inner.Send(items[i]);
      assert items[..i + 1] == items[..i] + [items[i]];
    }
    assert items[..|items|] == items;
  }

  /** Sends while a sender is bound whose receiver stays. */
  method SendBound<T>(inner: StreamedRequestInner<T>, sender: Sender<T>, items: seq<T>)
    requires inner.mode == AsStream(Initialized(Some(sender))) && !sender.dropped && sender.patience.None?
    modifies inner, sender
    ensures inner.mode == old(inner.mode) && !sender.dropped
    ensures sender.entered == old(sender.entered) + items
  {
    for i := 0 to |items|
      invariant inner.mode == old(inner.mode) && !sender.dropped
      invariant sender.entered == old(sender.entered) + items[..i]
    {
      var outcome := inner.Send(items[i]);
      assert items[..i + 1] == items[..i] + [items[i]];
    }
    assert items[..|items|] == items;
  }

  /** A script is sent and ended, and a consumer whose receiver stays is bound after n items, or after
      the end if n is larger than the script: wherever the bind falls, the consumer gets the script
      and its end. */
  method StreamBoundAnywhere<T>(script: seq<T>, n: nat, consumer: Sender<T>)
    requires !consumer.dropped && consumer.entered == [] && consumer.patience.None?
    modifies consumer
    ensures consumer.entered == script && consumer.dropped
  {
    var inner := new StreamedRequestInner<T>.NewAsStream();
    if n <= |script| {
      SendUnbound(inner, script[..n]);
      inner.SetSender(consumer);
      SendBound(inner, consumer, script[n..]);
      inner.SendEof();
      assert script == script[..n] + script[n..];
    } else {
      SendUnbound(inner, script);
      inner.SendEof();
      inner.SetSender(consumer);
    }
  }

  /** A retried request in stream mode: the receiver of the first attempt goes away while the buffer is
      drained into it. The rest of the drain is lost, and the stream is unbound again, so what is sent
      from then on waits for the retry and reaches it. */
  method RetryAfterRefusedAttempt<T>(before: seq<T>, after: seq<T>, first: Sender<T>, second: Sender<T>)
    requires first != second && !first.dropped && !second.dropped && first.entered == second.entered == []
    requires first.patience.Some? && first.patience.value < |before| && second.patience.None?
    modifies first, second
    ensures first.entered == before[..first.patience.value] && first.dropped
    ensures second.entered == after && !second.dropped
  {
    var inner := new StreamedRequestInner<T>.NewAsStream();
    SendUnbound(inner, before);
    inner.SetSender(first);
    SendUnbound(inner, after);
    inner.SetSender(second);
  }
}
