/** One request from the caller's side: the cached channel, the connect loop, the call with its timeout
    and the retry loop. Connect and call outcomes, how long they take, and what other jobs do to the
    shared holder are up to the adversary; looking settings up and taking locks takes no time. */
module GrpcRequests {
  import opened Sequences

  const UNKNOWN: int := 2

  datatype GrpcReadError = Timeout | TransportError | TonicStatus(code: int)

  /** How an awaited operation ends if it is given enough time, and after how long. */
  datatype Outcome<R> = Done(value: R, after: nat) | Fails(code: int, after: nat) | Hangs

  /** What `tokio::time::timeout` makes of it. */
  datatype Waited<R> = Finished(value: R) | Failed(code: int) | TimedOut

  function Scripted<R>(script: seq<Outcome<R>>, n: nat): Outcome<R> {
    if n < |script| then script[n] else Hangs
  }

  function Wait<R>(o: Outcome<R>, limit: nat): (r: (Waited<R>, nat))
    ensures r.1 <= limit
  {
    match o
    case Done(v, after) => if after <= limit then (Finished(v), after) else (TimedOut, limit)
    case Fails(code, after) => if after <= limit then (Failed(code), after) else (TimedOut, limit)
    case Hangs => (TimedOut, limit)
  }

  class GrpcChannelHolder {
    var channel: Option<nat>

    constructor ()
      ensures channel == None
    {
      channel := None;
    }
  }

  /** The adversary, the clock and the logs. `meddling[n]` is what other jobs leave in the holder at
      the n-th moment when this request lets them run, if they touch it: before it locks the holder and
      while its call is under way. `turns` counts these moments. */
  class World<R> {
    const connects: seq<Outcome<()>>
    const calls: seq<Outcome<R>>
    const meddling: seq<Option<Option<nat>>>
    var clock: nat
    var turns: nat
    var nextChannel: nat
    var connectLog: seq<Result<nat, GrpcReadError>>
    var callLog: seq<(nat, Waited<R>)>
    var attemptLog: seq<Result<R, GrpcReadError>>

    constructor (connects: seq<Outcome<()>>, calls: seq<Outcome<R>>, meddling: seq<Option<Option<nat>>>)
      ensures this.connects == connects && this.calls == calls && this.meddling == meddling
      ensures clock == 0 && connectLog == [] && callLog == [] && attemptLog == []
    {
      this.connects, this.calls, this.meddling := connects, calls, meddling;
      clock, turns, nextChannel, connectLog, callLog, attemptLog := 0, 0, 0, [], [], [];
    }

    /** What other jobs make of the held channel at the n-th such moment. */
    function Left(n: nat, held: Option<nat>): Option<nat> {
      if n < |meddling| && meddling[n].Some? then meddling[n].value else held
    }

    /** What this request finds in the holder when it locks it next. */
    function Found(holder: GrpcChannelHolder): Option<nat>
      reads this, holder
    {
      Left(turns, holder.channel)
    }

    method OthersRun(holder: GrpcChannelHolder)
      modifies `turns, holder
      ensures holder.channel == old(Found(holder)) && turns == old(turns) + 1
    {
      if turns < |meddling| && meddling[turns].Some? { holder.channel := meddling[turns].value; }
      turns := turns + 1;
    }

    method Connect(limit: nat) returns (r: Result<nat, GrpcReadError>)
      modifies `clock, `nextChannel, `connectLog
      ensures old(clock) <= clock <= old(clock) + limit
      ensures connectLog == old(connectLog) + [r]
      ensures var o := Scripted(connects, |old(connectLog)|);
        && (r.Ok? <==> o.Done? && o.after <= limit)
        && (r == Err(TransportError) <==> o.Fails? && o.after <= limit)
        && (r == Err(Timeout) <==> o.Hangs? || o.after > limit)
      ensures r.Ok? ==> r.value == old(nextChannel) && nextChannel == old(nextChannel) + 1
      ensures r.Err? ==> nextChannel == old(nextChannel)
    {
      var (waited, took) := Wait(Scripted(connects, |connectLog|), limit);
      clock := clock + took;
      match waited {
        case Finished(_) => r := Ok(nextChannel); nextChannel := nextChannel + 1;
        case Failed(_) => r := Err(TransportError);
        case TimedOut => r := Err(Timeout);
      }
      connectLog := connectLog + [r];
    }

    /** The holder is not locked during the call, so other jobs may change it. */
    method Call(holder: GrpcChannelHolder, channel: nat, limit: nat) returns (w: Waited<R>)
      modifies `clock, `callLog, `turns, holder
      ensures holder.channel == old(Found(holder)) && turns == old(turns) + 1
      ensures old(clock) <= clock <= old(clock) + limit
      ensures callLog == old(callLog) + [(channel, w)]
      ensures var o := Scripted(calls, |old(callLog)|);
        && (o.Done? && o.after <= limit ==> w == Finished(o.value) && clock == old(clock) + o.after)
        && (o.Fails? && o.after <= limit ==> w == Failed(o.code) && clock == old(clock) + o.after)
        && (o.Hangs? || o.after > limit ==> w == TimedOut && clock == old(clock) + limit)
    {
      OthersRun(holder);
      var waited := Wait(Scripted(calls, |callLog|), limit);
      w := waited.0;
      clock := clock + waited.1;
      callLog := callLog + [(channel, w)];
    }
  }

  /** A run of tries: all but the last failed, the result is the last one's, and an error is the result
      only when there were as many tries as there can be. */
  ghost predicate LastOfTries<V>(tries: seq<Result<V, GrpcReadError>>, max: nat, r: Result<V, GrpcReadError>) {
    && 1 <= |tries| <= max
    && r == Last(tries)
    && (forall i :: 0 <= i < |tries| - 1 ==> tries[i].Err?)
    && (r.Err? ==> |tries| == max)
  }

  /** `create_channel`: five tries at most, without a pause; a new channel goes into the holder. */
  method CreateChannel<R>(world: World<R>, holder: GrpcChannelHolder, timeout: nat)
    returns (r: Result<nat, GrpcReadError>)
    modifies world`clock, world`nextChannel, world`connectLog, world`turns, holder
    ensures old(world.turns) <= world.turns && old(world.connectLog) <= world.connectLog
    ensures LastOfTries(world.connectLog[|old(world.connectLog)|..], 5, r)
    ensures r.Ok? ==> holder.channel == Some(r.value)
    ensures old(world.clock) <= world.clock <= old(world.clock) + 5 * timeout
  {
    hide Scripted;
    ghost var start := |world.connectLog|;
    var attemptNo := 0;
    while true
      invariant attemptNo <= 4 && old(world.turns) <= world.turns
      invariant old(world.connectLog) <= world.connectLog && |world.connectLog| == start + attemptNo
      invariant forall i :: start <= i < start + attemptNo ==> world.connectLog[i].Err?
      invariant old(world.clock) <= world.clock <= old(world.clock) + attemptNo * timeout
      decreases 5 - attemptNo
    {
      r := world.Connect(timeout);
      assert Last(world.connectLog[start..]) == r;
      match r {
        case Ok(channel) =>
          world.OthersRun(holder);
          holder.channel := Some(channel);
          return;
        case Err(_) =>
          if attemptNo > 3 { return; }
      }
      attemptNo := attemptNo + 1;
    }
  }

  /** The cached channel if there is one, and then nothing connects; otherwise a new one. */
  method GetChannel<R>(world: World<R>, holder: GrpcChannelHolder, timeout: nat) returns (r: Result<nat, GrpcReadError>)
    modifies world`clock, world`nextChannel, world`connectLog, world`turns, holder
    ensures old(world.turns) < world.turns && old(world.connectLog) <= world.connectLog
    ensures match old(world.Found(holder))
      case Some(cached) => r == Ok(cached) && world.connectLog == old(world.connectLog)
      case None => LastOfTries(world.connectLog[|old(world.connectLog)|..], 5, r)
    ensures r.Ok? ==> holder.channel == Some(r.value)
    ensures old(world.clock) <= world.clock <= old(world.clock) + 5 * timeout
  {
    world.OthersRun(holder);
    if holder.channel.Some? {
      return Ok(holder.channel.value);
    }
    r := CreateChannel(world, holder, timeout);
  }

  /** `execute` and its variants: one attempt. Without a channel there is no call and the error is that
      of the last connect; otherwise there is one call, on the cached channel if there was one. After it
      the holder is empty if the channel is to be dropped; else this request does not touch the holder
      again, which had the channel when the call began and has what other jobs left of it. */
  method Execute<R>(world: World<R>, holder: GrpcChannelHolder, timeout: nat) returns (r: Result<R, GrpcReadError>)
    modifies world, holder
    ensures world.attemptLog == old(world.attemptLog) + [r]
    ensures old(world.connectLog) <= world.connectLog && |world.connectLog| <= |old(world.connectLog)| + 5
    ensures if |world.callLog| == |old(world.callLog)| then
        && world.callLog == old(world.callLog) && old(world.Found(holder)).None?
        && |world.connectLog| == |old(world.connectLog)| + 5
        && Last(world.connectLog).Err? && r == Err(Last(world.connectLog).error)
      else
        && |world.callLog| == |old(world.callLog)| + 1 && old(world.callLog) <= world.callLog
        && var (channel, waited) := Last(world.callLog);
        && (waited.Finished? ==> r == Ok(waited.value))
        && (waited.Failed? ==> r == Err(TonicStatus(waited.code)))
        && (waited.TimedOut? ==> r == Err(Timeout))
        && old(world.turns) < world.turns
        && holder.channel == (if waited.TimedOut? || waited == Failed(2) then None
             else world.Left(world.turns - 1, Some(channel)))
        && (if old(world.Found(holder)).Some? then
              channel == old(world.Found(holder)).value && world.connectLog == old(world.connectLog)
            else |world.connectLog| > |old(world.connectLog)| && Last(world.connectLog) == Ok(channel))
    ensures old(world.clock) <= world.clock <= old(world.clock) + 6 * timeout
  {
    var channel := GetChannel(world, holder, timeout);
    if channel.Err? {
      r := Err(channel.error);
      world.attemptLog := world.attemptLog + [r];
      return;
    }
    var result := world.Call(holder, channel.value, timeout);
    match result {
      case TimedOut =>
        world.OthersRun(holder);
        holder.channel := None;
        r := Err(Timeout);
      case Failed(code) =>
        if code == UNKNOWN {
          world.OthersRun(holder);
          holder.channel := None;
        }
        r := Err(TonicStatus(code));
      case Finished(value) => r := Ok(value);
    }
    world.attemptLog := world.attemptLog + [r];
  }

  lemma OneMoreAttempt(timeout: nat, n: nat)
    ensures 6 * timeout * (n + 1) == 6 * timeout * n + 6 * timeout
  {
  }

  lemma MoreAttemptsTakeLonger(timeout: nat, n: nat, m: nat)
    requires n <= m
    ensures 6 * timeout * n <= 6 * timeout * m
  {
    assert 6 * timeout * (m - n) >= 0;
    assert 6 * timeout * m == 6 * timeout * n + 6 * timeout * (m - n);
  }

  /** `get_response` and `get_streamed_response` of the builders with retries. Whatever happens, the
      request makes between 1 and max(1, R) attempts, returns the first success or else the last
      error, connects at most 5 times per attempt and takes at most 6·T per attempt. */
  method GetResponse<R>(world: World<R>, holder: GrpcChannelHolder, timeout: nat, maxAttempts: nat)
    returns (r: Result<R, GrpcReadError>)
    modifies world, holder
    ensures old(world.attemptLog) <= world.attemptLog
    ensures LastOfTries(world.attemptLog[|old(world.attemptLog)|..], Max(1, maxAttempts), r)
    ensures old(world.callLog) <= world.callLog
    ensures r.Ok? <==> |world.callLog| > |old(world.callLog)| && Last(world.callLog).1.Finished?
    ensures r.Ok? ==> Last(world.callLog).1 == Finished(r.value)
    ensures |world.connectLog| <= |old(world.connectLog)| + 5 * (|world.attemptLog| - |old(world.attemptLog)|)
    ensures world.clock <= old(world.clock) + 6 * timeout * Max(1, maxAttempts)
  {
    ghost var start := |world.attemptLog|;
    var attemptNo := 0;
    while true
      invariant attemptNo < Max(1, maxAttempts)
      invariant old(world.attemptLog) <= world.attemptLog && |world.attemptLog| == start + attemptNo
      invariant forall i :: start <= i < start + attemptNo ==> world.attemptLog[i].Err?
      invariant old(world.callLog) <= world.callLog
      invariant |world.callLog| > |old(world.callLog)| ==> !Last(world.callLog).1.Finished?
      invariant |world.connectLog| <= |old(world.connectLog)| + 5 * attemptNo
      invariant world.clock <= old(world.clock) + 6 * timeout * attemptNo
      decreases Max(1, maxAttempts) - attemptNo
    {
      r := Execute(world, holder, timeout);
      OneMoreAttempt(timeout, attemptNo);
      MoreAttemptsTakeLonger(timeout, attemptNo + 1, Max(1, maxAttempts));
      assert Last(world.attemptLog[start..]) == r;
      match r {
        case Ok(_) => return;
        case Err(_) =>
          attemptNo := attemptNo + 1;
          if attemptNo >= maxAttempts { return; }
      }
    }
  }
}
