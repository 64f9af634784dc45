/** The shared channel cache under concurrency: any number of request jobs and the background ping loop
    around one mutex-guarded holder. A step is what a job does between two awaits, so reading, storing
    and taking the held channel are single steps and calls, connects and sleeps lie between them. */
module ChannelSafety {
  import opened Sequences

  /** Where a job is. A channel is a number, given out by the connection that made it. */
  datatype Stage =
    | Sleeping
    | Lookup
    | Connecting(failedTries: nat)
    | Storing(channel: nat)
    | Using(channel: nat)
    | Dropping(channel: nat)
    | AttemptFailed
    | Finished(ok: bool)

  /** `bad` remembers the channels whose failure made this job empty the holder. */
  datatype Job = Job(isPing: bool, maxAttempts: nat, failures: nat, stage: Stage, bad: set<nat>)

  /** `made` counts connections; `entered`, `retired` and `failed` are histories: what was stored in the
      holder, in order, what was overwritten or taken out, and on what a call failed in any way. Job 0
      is the ping loop. */
  datatype Pool = Pool(
    holder: Option<nat>,
    enablePing: bool,
    jobs: seq<Job>,
    made: nat,
    entered: seq<nat>,
    retired: set<nat>,
    failed: set<nat>)

  datatype Event =
    | GetChannel
    | StartRequest(maxAttempts: nat)
    | Wake
    | Find(j: nat)
    | ConnectOk(j: nat)
    | ConnectFails(j: nat)
    | Store(j: nat)
    | CallOk(j: nat)
    | CallFails(j: nat, dropsChannel: bool)
    | Take(j: nat)
    | Judge(j: nat)

  predicate Enabled(p: Pool, e: Event) {
    match e
    case GetChannel => true
    case StartRequest(_) => p.enablePing
    case Wake => 0 < |p.jobs| && p.jobs[0].stage.Sleeping? && p.enablePing
    case Find(j) => j < |p.jobs| && p.jobs[j].stage.Lookup?
    case ConnectOk(j) => j < |p.jobs| && p.jobs[j].stage.Connecting?
    case ConnectFails(j) => j < |p.jobs| && p.jobs[j].stage.Connecting?
    case Store(j) => j < |p.jobs| && p.jobs[j].stage.Storing?
    case CallOk(j) => j < |p.jobs| && p.jobs[j].stage.Using?
    case CallFails(j, drops) => j < |p.jobs| && p.jobs[j].stage.Using? && (p.jobs[j].isPing ==> drops)
    case Take(j) => j < |p.jobs| && p.jobs[j].stage.Dropping?
    case Judge(j) => j < |p.jobs| && p.jobs[j].stage.AttemptFailed?
  }

  function At(p: Pool, j: nat, stage: Stage): Pool
    requires j < |p.jobs|
  {
    p.(jobs := p.jobs[j := p.jobs[j].(stage := stage)])
  }

  function Leaves(holder: Option<nat>): set<nat> {
    if holder.Some? then {holder.value} else {}
  }

  function Next(p: Pool, e: Event): Pool
    requires Enabled(p, e)
  {
    match e
    case GetChannel => p.(enablePing := true)
    case StartRequest(n) => p.(jobs := p.jobs + [Job(false, n, 0, Lookup, {})])
    case Wake => At(p, 0, Lookup)
    case Find(j) => At(p, j, if p.holder.Some? then Using(p.holder.value) else Connecting(0))
    case ConnectOk(j) => At(p, j, Storing(p.made)).(made := p.made + 1)
    case ConnectFails(j) =>
      var t := p.jobs[j].stage.failedTries;
      At(p, j, if t > 3 then AttemptFailed else Connecting(t + 1))
    case Store(j) =>
      var c := p.jobs[j].stage.channel;
      At(p, j, Using(c)).(holder := Some(c), entered := p.entered + [c], retired := p.retired + Leaves(p.holder))
    case CallOk(j) => At(p, j, if p.jobs[j].isPing then Sleeping else Finished(true))
    case CallFails(j, drops) =>
      var c := p.jobs[j].stage.channel;
      At(p, j, if drops then Dropping(c) else AttemptFailed).(failed := p.failed + {c})
    case Take(j) =>
      var job := p.jobs[j];
      p.(holder := None, retired := p.retired + Leaves(p.holder),
         jobs := p.jobs[j := job.(stage := AttemptFailed, bad := job.bad + {job.stage.channel})])
    case Judge(j) =>
      var job := p.jobs[j];
      var next :=
        if job.isPing then Sleeping
        else if job.failures + 1 >= job.maxAttempts then Finished(false)
        else Lookup;
      p.(jobs := p.jobs[j := job.(failures := job.failures + 1, stage := next)])
  }

  function Start(): Pool {
    Pool(None, false, [Job(true, 0, 0, Sleeping, {})], 0, [], {}, {})
  }

  ghost predicate Runs(p: Pool, events: seq<Event>, q: Pool)
    decreases events
  {
    if events == [] then p == q
    else Enabled(p, events[0]) && Runs(Next(p, events[0]), events[1..], q)
  }

  // ---- the invariant ----

  /** Each connection enters the holder at most once, and what left the holder is not in it. */
  ghost predicate EnteredOnce(p: Pool) {
    && (forall i, k :: 0 <= i < k < |p.entered| ==> p.entered[i] != p.entered[k])
    && (forall i :: 0 <= i < |p.entered| ==> p.entered[i] < p.made)
    && (p.holder.Some? ==> p.holder.value in p.entered && p.holder.value !in p.retired)
    && (forall c :: c in p.retired ==> c in p.entered)
    && (forall c :: c in p.entered ==> c in p.retired || p.holder == Some(c))
  }

  predicate IsStoring(p: Pool, j: nat, c: nat) {
    j < |p.jobs| && p.jobs[j].stage == Storing(c)
  }

  /** Job j made the connection c and is about to store it. */
  ghost predicate BeingStored(p: Pool, c: nat) {
    exists j: nat :: IsStoring(p, j, c)
  }

  ghost predicate NoneIsForgotten(p: Pool) {
    forall c: nat :: c < p.made ==> c in p.entered || BeingStored(p, c)
  }

  ghost predicate JobSound(p: Pool, job: Job) {
    && (job.stage.Storing? ==> job.stage.channel < p.made && job.stage.channel !in p.entered)
    && (job.stage.Using? || job.stage.Dropping? ==> job.stage.channel in p.entered && job.stage.channel !in job.bad)
    && job.bad <= p.retired
    && (job.stage.Connecting? ==> job.stage.failedTries <= 4)
    && (!job.isPing ==> job.failures <= Max(1, job.maxAttempts))
    && (!job.isPing ==> (job.failures == Max(1, job.maxAttempts) <==> job.stage == Finished(false)))
    && (job.stage.Sleeping? ==> job.isPing)
  }

  ghost predicate Inv(p: Pool) {
    && EnteredOnce(p)
    && NoneIsForgotten(p)
    && (forall j :: 0 <= j < |p.jobs| ==> JobSound(p, p.jobs[j]))
    && (forall j, k :: 0 <= j < k < |p.jobs| && p.jobs[j].stage.Storing? ==> p.jobs[k].stage != p.jobs[j].stage)
    && (!p.enablePing ==> p == Start())
  }

  lemma EnteredOncePreserved(p: Pool, e: Event)
    requires Inv(p) && Enabled(p, e)
    ensures EnteredOnce(Next(p, e))
  {
    if e.Store? {
      assert JobSound(p, p.jobs[e.j]);
      var q := Next(p, e);
      assert q.entered[|p.entered|] == p.jobs[e.j].stage.channel;
    }
  }

  lemma StoringGoesOn(p: Pool, e: Event, c: nat)
    requires BeingStored(p, c) && Enabled(p, e)
    ensures c in Next(p, e).entered || BeingStored(Next(p, e), c)
  {
    var j: nat :| IsStoring(p, j, c);
    if e == Store(j) {
      assert Last(Next(p, e).entered) == c;
    } else {
      assert IsStoring(Next(p, e), j, c);
    }
  }

  /** A connection that was made stays with its job until that job stores it. */
  lemma NoneIsForgottenPreserved(p: Pool, e: Event)
    requires NoneIsForgotten(p) && Enabled(p, e)
    ensures NoneIsForgotten(Next(p, e))
  {
    var q := Next(p, e);
    forall c: nat | c < q.made ensures c in q.entered || BeingStored(q, c) {
      if c == p.made {
        assert IsStoring(q, e.j, c);
      } else if c in p.entered {
        assert c in q.entered;
      } else {
        StoringGoesOn(p, e, c);
      }
    }
  }

  lemma StoreKeepsJobs(p: Pool, i: nat, j: nat)
    requires Inv(p) && Enabled(p, Store(i)) && j < |p.jobs|
    ensures var q := Next(p, Store(i)); JobSound(q, q.jobs[j])
  {
    hide NoneIsForgotten;
    assert JobSound(p, p.jobs[j]) && JobSound(p, p.jobs[i]);
    if j != i {
      assert p.jobs[j].stage != p.jobs[i].stage;
    }
  }

  lemma TakeKeepsJobs(p: Pool, i: nat, j: nat)
    requires Inv(p) && Enabled(p, Take(i)) && j < |p.jobs|
    ensures var q := Next(p, Take(i)); JobSound(q, q.jobs[j])
  {
    hide NoneIsForgotten;
    assert JobSound(p, p.jobs[j]);
    if j == i {
      assert p.jobs[j].stage.channel in Next(p, Take(i)).retired;
    }
  }

  /** The steps that leave the holder alone. */
  lemma OtherStepsKeepJobs(p: Pool, e: Event, j: nat)
    requires Inv(p) && Enabled(p, e) && !e.Store? && !e.Take? && j < |Next(p, e).jobs|
    ensures JobSound(Next(p, e), Next(p, e).jobs[j])
  {
    hide NoneIsForgotten;
    if j < |p.jobs| { assert JobSound(p, p.jobs[j]); }
  }

  lemma JobPreserved(p: Pool, e: Event, j: nat)
    requires Inv(p) && Enabled(p, e) && j < |Next(p, e).jobs|
    ensures JobSound(Next(p, e), Next(p, e).jobs[j])
  {
    hide Inv, JobSound;
    match e
    case Store(i) => StoreKeepsJobs(p, i, j);
    case Take(i) => TakeKeepsJobs(p, i, j);
    case _ => OtherStepsKeepJobs(p, e, j);
  }

  lemma StoringDiffers(p: Pool, e: Event, j: nat, k: nat)
    requires Inv(p) && Enabled(p, e) && j < k < |Next(p, e).jobs| && Next(p, e).jobs[j].stage.Storing?
    ensures Next(p, e).jobs[k].stage != Next(p, e).jobs[j].stage
  {
    if j < |p.jobs| { assert JobSound(p, p.jobs[j]); }
    if k < |p.jobs| { assert JobSound(p, p.jobs[k]); }
  }

  lemma InvPreserved(p: Pool, e: Event)
    requires Inv(p) && Enabled(p, e)
    ensures Inv(Next(p, e))
  {
    var q := Next(p, e);
    EnteredOncePreserved(p, e);
    NoneIsForgottenPreserved(p, e);
    forall j: nat | j < |q.jobs| ensures JobSound(q, q.jobs[j]) { JobPreserved(p, e, j); }
    forall j: nat, k: nat | j < k < |q.jobs| && q.jobs[j].stage.Storing?
      ensures q.jobs[k].stage != q.jobs[j].stage
    {
      StoringDiffers(p, e, j, k);
    }
  }

  lemma {:induction false} InvAlongRun(p: Pool, events: seq<Event>, q: Pool)
    requires Inv(p) && Runs(p, events, q)
    ensures Inv(q)
    decreases events
  {
    if events != [] {
      InvPreserved(p, events[0]);
      InvAlongRun(Next(p, events[0]), events[1..], q);
    }
  }

  lemma ReachableIsSound(events: seq<Event>, q: Pool)
    requires Runs(Start(), events, q)
    ensures Inv(q)
  {
    assert Inv(Start());
    InvAlongRun(Start(), events, q);
  }

  // ---- what follows ----

  lemma {:induction false} RetiredStaysRetired(p: Pool, events: seq<Event>, q: Pool)
    requires Runs(p, events, q)
    ensures p.retired <= q.retired
    decreases events
  {
    if events != [] { RetiredStaysRetired(Next(p, events[0]), events[1..], q); }
  }

  /** c entered the holder at one moment, or the one job that made it is about to store it. */
  ghost predicate EntersExactlyOnce(p: Pool, c: nat) {
    && (c in p.entered <==> !BeingStored(p, c))
    && (forall i, k :: 0 <= i < k < |p.entered| ==> !(p.entered[i] == p.entered[k] == c))
    && (forall j, k :: IsStoring(p, j, c) && IsStoring(p, k, c) ==> j == k)
  }

  lemma MadeEntersExactlyOnce(p: Pool, c: nat)
    requires Inv(p) && c < p.made
    ensures EntersExactlyOnce(p, c)
  {
    if BeingStored(p, c) {
      var j: nat :| IsStoring(p, j, c);
      assert JobSound(p, p.jobs[j]);
    }
  }

  /** Every connection enters the holder exactly once, and once it was dropped or overwritten it is
      never in the holder again, whatever runs. */
  lemma ChannelsDoNotReturn(before: seq<Event>, p: Pool, after: seq<Event>, q: Pool, c: nat)
    requires Runs(Start(), before, p) && Runs(p, after, q) && c in p.retired
    ensures q.holder != Some(c)
    ensures forall d: nat :: d < q.made ==> EntersExactlyOnce(q, d)
    ensures forall d :: d in q.entered ==> d < q.made
  {
    ReachableIsSound(before, p);
    InvAlongRun(p, after, q);
    RetiredStaysRetired(p, after, q);
    forall d: nat | d < q.made ensures EntersExactlyOnce(q, d) { MadeEntersExactlyOnce(q, d); }
  }

  /** Job j is about to drop c or has dropped it. */
  predicate Shuns(p: Pool, j: nat, c: nat)
    requires j < |p.jobs|
  {
    p.jobs[j].stage == Dropping(c) || c in p.jobs[j].bad
  }

  lemma {:induction false} ShunnedStaysShunned(p: Pool, events: seq<Event>, q: Pool, j: nat, c: nat)
    requires Runs(p, events, q) && j < |p.jobs| && Shuns(p, j, c)
    ensures j < |q.jobs| && Shuns(q, j, c)
    decreases events
  {
    if events != [] { ShunnedStaysShunned(Next(p, events[0]), events[1..], q, j, c); }
  }

  /** After a call timed out or ended with status Unknown, the job that made it never runs a call on
      that channel again, whatever else runs. */
  lemma RetryAvoidsTheFailedChannel(before: seq<Event>, p: Pool, j: nat, after: seq<Event>, q: Pool)
    requires Runs(Start(), before, p) && Enabled(p, CallFails(j, true))
    requires Runs(Next(p, CallFails(j, true)), after, q)
    ensures j < |q.jobs| && q.jobs[j].stage != Using(p.jobs[j].stage.channel)
  {
    var u := Next(p, CallFails(j, true));
    ReachableIsSound(before, p);
    InvPreserved(p, CallFails(j, true));
    InvAlongRun(u, after, q);
    ShunnedStaysShunned(u, after, q, j, p.jobs[j].stage.channel);
    assert JobSound(q, q.jobs[j]);
  }

  /** A request whose call succeeded is done, and with success, whatever else runs. */
  lemma {:induction false} FinishedStaysFinished(p: Pool, events: seq<Event>, q: Pool, j: nat)
    requires Runs(p, events, q) && j < |p.jobs| && p.jobs[j].stage.Finished?
    ensures j < |q.jobs| && q.jobs[j] == p.jobs[j]
    decreases events
  {
    if events != [] { FinishedStaysFinished(Next(p, events[0]), events[1..], q, j); }
  }

  lemma SuccessIsFinal(p: Pool, j: nat, events: seq<Event>, q: Pool)
    requires Enabled(p, CallOk(j)) && !p.jobs[j].isPing && Runs(Next(p, CallOk(j)), events, q)
    ensures j < |q.jobs| && q.jobs[j].stage == Finished(true) && q.jobs[j].failures == p.jobs[j].failures
  {
    FinishedStaysFinished(Next(p, CallOk(j)), events, q, j);
  }

  lemma {:induction false} JobZeroIsThePing(p: Pool, events: seq<Event>, q: Pool)
    requires Runs(p, events, q) && 0 < |p.jobs| && p.jobs[0].isPing
    ensures 0 < |q.jobs| && q.jobs[0].isPing
    decreases events
  {
    if events != [] { JobZeroIsThePing(Next(p, events[0]), events[1..], q); }
  }

  /** A ping that fails always drops the channel it failed on, and never runs on it again. */
  lemma FailedPingDropsItsChannel(before: seq<Event>, p: Pool, drops: bool, after: seq<Event>, q: Pool)
    requires Runs(Start(), before, p) && Enabled(p, CallFails(0, drops))
    requires Runs(Next(p, CallFails(0, drops)), after, q)
    ensures drops && 0 < |q.jobs| && q.jobs[0].stage != Using(p.jobs[0].stage.channel)
  {
    JobZeroIsThePing(Start(), before, p);
    RetryAvoidsTheFailedChannel(before, p, 0, after, q);
  }

  /** The events in which job j itself acts. */
  predicate IsOf(e: Event, j: nat) {
    match e
    case GetChannel => false
    case StartRequest(_) => false
    case Wake => j == 0
    case _ => e.j == j
  }

  /** All that job j does is fail to connect, n times; others do what they like. */
  predicate OnlyFailsToConnect(events: seq<Event>, j: nat, n: nat) {
    if events == [] then n == 0
    else if events[0] == ConnectFails(j) then n > 0 && OnlyFailsToConnect(events[1..], j, n - 1)
    else !IsOf(events[0], j) && OnlyFailsToConnect(events[1..], j, n)
  }

  lemma {:induction false} ConnectsFailOneByOne(p: Pool, events: seq<Event>, q: Pool, j: nat, tried: nat, n: nat)
    requires Runs(p, events, q) && j < |p.jobs| && tried <= 5 && OnlyFailsToConnect(events, j, n)
    requires p.jobs[j].stage == if tried == 5 then AttemptFailed else Connecting(tried)
    ensures tried + n <= 5 && j < |q.jobs|
    ensures q.jobs[j].stage == if tried + n == 5 then AttemptFailed else Connecting(tried + n)
    decreases events
  {
    if events != [] {
      var u := Next(p, events[0]);
      if events[0] == ConnectFails(j) {
        ConnectsFailOneByOne(u, events[1..], q, j, tried + 1, n - 1);
      } else {
        assert u.jobs[j].stage == p.jobs[j].stage;
        ConnectsFailOneByOne(u, events[1..], q, j, tried, n);
      }
    }
  }

  /** A lookup that finds no channel is followed by five tries to connect, no more and, if they all
      fail, no fewer. */
  lemma AttemptGivesUpAfterFiveConnects(p: Pool, j: nat, events: seq<Event>, q: Pool, n: nat)
    requires Enabled(p, Find(j)) && p.holder == None && Runs(Next(p, Find(j)), events, q)
    requires OnlyFailsToConnect(events, j, n)
    ensures n <= 5 && j < |q.jobs|
    ensures q.jobs[j].stage == AttemptFailed <==> n == 5
  {
    ConnectsFailOneByOne(Next(p, Find(j)), events, q, j, 0, n);
  }

  /** No job ever uses a channel it dropped. A request makes at most max(1, R) attempts of at most 5
      connects each, and fails exactly when it has made them all. */
  lemma AttemptsAreBounded(events: seq<Event>, q: Pool, j: nat)
    requires Runs(Start(), events, q) && j < |q.jobs|
    ensures q.jobs[j].stage.Using? ==> q.jobs[j].stage.channel !in q.jobs[j].bad
    ensures q.jobs[j].stage.Connecting? ==> q.jobs[j].stage.failedTries < 5
    ensures !q.jobs[j].isPing ==> q.jobs[j].failures <= Max(1, q.jobs[j].maxAttempts)
    ensures !q.jobs[j].isPing ==>
      (q.jobs[j].failures == Max(1, q.jobs[j].maxAttempts) <==> q.jobs[j].stage == Finished(false))
  {
    ReachableIsSound(events, q);
    assert JobSound(q, q.jobs[j]);
  }

  /** Nothing connects, not even the ping loop, before the first `get_channel`. */
  lemma NoConnectionBeforeGetChannel(events: seq<Event>, q: Pool)
    requires Runs(Start(), events, q) && !q.enablePing
    ensures q.made == 0 && q.entered == [] && |q.jobs| == 1 && q.jobs[0].stage.Sleeping?
  {
    ReachableIsSound(events, q);
  }

  /** No job stores a channel or empties the holder. */
  predicate LeavesHolderAlone(events: seq<Event>) {
    events == [] || (!events[0].Store? && !events[0].Take? && LeavesHolderAlone(events[1..]))
  }

  /** A channel is still held at the end of a run exactly when nobody stored or took one in it. */
  lemma {:induction false} HeldExactlyWhileLeftAlone(p: Pool, events: seq<Event>, q: Pool, c: nat)
    requires Inv(p) && p.holder == Some(c) && Runs(p, events, q)
    ensures q.holder == Some(c) <==> LeavesHolderAlone(events)
    decreases events
  {
    if events != [] {
      var u := Next(p, events[0]);
      InvPreserved(p, events[0]);
      if events[0].Store? || events[0].Take? {
        InvAlongRun(u, events[1..], q);
        RetiredStaysRetired(u, events[1..], q);
      } else {
        HeldExactlyWhileLeftAlone(u, events[1..], q, c);
      }
    }
  }

  /** After a failure that keeps the channel, whatever other jobs do and however often the request
      retries, it looks the same channel up again exactly when the holder had that channel and no job
      stored a channel or emptied the holder since. */
  lemma RetryReusesChannelExactlyIfKept(p: Pool, j: nat, events: seq<Event>, q: Pool)
    requires Inv(p) && Enabled(p, CallFails(j, false))
    requires Runs(Next(p, CallFails(j, false)), events, q) && Enabled(q, Find(j))
    ensures Next(q, Find(j)).jobs[j].stage == p.jobs[j].stage <==>
      p.holder == Some(p.jobs[j].stage.channel) && LeavesHolderAlone(events)
  {
    var c, u := p.jobs[j].stage.channel, Next(p, CallFails(j, false));
    InvPreserved(p, CallFails(j, false));
    if p.holder == Some(c) {
      HeldExactlyWhileLeftAlone(u, events, q, c);
    } else {
      assert JobSound(p, p.jobs[j]);
      InvAlongRun(u, events, q);
      RetiredStaysRetired(u, events, q);
    }
  }

  /** The moment a job gets its channel, out of the holder or by storing its own. */
  predicate GetsChannel(p: Pool, e: Event, j: nat) {
    Enabled(p, e) && ((e == Find(j) && p.holder.Some?) || e == Store(j))
  }

  /** Emptying the holder after a failed call removes the channel the call failed on exactly when no
      other job stored a channel or emptied the holder since this job got it. */
  lemma DropHitsTheFailedChannelExactlyIfUndisturbed(before: seq<Event>, p: Pool, got: Event, since: seq<Event>,
                                                     q: Pool, j: nat)
    requires Runs(Start(), before, p) && GetsChannel(p, got, j)
    requires Runs(Next(p, got), since, q) && Enabled(q, Take(j))
    requires q.jobs[j].stage.channel == Next(p, got).jobs[j].stage.channel
    ensures q.holder == Some(q.jobs[j].stage.channel) <==> LeavesHolderAlone(since)
  {
    ReachableIsSound(before, p);
    InvPreserved(p, got);
    HeldExactlyWhileLeftAlone(Next(p, got), since, q, q.jobs[j].stage.channel);
  }

  lemma {:induction false} RunsConcat(p: Pool, a: seq<Event>, q: Pool, b: seq<Event>, r: Pool)
    requires Runs(p, a, q) && Runs(q, b, r)
    ensures Runs(p, a + b, r)
    decreases a
  {
    if a == [] {
      assert a + b == b;
    } else {
      assert (a + b)[0] == a[0] && (a + b)[1..] == a[1..] + b;
      RunsConcat(Next(p, a[0]), a[1..], q, b, r);
    }
  }

  lemma ThreeSteps(p: Pool, x: Event, y: Event, z: Event) returns (q: Pool)
    requires Enabled(p, x) && Enabled(Next(p, x), y) && Enabled(Next(Next(p, x), y), z)
    ensures q == Next(Next(Next(p, x), y), z) && Runs(p, [x, y, z], q)
  {
    q := Next(Next(Next(p, x), y), z);
    assert [x, y, z][1..] == [y, z] && [y, z][1..] == [z] && [z][1..] == [];
    assert Runs(Next(Next(p, x), y), [z], q);
    assert Runs(Next(p, x), [y, z], q);
  }

  /** The pool while the ping sleeps and two requests of at most two attempts run. */
  function TwoRequests(holder: Option<nat>, x: Job, y: Job, made: nat, entered: seq<nat>, gone: set<nat>,
                       failed: set<nat>): Pool
  {
    Pool(holder, true, [Job(true, 0, 0, Sleeping, {}), x, y], made, entered, gone, failed)
  }

  function Request(failures: nat, stage: Stage, bad: set<nat>): Job {
    Job(false, 2, failures, stage, bad)
  }

  lemma BothRequestsStart() returns (q: Pool)
    ensures Runs(Start(), [GetChannel, StartRequest(2), StartRequest(2)], q)
    ensures q == TwoRequests(None, Request(0, Lookup, {}), Request(0, Lookup, {}), 0, [], {}, {})
  {
    hide Runs;
    q := ThreeSteps(Start(), GetChannel, StartRequest(2), StartRequest(2));
  }

  /** The first request connects and stores its channel, named by how many there were before. */
  lemma FirstRequestConnects(y: Job, failures: nat, made: nat, entered: seq<nat>, gone: set<nat>, failed: set<nat>,
                             bad: set<nat>) returns (q: Pool)
    ensures var p := TwoRequests(None, Request(failures, Lookup, bad), y, made, entered, gone, failed);
      Runs(p, [Find(1), ConnectOk(1), Store(1)], q)
    ensures q ==
      TwoRequests(Some(made), Request(failures, Using(made), bad), y, made + 1, entered + [made], gone, failed)
  {
    hide Runs;
    var p := TwoRequests(None, Request(failures, Lookup, bad), y, made, entered, gone, failed);
    q := ThreeSteps(p, Find(1), ConnectOk(1), Store(1));
  }

  /** Both requests use channel 0; the call of the first one times out and empties the holder. */
  lemma SharedChannelTimesOut(p: Pool) returns (q: Pool)
    requires p == TwoRequests(Some(0), Request(0, Using(0), {}), Request(0, Lookup, {}), 1, [0], {}, {})
    ensures Runs(p, [Find(2), CallFails(1, true), Take(1)], q)
    ensures q == TwoRequests(None, Request(0, AttemptFailed, {0}), Request(0, Using(0), {}), 1, [0], {0}, {0})
  {
    hide Runs;
    q := ThreeSteps(p, Find(2), CallFails(1, true), Take(1));
    assert q.retired == q.failed == {0} && q.jobs[1].bad == {0};
  }

  /** The second request's call on channel 0 fails as well, after the first one has reconnected and
      somebody else has asked for a channel. */
  lemma LateDropHitsTheNewChannel(p: Pool) returns (q: Pool)
    requires p == TwoRequests(Some(1), Request(1, Using(1), {0}), Request(0, Using(0), {}), 2, [0, 1], {0}, {0})
    ensures Runs(p, [GetChannel, CallFails(2, true), Take(2)], q)
    ensures q.entered == [0, 1] && 1 in q.retired && q.holder == None && q.failed == {0}
  {
    hide Runs;
    q := ThreeSteps(p, GetChannel, CallFails(2, true), Take(2));
  }

  lemma FirstRequestRetries(p: Pool) returns (q: Pool)
    requires p == TwoRequests(None, Request(0, AttemptFailed, {0}), Request(0, Using(0), {}), 1, [0], {0}, {0})
    ensures Runs(p, [Judge(1)], q)
    ensures q == TwoRequests(None, Request(1, Lookup, {0}), Request(0, Using(0), {}), 1, [0], {0}, {0})
  {
    q := Next(p, Judge(1));
    assert [Judge(1)][1..] == [];
  }

  /** A drop can remove a channel on which no call ever failed: the second request's drop, for channel
      0, comes after the first one has reconnected. */
  lemma HealthyChannelCanBeDropped() returns (events: seq<Event>, q: Pool)
    ensures Runs(Start(), events, q)
    ensures q.entered == [0, 1] && 1 in q.retired && q.holder == None
    ensures 1 !in q.failed
  {
    hide Runs, Next, Enabled;
    var connects := [Find(1), ConnectOk(1), Store(1)];
    var a := BothRequestsStart();
    var b := FirstRequestConnects(Request(0, Lookup, {}), 0, 0, [], {}, {}, {});
    var c := SharedChannelTimesOut(b);
    var d := FirstRequestRetries(c);
    var e := FirstRequestConnects(Request(0, Using(0), {}), 1, 1, [0], {0}, {0}, {0});
    q := LateDropHitsTheNewChannel(e);
    events := [GetChannel, StartRequest(2), StartRequest(2)] + connects;
    RunsConcat(Start(), [GetChannel, StartRequest(2), StartRequest(2)], a, connects, b);
    RunsConcat(Start(), events, b, [Find(2), CallFails(1, true), Take(1)], c);
    events := events + [Find(2), CallFails(1, true), Take(1)];
    RunsConcat(Start(), events, c, [Judge(1)], d);
    events := events + [Judge(1)];
    RunsConcat(Start(), events, d, connects, e);
    events := events + connects;
    RunsConcat(Start(), events, e, [GetChannel, CallFails(2, true), Take(2)], q);
    events := events + [GetChannel, CallFails(2, true), Take(2)];
  }
}
