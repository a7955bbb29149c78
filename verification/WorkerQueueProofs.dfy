/** The shutdown protocol with its exact exception, and the exact drain of the queue. */
module WorkerQueueProofs {
  import opened Common
  import opened WorkerQueue

  // ----- the shutdown protocol -----

  predicate HoldsLock(p: CallPhase) { p.Took? || p.Awaiting? }

  predicate WorkerStopped(s: State) { s.worker.Stopping? || s.worker.Ended? }

  predicate CallFits(c: Call, i: nat, shut: bool, lock: Option<nat>, over: bool) {
    && c.inTime <= c.next <= |c.batch|
    && (!shut ==> c.inTime == c.next)
    && (!c.phase.Sending? && c.phase != Returned(false) ==> c.next == |c.batch|)
    && (HoldsLock(c.phase) ==> lock == Some(i) && c.finishes && c.inTime == |c.batch|)
    && (c.phase.Took? ==> !shut)
    && (c.phase == Returned(true) && c.finishes ==> over)
    && (c.phase.WantLock? ==> c.finishes)
    && !c.phase.Panicked?
  }

  /** The shutdown message has been sent. */
  predicate Shut(s: State) { Shutdown in s.sent }

  /** Nobody waits for the worker any more: it has ended, or its join handle has been dropped. */
  predicate Over(s: State) { s.worker.Ended? || s.abandoned }

  predicate CallOk(s: State, i: nat)
    requires i < |s.calls|
  {
    CallFits(s.calls[i], i, Shut(s), s.lock, Over(s))
  }

  /** The one call that took the handle. */
  predicate Taker(c: Call) {
    c.finishes && c.inTime == |c.batch| && (HoldsLock(c.phase) || c.phase == Returned(true) || c.phase.Dropped?)
  }

  /** No two shutdown messages. */
  predicate OneShutdown(rs: seq<Request>) {
    forall m :: 0 <= m < |rs| && rs[m] == Shutdown ==> Shutdown !in rs[..m]
  }

  /** The worker has received n requests, and has stopped exactly if the last of them was the shutdown message. */
  predicate QueueOk(sent: seq<Request>, n: nat, stopped: bool) {
    && n <= |sent|
    && OneShutdown(sent)
    && (stopped <==> n > 0 && sent[n - 1] == Shutdown)
    && (stopped || forall m :: 0 <= m < n ==> sent[m] != Shutdown)
  }

  predicate QueueInv(s: State) { QueueOk(s.sent, |s.verdicts|, WorkerStopped(s)) }

  predicate LockOk(handle: bool, lock: Option<nat>, calls: seq<Call>, shut: bool) {
    && (handle ==> lock.None? && !shut)
    && (lock.Some? ==> lock.value < |calls| && HoldsLock(calls[lock.value].phase)
                       && (calls[lock.value].phase.Awaiting? ==> shut))
  }

  predicate LockInv(s: State) {
    && LockOk(s.handle, s.lock, s.calls, Shut(s))
    && (!s.handle && s.lock.None? ==> Over(s))
    && (s.abandoned ==> !s.handle && s.lock.None?)
  }

  predicate ShutdownInv(s: State) {
    && QueueInv(s) && LockInv(s)
    && (forall i :: 0 <= i < |s.calls| ==> CallOk(s, i))
    && (!s.handle ==> exists t :: 0 <= t < |s.calls| && Taker(s.calls[t]))
  }

  lemma SentSnoc(rs: seq<Request>, n: nat, stopped: bool, r: Request)
    requires QueueOk(rs, n, stopped) && (r.Shutdown? ==> Shutdown !in rs)
    ensures forall x :: x in rs + [r] <==> x in rs || x == r
    ensures QueueOk(rs + [r], n, stopped)
  {
    assert forall m :: 0 <= m <= |rs| ==> (rs + [r])[..m] == rs[..m];
    assert rs[..|rs|] == rs;
  }

  lemma QueueAdvances(sent: seq<Request>, n: nat)
    requires QueueOk(sent, n, false) && n < |sent|
    ensures QueueOk(sent, n + 1, sent[n] == Shutdown)
  {
  }

  lemma SendKeepsShutdown(s: State, i: nat)
    requires ShutdownInv(s) && Enabled(s, Send(i))
    ensures QueueInv(Do(s, Send(i))) && LockInv(Do(s, Send(i)))
    ensures forall k :: 0 <= k < |s.calls| ==> CallOk(Do(s, Send(i)), k)
  {
    var s' := Do(s, Send(i));
    assert CallOk(s, i);
    SentSnoc(s.sent, |s.verdicts|, WorkerStopped(s), Upload(s.calls[i].batch[s.calls[i].next]));
    assert Shut(s') == Shut(s) && Over(s') == Over(s) && s'.lock == s.lock;
    forall k | 0 <= k < |s.calls|
      ensures CallOk(s', k)
    {
      assert CallOk(s, k);
    }
  }

  lemma StoppedMeansSent(sent: seq<Request>, n: nat, stopped: bool)
    requires QueueOk(sent, n, stopped)
    ensures stopped ==> Shutdown in sent
  {
  }

  lemma TakerFindsReceiver(s: State, i: nat)
    requires ShutdownInv(s) && InPhase(s, i, Took)
    ensures !Shut(s) && ReceiverAlive(s) && CallOk(s, i)
  {
    assert CallOk(s, i);
    StoppedMeansSent(s.sent, |s.verdicts|, WorkerStopped(s));
  }

  lemma SendShutdownKeepsShutdown(s: State, i: nat)
    requires ShutdownInv(s) && Enabled(s, SendShutdown(i))
    ensures QueueInv(Do(s, SendShutdown(i))) && LockInv(Do(s, SendShutdown(i)))
    ensures forall k :: 0 <= k < |s.calls| ==> CallOk(Do(s, SendShutdown(i)), k)
    ensures ReceiverAlive(s)
  {
    TakerFindsReceiver(s, i);
    var s' := Do(s, SendShutdown(i));
    assert s'.verdicts == s.verdicts && s'.worker == s.worker && s'.lock == s.lock && Over(s') == Over(s);
    SentSnoc(s.sent, |s.verdicts|, WorkerStopped(s), Shutdown);
    forall k | 0 <= k < |s.calls|
      ensures CallOk(s', k)
    {
      assert CallOk(s, k);
    }
  }

  lemma OtherCallStepKeepsShutdown(s: State, st: Step)
    requires ShutdownInv(s) && Enabled(s, st)
    requires st.EndBatch? || st.Lock? || st.Join? || st.Drop?
    ensures QueueInv(Do(s, st)) && LockInv(Do(s, st))
    ensures forall k :: 0 <= k < |s.calls| ==> CallOk(Do(s, st), k)
  {
    var s' := Do(s, st);
    assert CallOk(s, st.i);
    assert s'.sent == s.sent && s'.verdicts == s.verdicts && s'.worker == s.worker;
    forall k | 0 <= k < |s.calls|
      ensures CallOk(s', k)
    {
      assert CallOk(s, k);
    }
  }

  lemma EnvironmentKeepsShutdown(s: State, st: Step)
    requires ShutdownInv(s) && Enabled(s, st)
    requires st.NewCall? || st.Trip?
    ensures QueueInv(Do(s, st)) && LockInv(Do(s, st))
    ensures forall k :: 0 <= k < |Do(s, st).calls| ==> CallOk(Do(s, st), k)
  {
    forall k | 0 <= k < |Do(s, st).calls|
      ensures CallOk(Do(s, st), k)
    {
      if k < |s.calls| {
        assert CallOk(s, k);
      }
    }
  }

  /** What the worker does leaves calls, channel and lock alone. */
  lemma SameCallsKeepShutdown(s: State, s': State)
    requires ShutdownInv(s)
    requires s'.calls == s.calls && s'.sent == s.sent && s'.lock == s.lock && s'.handle == s.handle
    requires s'.abandoned == s.abandoned && (s.worker.Ended? ==> s'.worker.Ended?)
    ensures LockInv(s') && forall k :: 0 <= k < |s.calls| ==> CallOk(s', k)
  {
    forall k | 0 <= k < |s.calls|
      ensures CallOk(s', k)
    {
      assert CallOk(s, k);
    }
  }

  lemma ReceiveKeepsShutdown(s: State)
    requires ShutdownInv(s) && Enabled(s, Receive)
    ensures QueueInv(Do(s, Receive)) && LockInv(Do(s, Receive))
    ensures forall k :: 0 <= k < |s.calls| ==> CallOk(Do(s, Receive), k)
  {
    QueueAdvances(s.sent, |s.verdicts|);
    SameCallsKeepShutdown(s, Do(s, Receive));
  }

  lemma WorkerStepKeepsShutdown(s: State, st: Step)
    requires ShutdownInv(s) && Enabled(s, st)
    requires st.UploadEnds? || st.Stop?
    ensures QueueInv(Do(s, st)) && LockInv(Do(s, st))
    ensures forall k :: 0 <= k < |s.calls| ==> CallOk(Do(s, st), k)
  {
    SameCallsKeepShutdown(s, Do(s, st));
  }

  /** Whoever took the handle stays recognisable. */
  lemma StepKeepsTaker(s: State, st: Step)
    requires ShutdownInv(s) && Enabled(s, st) && !Do(s, st).handle
    requires st.SendShutdown? ==> ReceiverAlive(s)
    ensures exists t :: 0 <= t < |Do(s, st).calls| && Taker(Do(s, st).calls[t])
  {
    var s' := Do(s, st);
    if s.handle {
      assert CallOk(s, st.i);
      assert Taker(s'.calls[st.i]);
    } else {
      var t :| 0 <= t < |s.calls| && Taker(s.calls[t]);
      assert CallOk(s, t);
      assert Taker(s'.calls[t]);
    }
  }

  lemma StepKeepsShutdown(s: State, st: Step)
    requires ShutdownInv(s) && Enabled(s, st)
    ensures ShutdownInv(Do(s, st))
  {
    match st {
      case Send(i) => SendKeepsShutdown(s, i);
      case SendShutdown(i) => SendShutdownKeepsShutdown(s, i);
      case EndBatch(_) => OtherCallStepKeepsShutdown(s, st);
      case Lock(_) => OtherCallStepKeepsShutdown(s, st);
      case Join(_) => OtherCallStepKeepsShutdown(s, st);
      case Drop(_) => OtherCallStepKeepsShutdown(s, st);
      case NewCall(_, _) => EnvironmentKeepsShutdown(s, st);
      case Trip => EnvironmentKeepsShutdown(s, st);
      case Receive => ReceiveKeepsShutdown(s);
      case _ => WorkerStepKeepsShutdown(s, st);
    }
    if !Do(s, st).handle {
      StepKeepsTaker(s, st);
    }
  }

  lemma {:induction false} RunKeepsShutdown(s: State, steps: seq<Step>)
    requires ShutdownInv(s) && Valid(s, steps)
    ensures ShutdownInv(Exec(s, steps))
    decreases |steps|
  {
    if steps != [] {
      StepKeepsShutdown(s, steps[0]);
      RunKeepsShutdown(Do(s, steps[0]), steps[1..]);
    }
  }

  /** Over any number of concurrent, repeated or dropped calls: at most one shutdown message is sent, its send always
      finds the receiver alive, and every call that finishes the workflow returns only after the worker has ended, unless
      a call has been dropped while it was waiting for the worker. */
  lemma ShutdownProtocol(steps: seq<Step>)
    requires Valid(INIT, steps)
    ensures var s := Exec(INIT, steps);
            && OneShutdown(s.sent)
            && forall i :: 0 <= i < |s.calls| ==>
                 var c := s.calls[i];
                 && !c.phase.Panicked?
                 && (c.phase.Took? ==> ReceiverAlive(s))
                 && (c.finishes && c.phase == Returned(true) && !s.abandoned ==> s.worker.Ended?)
  {
    RunKeepsShutdown(INIT, steps);
    var s := Exec(INIT, steps);
    forall i | 0 <= i < |s.calls|
      ensures CallOk(s, i) && (s.calls[i].phase.Took? ==> ReceiverAlive(s))
    {
      assert CallOk(s, i);
    }
  }

  predicate ReturnsEarly(s: State, steps: seq<Step>) {
    Valid(s, steps) && var s' := Exec(s, steps);
    !s'.worker.Ended? && exists i :: 0 <= i < |s'.calls| && s'.calls[i].finishes && s'.calls[i].phase == Returned(true)
  }

  predicate NoDrops(steps: seq<Step>) { forall k :: 0 <= k < |steps| ==> !steps[k].Drop? }

  /** The exception is exact: while the worker has not ended, a call can still return early, without any further drop,
      exactly if a call has been dropped while it was waiting for the worker. */
  lemma EarlyReturnIsExact(before: seq<Step>)
    requires Valid(INIT, before) && !Exec(INIT, before).worker.Ended?
    ensures (exists after :: NoDrops(after) && ReturnsEarly(Exec(INIT, before), after)) <==> Exec(INIT, before).abandoned
  {
    RunKeepsShutdown(INIT, before);
    var s := Exec(INIT, before);
    if after :| NoDrops(after) && ReturnsEarly(s, after) {
      RunKeepsShutdown(s, after);
      NoDropsNoAbandon(s, after);
      var s' := Exec(s, after);
      var i :| 0 <= i < |s'.calls| && s'.calls[i].finishes && s'.calls[i].phase == Returned(true);
      assert CallOk(s', i);
    }
    if s.abandoned {
      var after := NextCallReturnsEarly(s);
    }
  }

  lemma {:induction false} NoDropsNoAbandon(s: State, steps: seq<Step>)
    requires Valid(s, steps) && NoDrops(steps)
    ensures Exec(s, steps).abandoned == s.abandoned
    decreases |steps|
  {
    if steps != [] {
      assert !steps[0].Drop?;
      assert forall k :: 0 <= k < |steps[1..]| ==> steps[1..][k] == steps[k + 1];
      NoDropsNoAbandon(Do(s, steps[0]), steps[1..]);
    }
  }

  /** A call with nothing to enqueue finds the lock free and the handle gone. */
  lemma NextCallReturnsEarly(s: State) returns (after: seq<Step>)
    requires ShutdownInv(s) && s.abandoned && !s.worker.Ended?
    ensures NoDrops(after) && ReturnsEarly(s, after)
    ensures Exec(s, after).worker == s.worker && Exec(s, after).verdicts == s.verdicts
  {
    var i := |s.calls|;
    after := [NewCall([], true), EndBatch(i), Lock(i)];
    var s1 := Do(s, NewCall([], true));
    var s2 := Do(s1, EndBatch(i));
    var s3 := Do(s2, Lock(i));
    assert after[1..] == [EndBatch(i), Lock(i)] && after[1..][1..] == [Lock(i)];
    assert Valid(s3, []) && Exec(s3, []) == s3;
    assert Valid(s2, [Lock(i)]) && Exec(s2, [Lock(i)]) == s3 by { assert [Lock(i)][1..] == []; }
    assert Valid(s1, after[1..]) && Exec(s1, after[1..]) == s3;
    assert Valid(s, after) && Exec(s, after) == s3;
    assert s3.calls[i].finishes && s3.calls[i].phase == Returned(true);
  }

  /** A run, and what it leads to one step further. */
  lemma {:induction false} Extend(s: State, steps: seq<Step>, st: Step) returns (longer: seq<Step>)
    requires Valid(s, steps) && Enabled(Exec(s, steps), st)
    ensures longer == steps + [st]
    ensures Valid(s, longer) && Exec(s, longer) == Do(Exec(s, steps), st)
    decreases |steps|
  {
    longer := steps + [st];
    if steps == [] {
      assert longer[1..] == [];
    } else {
      var rest := Extend(Do(s, steps[0]), steps[1..], st);
      assert longer[1..] == rest;
    }
  }

  lemma {:induction false} Append(s: State, steps: seq<Step>, more: seq<Step>)
    requires Valid(s, steps) && Valid(Exec(s, steps), more)
    ensures Valid(s, steps + more) && Exec(s, steps + more) == Exec(Exec(s, steps), more)
    decreases |steps|
  {
    if steps == [] {
      assert steps + more == more;
    } else {
      assert (steps + more)[1..] == steps[1..] + more;
      Append(Do(s, steps[0]), steps[1..], more);
    }
  }

  /** A shutdown has sent its message and waits; the worker has not received it. */
  const WAITING := INIT.(
    sent := [Shutdown], handle := false, lock := Some(0), calls := [Call([], true, 0, 0, Awaiting)])

  lemma ShutdownWaits() returns (steps: seq<Step>)
    ensures Valid(INIT, steps) && Exec(INIT, steps) == WAITING
  {
    steps := Extend(INIT, [], NewCall([], true));
    steps := Extend(INIT, steps, EndBatch(0));
    steps := Extend(INIT, steps, Lock(0));
    steps := Extend(INIT, steps, SendShutdown(0));
  }

  /** The early return happens: the client of a waiting shutdown goes away, and the next shutdown returns Ok while the
      worker still has everything to do. */
  lemma DropLetsNextReturnEarly() returns (steps: seq<Step>)
    ensures ReturnsEarly(INIT, steps)
    ensures Exec(INIT, steps).worker.Receiving? && Exec(INIT, steps).verdicts == []
  {
    var waits := ShutdownWaits();
    var dropped := Extend(INIT, waits, Drop(0));
    RunKeepsShutdown(INIT, dropped);
    var after := NextCallReturnsEarly(Exec(INIT, dropped));
    Append(INIT, dropped, after);
    steps := dropped + after;
  }

  // ----- the drain -----

  /** How many requests the worker has received, the shutdown message not counted. */
  function Handled(s: State): nat {
    if WorkerStopped(s) && |s.verdicts| > 0 then |s.verdicts| - 1 else |s.verdicts|
  }

  function FreshVerdict(rs: seq<Request>, m: nat): Verdict
    requires m < |rs| && rs[m].Upload?
  {
    if rs[m] in rs[..m] then Duplicate else Attempted
  }

  lemma InPathsOf(rs: seq<Request>, p: Path)
    ensures p in PathsOf(rs) <==> Upload(p) in rs
  {
    assert Upload(p).path == p;
  }

  /** The first k requests were all looked at, each new path exactly once; all later ones were skipped. */
  predicate DrainedTo(s: State, k: nat)
    requires |s.verdicts| <= |s.sent|
  {
    && k <= Handled(s)
    && s.done == PathsOf(s.sent[..k])
    && (forall m :: 0 <= m < k ==> s.sent[m].Upload? && s.verdicts[m] == FreshVerdict(s.sent, m))
    && (forall m :: k <= m < Handled(s) ==> s.sent[m].Upload? && s.verdicts[m] == SkippedTripped)
    && (k < Handled(s) ==> s.tripped)
  }

  lemma CallStepKeepsWorker(s: State, st: Step)
    requires Enabled(s, st) && !st.Receive? && !st.UploadEnds? && !st.Stop?
    ensures var s' := Do(s, st);
            && s.sent <= s'.sent && s'.verdicts == s.verdicts && s'.done == s.done && s'.worker == s.worker
            && (s.tripped ==> s'.tripped)
  {
  }

  /** All but Receive leave the worker's record alone. */
  lemma OtherStepKeepsDone(s: State, st: Step)
    requires Enabled(s, st) && !st.Receive?
    ensures var s' := Do(s, st);
            && s.sent <= s'.sent && s'.verdicts == s.verdicts && s'.done == s.done
            && (s.tripped ==> s'.tripped) && WorkerStopped(s') == WorkerStopped(s)
  {
    if !st.UploadEnds? && !st.Stop? {
      CallStepKeepsWorker(s, st);
    }
  }

  lemma MoreSentKeepsDrain(s: State, s': State, k: nat)
    requires |s.verdicts| <= |s.sent| && DrainedTo(s, k)
    requires s.sent <= s'.sent && s'.verdicts == s.verdicts && s'.done == s.done
    requires (s.tripped ==> s'.tripped) && WorkerStopped(s') == WorkerStopped(s)
    ensures DrainedTo(s', k)
  {
    assert s'.sent[..k] == s.sent[..k];
    forall m | 0 <= m < k
      ensures s'.sent[m].Upload? && s'.verdicts[m] == FreshVerdict(s'.sent, m)
    {
      assert s'.sent[..m] == s.sent[..m];
    }
  }

  /** The shutdown message, or a request skipped because of the trip. */
  lemma PassOverKeepsDrain(s: State, k: nat)
    requires QueueInv(s) && DrainedTo(s, k) && Enabled(s, Receive)
    requires s.sent[|s.verdicts|].Shutdown? || s.tripped
    ensures |Do(s, Receive).verdicts| <= |s.sent| && DrainedTo(Do(s, Receive), k)
  {
    var s' := Do(s, Receive);
    assert s'.sent == s.sent && s'.done == s.done;
    assert forall m :: 0 <= m < |s.verdicts| ==> s'.verdicts[m] == s.verdicts[m];
  }

  lemma TakeOnExtendsDone(s: State)
    requires Enabled(s, Receive) && s.sent[|s.verdicts|].Upload? && !s.tripped
    requires s.done == PathsOf(s.sent[..|s.verdicts|])
    ensures var n, s' := |s.verdicts|, Do(s, Receive);
            && s'.sent == s.sent && s'.done == PathsOf(s.sent[..n + 1])
            && s'.verdicts == s.verdicts + [FreshVerdict(s.sent, n)]
  {
    var n := |s.verdicts|;
    assert s.sent[..n + 1] == s.sent[..n] + [s.sent[n]];
    PathsOfSnoc(s.sent[..n], s.sent[n]);
    InPathsOf(s.sent[..n], s.sent[n].path);
  }

  lemma TakeOnKeepsDrain(s: State, k: nat)
    requires QueueInv(s) && DrainedTo(s, k) && Enabled(s, Receive)
    requires s.sent[|s.verdicts|].Upload? && !s.tripped
    ensures |Do(s, Receive).verdicts| <= |s.sent| && DrainedTo(Do(s, Receive), |s.verdicts| + 1)
  {
    var n := |s.verdicts|;
    var s' := Do(s, Receive);
    assert k == n;
    TakeOnExtendsDone(s);
    assert forall m :: 0 <= m < n ==> s'.verdicts[m] == s.verdicts[m];
  }

  lemma ReceiveKeepsDrain(s: State, k: nat) returns (k': nat)
    requires QueueInv(s) && DrainedTo(s, k) && Enabled(s, Receive)
    ensures |Do(s, Receive).verdicts| <= |s.sent| && DrainedTo(Do(s, Receive), k')
  {
    if s.sent[|s.verdicts|].Upload? && !s.tripped {
      TakeOnKeepsDrain(s, k);
      k' := |s.verdicts| + 1;
    } else {
      PassOverKeepsDrain(s, k);
      k' := k;
    }
  }

  lemma StepKeepsDrain(s: State, st: Step, k: nat) returns (k': nat)
    requires QueueInv(s) && DrainedTo(s, k) && Enabled(s, st)
    ensures |Do(s, st).verdicts| <= |Do(s, st).sent| && DrainedTo(Do(s, st), k')
  {
    if st.Receive? {
      k' := ReceiveKeepsDrain(s, k);
    } else {
      OtherStepKeepsDone(s, st);
      MoreSentKeepsDrain(s, Do(s, st), k);
      k' := k;
    }
  }

  lemma {:induction false} RunKeepsDrain(s: State, steps: seq<Step>, k: nat) returns (k': nat)
    requires ShutdownInv(s) && DrainedTo(s, k) && Valid(s, steps)
    ensures ShutdownInv(Exec(s, steps)) && DrainedTo(Exec(s, steps), k')
    decreases |steps|
  {
    if steps == [] {
      k' := k;
    } else {
      k' := StepKeepsDrain(s, steps[0], k);
      StepKeepsShutdown(s, steps[0]);
      k' := RunKeepsDrain(Do(s, steps[0]), steps[1..], k');
    }
  }

  /** When the worker has ended it stopped at the one shutdown message, having received every request ahead of it, and
      there is a k such that `done` is the set of the first k paths, each attempted at its first occurrence and at no
      other, and every later request was skipped because the breaker had tripped. */
  lemma DrainIsExact(steps: seq<Step>) returns (k: nat)
    requires Valid(INIT, steps) && Exec(INIT, steps).worker.Ended?
    ensures var s := Exec(INIT, steps);
            && 0 < |s.verdicts| <= |s.sent| && s.sent[|s.verdicts| - 1] == Shutdown
            && Handled(s) == |s.verdicts| - 1
            && DrainedTo(s, k)
  {
    assert INIT.sent[..0] == [];
    k := RunKeepsDrain(INIT, steps, 0);
  }
}
