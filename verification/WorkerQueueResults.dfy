/** What a finished workflow has uploaded, and why it always finishes. */
module WorkerQueueResults {
  import opened Common
  import opened WorkerQueue
  import opened WorkerQueueProofs

  // ----- what was uploaded -----

  /** The requests ahead of the first shutdown message. */
  function Ahead(rs: seq<Request>): (r: seq<Request>)
    ensures r <= rs && Shutdown !in r
    ensures Shutdown !in rs ==> r == rs
    ensures |r| < |rs| ==> rs[|r|] == Shutdown
  {
    if rs == [] || rs[0] == Shutdown then [] else [rs[0]] + Ahead(rs[1..])
  }

  lemma {:induction false} AheadSnoc(rs: seq<Request>, r: Request)
    ensures Ahead(rs + [r]) == if Shutdown in rs || r == Shutdown then Ahead(rs) else rs + [r]
  {
    if rs == [] {
    } else {
      assert (rs + [r])[1..] == rs[1..] + [r];
      if rs[0] != Shutdown {
        AheadSnoc(rs[1..], r);
      }
    }
  }

  predicate SentInTime(calls: seq<Call>, p: Path) {
    exists i :: 0 <= i < |calls| && calls[i].inTime <= |calls[i].batch| && p in calls[i].batch[..calls[i].inTime]
  }

  ghost predicate SentOk(sent: seq<Request>, calls: seq<Call>) {
    forall p :: Upload(p) in Ahead(sent) <==> SentInTime(calls, p)
  }

  /** While nothing has failed, everything in `done` but the path under way has been uploaded. */
  predicate UploadedOk(worker: WorkerPhase, done: set<Path>, uploaded: set<Path>, anyFailed: bool) {
    && (worker.Uploading? ==> worker.path in done)
    && (!anyFailed ==> uploaded == if worker.Uploading? then done - {worker.path} else done)
  }

  ghost predicate OriginInv(s: State) {
    && SentOk(s.sent, s.calls)
    && UploadedOk(s.worker, s.done, s.uploaded, s.anyFailed)
  }

  lemma SameInTime(calls: seq<Call>, calls': seq<Call>)
    requires |calls| <= |calls'|
    requires forall i :: 0 <= i < |calls| ==> calls'[i].batch == calls[i].batch && calls'[i].inTime == calls[i].inTime
    requires forall i :: |calls| <= i < |calls'| ==> calls'[i].inTime == 0
    ensures forall p :: SentInTime(calls', p) <==> SentInTime(calls, p)
  {
    forall p
      ensures SentInTime(calls', p) <==> SentInTime(calls, p)
    {
      if i :| 0 <= i < |calls| && calls[i].inTime <= |calls[i].batch| && p in calls[i].batch[..calls[i].inTime] {
        assert p in calls'[i].batch[..calls'[i].inTime];
      }
      if i :| 0 <= i < |calls'| && calls'[i].inTime <= |calls'[i].batch| && p in calls'[i].batch[..calls'[i].inTime] {
        assert i < |calls|;
      }
    }
  }

  lemma OneMoreInTime(calls: seq<Call>, i: nat, c': Call)
    requires i < |calls| && calls[i].inTime < |calls[i].batch|
    requires c'.batch == calls[i].batch && c'.inTime == calls[i].inTime + 1
    ensures forall p :: SentInTime(calls[i := c'], p) <==> SentInTime(calls, p) || p == calls[i].batch[calls[i].inTime]
  {
    var c, calls' := calls[i], calls[i := c'];
    assert c.batch[..c.inTime + 1] == c.batch[..c.inTime] + [c.batch[c.inTime]];
    forall p
      ensures SentInTime(calls', p) <==> SentInTime(calls, p) || p == c.batch[c.inTime]
    {
      if k :| 0 <= k < |calls| && calls[k].inTime <= |calls[k].batch| && p in calls[k].batch[..calls[k].inTime] {
        assert p in calls'[k].batch[..calls'[k].inTime];
      }
      if p == c.batch[c.inTime] {
        assert p in calls'[i].batch[..calls'[i].inTime];
      }
      if k :| 0 <= k < |calls'| && calls'[k].inTime <= |calls'[k].batch| && p in calls'[k].batch[..calls'[k].inTime] {
        assert k != i ==> calls[k] == calls'[k];
      }
    }
  }

  lemma SendKeepsOrigin(s: State, i: nat)
    requires ShutdownInv(s) && OriginInv(s) && Enabled(s, Send(i)) && ReceiverAlive(s)
    ensures OriginInv(Do(s, Send(i)))
  {
    var s', c := Do(s, Send(i)), s.calls[i];
    assert CallOk(s, i);
    AheadSnoc(s.sent, Upload(c.batch[c.next]));
    if Shutdown in s.sent {
      SameInTime(s.calls, s'.calls);
    } else {
      OneMoreInTime(s.calls, i, s'.calls[i]);
    }
  }

  lemma CallStepKeepsOrigin(s: State, st: Step)
    requires ShutdownInv(s) && OriginInv(s) && Enabled(s, st)
    requires st.NewCall? || st.Trip? || st.EndBatch? || st.Lock? || st.Join? || st.Drop? || st.SendShutdown?
             || (st.Send? && !ReceiverAlive(s))
    ensures OriginInv(Do(s, st))
  {
    SameInTime(s.calls, Do(s, st).calls);
    AheadSnoc(s.sent, Shutdown);
  }

  lemma WorkerStepKeepsUploaded(s: State, st: Step)
    requires UploadedOk(s.worker, s.done, s.uploaded, s.anyFailed) && Enabled(s, st)
    requires st.Receive? || st.UploadEnds? || st.Stop?
    ensures var s' := Do(s, st);
            && s'.sent == s.sent && s'.calls == s.calls
            && UploadedOk(s'.worker, s'.done, s'.uploaded, s'.anyFailed)
  {
  }

  lemma StepKeepsOrigin(s: State, st: Step)
    requires ShutdownInv(s) && OriginInv(s) && Enabled(s, st)
    ensures OriginInv(Do(s, st))
  {
    if st.Send? && ReceiverAlive(s) {
      SendKeepsOrigin(s, st.i);
    } else if st.Receive? || st.UploadEnds? || st.Stop? {
      WorkerStepKeepsUploaded(s, st);
    } else {
      CallStepKeepsOrigin(s, st);
    }
  }

  lemma {:induction false} RunKeepsOrigin(s: State, steps: seq<Step>)
    requires ShutdownInv(s) && OriginInv(s) && Valid(s, steps)
    ensures OriginInv(Exec(s, steps))
    decreases |steps|
  {
    if steps != [] {
      StepKeepsOrigin(s, steps[0]);
      StepKeepsShutdown(s, steps[0]);
      RunKeepsOrigin(Do(s, steps[0]), steps[1..]);
    }
  }

  lemma AheadIsPrefix(rs: seq<Request>, n: nat)
    requires n < |rs| && rs[n] == Shutdown && forall m :: 0 <= m < n ==> rs[m].Upload?
    ensures Ahead(rs) == rs[..n]
  {
    var a := Ahead(rs);
    assert forall m :: 0 <= m < |a| ==> a[m] == rs[m] != Shutdown;
  }

  /** If the worker has ended, no upload failed and the breaker never tripped, the uploaded paths are exactly those that
      calls sent ahead of the shutdown message. */
  lemma UploadedIsWhatWasSentInTime(steps: seq<Step>)
    requires Valid(INIT, steps)
    requires var s := Exec(INIT, steps); s.worker.Ended? && !s.tripped && !s.anyFailed
    ensures var s := Exec(INIT, steps); forall p :: p in s.uploaded <==> SentInTime(s.calls, p)
  {
    var s := Exec(INIT, steps);
    RunKeepsShutdown(INIT, steps);
    RunKeepsOrigin(INIT, steps);
    var k := DrainIsExact(steps);
    var n := |s.verdicts| - 1;
    assert k == n;
    AheadIsPrefix(s.sent, n);
    forall p
      ensures p in s.uploaded <==> SentInTime(s.calls, p)
    {
      InPathsOf(s.sent[..n], p);
    }
  }

  // ----- causes -----

  predicate WasRefused(s: State, i: nat) { InPhase(s, i, Returned(false)) }

  predicate RefusedIn(s: State, steps: seq<Step>, i: nat)
    requires Valid(s, steps)
    decreases |steps|
  {
    steps != []
    && ((steps[0] == Send(i) && s.worker.Ended?) || RefusedIn(Do(s, steps[0]), steps[1..], i))
  }

  lemma StepRefuses(s: State, st: Step, i: nat)
    requires Enabled(s, st)
    ensures WasRefused(Do(s, st), i) <==> WasRefused(s, i) || (st == Send(i) && s.worker.Ended?)
  {
  }

  /** A call returns an error exactly if it has something to send when the worker has ended. */
  lemma {:induction false} RefusalHasItsCause(s: State, steps: seq<Step>, i: nat)
    requires Valid(s, steps)
    ensures WasRefused(Exec(s, steps), i) <==> WasRefused(s, i) || RefusedIn(s, steps, i)
    decreases |steps|
  {
    if steps != [] {
      StepRefuses(s, steps[0], i);
      RefusalHasItsCause(Do(s, steps[0]), steps[1..], i);
    }
  }

  predicate UploadedIn(s: State, steps: seq<Step>, p: Path)
    requires Valid(s, steps)
    decreases |steps|
  {
    steps != []
    && ((steps[0] == UploadEnds(true) && s.worker == Uploading(p)) || UploadedIn(Do(s, steps[0]), steps[1..], p))
  }

  lemma StepUploads(s: State, st: Step, p: Path)
    requires Enabled(s, st)
    ensures p in Do(s, st).uploaded <==> p in s.uploaded || (st == UploadEnds(true) && s.worker == Uploading(p))
  {
  }

  lemma StepFails(s: State, st: Step)
    requires Enabled(s, st)
    ensures Do(s, st).anyFailed <==> s.anyFailed || st == UploadEnds(false)
  {
  }

  lemma StepTrips(s: State, st: Step)
    requires Enabled(s, st)
    ensures Do(s, st).tripped <==> s.tripped || st == Trip
  {
  }

  /** A path is uploaded exactly if its upload ended well, some upload has failed exactly if one ended badly, and the
      breaker is tripped exactly if something tripped it. */
  lemma {:induction false} UploadsHaveTheirCause(s: State, steps: seq<Step>, p: Path)
    requires Valid(s, steps)
    ensures p in Exec(s, steps).uploaded <==> p in s.uploaded || UploadedIn(s, steps, p)
    ensures Exec(s, steps).anyFailed <==> s.anyFailed || UploadEnds(false) in steps
    ensures Exec(s, steps).tripped <==> s.tripped || Trip in steps
    decreases |steps|
  {
    if steps != [] {
      StepUploads(s, steps[0], p);
      StepFails(s, steps[0]);
      StepTrips(s, steps[0]);
      UploadsHaveTheirCause(Do(s, steps[0]), steps[1..], p);
    }
  }

  /** An upload may end either way, the breaker may trip at any moment, and a call that waits may be dropped. */
  lemma AnythingMayFail(s: State, i: nat, ok: bool)
    ensures s.worker.Uploading? ==> Enabled(s, UploadEnds(ok))
    ensures !s.tripped ==> Enabled(s, Trip)
    ensures InPhase(s, i, WantLock) || InPhase(s, i, Awaiting) ==> Enabled(s, Drop(i))
  {
  }

  // ----- acknowledged calls -----

  /** A call whose paths have all been sent: workflow_finish once it returns Ok, and an enqueue call from its
      acknowledgement on. It is complete, with all its paths uploaded, exactly if those it sent behind the shutdown
      message were sent ahead of it by others; in particular if it sent none behind. */
  lemma AcknowledgedIsComplete(steps: seq<Step>, i: nat)
    requires Valid(INIT, steps)
    requires var s := Exec(INIT, steps); s.worker.Ended? && !s.tripped && !s.anyFailed
    requires i < |Exec(INIT, steps).calls| && Exec(INIT, steps).calls[i].phase == Returned(true)
    ensures var s := Exec(INIT, steps); var c := s.calls[i];
            && c.inTime <= |c.batch|
            && ((forall p :: p in c.batch ==> p in s.uploaded)
                <==> forall p :: p in c.batch[c.inTime..] ==> SentInTime(s.calls, p))
  {
    RunKeepsShutdown(INIT, steps);
    UploadedIsWhatWasSentInTime(steps);
    var s := Exec(INIT, steps);
    var c := s.calls[i];
    assert CallOk(s, i);
    assert c.batch == c.batch[..c.inTime] + c.batch[c.inTime..];
    forall p | p in c.batch[..c.inTime]
      ensures SentInTime(s.calls, p)
    {
    }
  }

  lemma ReturnedStaysInStep(s: State, st: Step, i: nat)
    requires Enabled(s, st) && i < |s.calls| && s.calls[i].phase.Returned?
    ensures i < |Do(s, st).calls| && Do(s, st).calls[i] == s.calls[i]
  {
    if st.Send? || st.EndBatch? || st.Lock? || st.SendShutdown? || st.Join? || st.Drop? {
      assert st.i != i;
    }
  }

  lemma {:induction false} ReturnedStays(s: State, steps: seq<Step>, i: nat)
    requires Valid(s, steps) && i < |s.calls| && s.calls[i].phase.Returned?
    ensures i < |Exec(s, steps).calls| && Exec(s, steps).calls[i] == s.calls[i]
    decreases |steps|
  {
    if steps != [] {
      ReturnedStaysInStep(s, steps[0], i);
      ReturnedStays(Do(s, steps[0]), steps[1..], i);
    }
  }

  /** What a caller can rely on: an enqueue call that has been acknowledged before any shutdown message is sent will be
      complete when the worker has ended, in every continuation without a failed upload or a trip. */
  lemma AcknowledgedBeforeShutdown(before: seq<Step>, after: seq<Step>, i: nat)
    requires Valid(INIT, before) && Valid(Exec(INIT, before), after) && !Shut(Exec(INIT, before))
    requires i < |Exec(INIT, before).calls| && Exec(INIT, before).calls[i].phase == Returned(true)
    requires var s := Exec(Exec(INIT, before), after); s.worker.Ended? && !s.tripped && !s.anyFailed
    ensures var s := Exec(Exec(INIT, before), after);
            forall p :: p in Exec(INIT, before).calls[i].batch ==> p in s.uploaded
  {
    RunKeepsShutdown(INIT, before);
    assert CallOk(Exec(INIT, before), i);
    ReturnedStays(Exec(INIT, before), after, i);
    Append(INIT, before, after);
    AcknowledgedIsComplete(before + after, i);
  }

  /** The path of call 1 lies in the channel behind the shutdown message of call 0. */
  const TOO_LATE := WAITING.(
    sent := [Shutdown, Upload("p")],
    calls := [Call([], true, 0, 0, Awaiting), Call(["p"], false, 1, 0, Returned(true))])

  lemma EnqueuesTooLate() returns (steps: seq<Step>)
    ensures Valid(INIT, steps) && Exec(INIT, steps) == TOO_LATE
  {
    steps := ShutdownWaits();
    steps := Extend(INIT, steps, NewCall(["p"], false));
    steps := Extend(INIT, steps, Send(1));
    steps := Extend(INIT, steps, EndBatch(1));
  }

  /** Nothing fails, trips or is dropped, all calls return Ok, and a path that one of them enqueued is never handled. */
  lemma AcknowledgedPathIsLost() returns (steps: seq<Step>)
    ensures Valid(INIT, steps)
    ensures var s := Exec(INIT, steps);
            && s.worker.Ended? && !s.tripped && !s.anyFailed && !s.abandoned
            && s.calls == [Call([], true, 0, 0, Returned(true)), Call(["p"], false, 1, 0, Returned(true))]
            && "p" !in s.done
  {
    steps := EnqueuesTooLate();
    steps := Extend(INIT, steps, Receive);
    steps := Extend(INIT, steps, Stop);
    steps := Extend(INIT, steps, Join(0));
  }

  // ----- closure under references -----

  predicate BatchClosed(refs: Path -> set<Path>, batch: seq<Path>) {
    forall p, q :: p in batch && q in refs(p) ==> q in batch
  }

  predicate SetClosed(refs: Path -> set<Path>, paths: set<Path>) {
    forall p, q :: p in paths && q in refs(p) ==> q in paths
  }

  predicate AllOrNothing(c: Call) { c.inTime == 0 || c.inTime == |c.batch| }

  /** Reference closure: after the only workflow_finish has returned, with no failed upload, no trip and no call dropped
      while waiting for the worker, everything in its batch is uploaded. If moreover every call's batch is closed under
      references, and each call had sent all or nothing by the shutdown message, then so is the set of uploaded paths. */
  lemma FinishedWorkflowIsClosed(steps: seq<Step>, i: nat, refs: Path -> set<Path>)
    requires Valid(INIT, steps)
    requires var s := Exec(INIT, steps); !s.tripped && !s.anyFailed && !s.abandoned
    requires i < |Exec(INIT, steps).calls|
    requires var s := Exec(INIT, steps); s.calls[i].finishes && s.calls[i].phase == Returned(true)
    requires var s := Exec(INIT, steps); forall k :: 0 <= k < |s.calls| && s.calls[k].finishes ==> k == i
    ensures var s := Exec(INIT, steps); s.worker.Ended? && forall p :: p in s.calls[i].batch ==> p in s.uploaded
    ensures var s := Exec(INIT, steps);
            (forall k :: 0 <= k < |s.calls| ==> BatchClosed(refs, s.calls[k].batch) && AllOrNothing(s.calls[k]))
            ==> SetClosed(refs, s.uploaded)
  {
    var s := Exec(INIT, steps);
    RunKeepsShutdown(INIT, steps);
    assert CallOk(s, i);
    assert !s.handle;
    var t :| 0 <= t < |s.calls| && Taker(s.calls[t]);
    assert s.calls[i].batch[..s.calls[i].inTime] == s.calls[i].batch;
    UploadedIsWhatWasSentInTime(steps);
    forall p | p in s.calls[i].batch
      ensures p in s.uploaded
    {
      assert SentInTime(s.calls, p);
    }
    if forall k :: 0 <= k < |s.calls| ==> BatchClosed(refs, s.calls[k].batch) && AllOrNothing(s.calls[k]) {
      forall p, q | p in s.uploaded && q in refs(p)
        ensures q in s.uploaded
      {
        var k :| 0 <= k < |s.calls| && s.calls[k].inTime <= |s.calls[k].batch| && p in s.calls[k].batch[..s.calls[k].inTime];
        assert AllOrNothing(s.calls[k]) && s.calls[k].batch[..s.calls[k].inTime] == s.calls[k].batch;
        assert q in s.calls[k].batch;
        assert SentInTime(s.calls, q);
      }
    }
  }

  // ----- progress -----

  predicate CallReturned(c: Call) { c.phase.Returned? || c.phase.Dropped? }

  /** A call that has not returned never leaves the system stuck. */
  lemma UnreturnedIsNeverStuck(s: State, i: nat) returns (st: Step)
    requires ShutdownInv(s) && i < |s.calls| && !CallReturned(s.calls[i])
    ensures Enabled(s, st) && !st.NewCall? && !st.Trip? && !st.Drop?
  {
    assert CallOk(s, i);
    match s.calls[i].phase
    case Sending => st := if s.calls[i].next < |s.calls[i].batch| then Send(i) else EndBatch(i);
    case WantLock =>
      if s.lock.None? {
        st := Lock(i);
      } else {
        st := HolderIsNeverStuck(s, s.lock.value);
      }
    case Took => st := HolderIsNeverStuck(s, i);
    case Awaiting => st := HolderIsNeverStuck(s, i);
  }

  lemma HolderIsNeverStuck(s: State, i: nat) returns (st: Step)
    requires ShutdownInv(s) && i < |s.calls| && HoldsLock(s.calls[i].phase)
    ensures Enabled(s, st) && !st.NewCall? && !st.Trip? && !st.Drop?
  {
    assert CallOk(s, i);
    if s.calls[i].phase.Took? {
      st := SendShutdown(i);
    } else {
      match s.worker {
        case Ended => st := Join(i);
        case Stopping => st := Stop;
        case Uploading(_) => st := UploadEnds(true);
        case Receiving =>
          // the shutdown message is still in the channel
          var m :| 0 <= m < |s.sent| && s.sent[m] == Shutdown;
          assert m >= |s.verdicts|;
          st := Receive;
      }
    }
  }

  function CallWork(c: Call): nat {
    match c.phase
    case Sending => 8 + if c.next <= |c.batch| then 4 * (|c.batch| - c.next) else 0
    case WantLock => 7
    case Took => 6
    case Awaiting => 2
    case Returned(_) => 0
    case Panicked => 0
    case Dropped => 0
  }

  function WorkerWork(w: WorkerPhase): nat {
    match w
    case Receiving => 2
    case Uploading(_) => 4
    case Stopping => 1
    case Ended => 0
  }

  function Work(s: State): int {
    3 * (|s.sent| - |s.verdicts|) + WorkerWork(s.worker) + Sum(CallWork, s.calls) + if s.tripped then 0 else 1
  }

  lemma CallStepDecreasesWork(s: State, st: Step)
    requires ShutdownInv(s) && Enabled(s, st)
    requires st.Send? || st.EndBatch? || st.Lock? || st.SendShutdown? || st.Join? || st.Drop?
    ensures Work(Do(s, st)) < Work(s)
  {
    var s' := Do(s, st);
    assert CallOk(s, st.i);
    assert s'.calls == s.calls[st.i := s'.calls[st.i]];
    SumUpdate(CallWork, s.calls, st.i, s'.calls[st.i]);
    assert s'.verdicts == s.verdicts && s'.worker == s.worker && s'.tripped == s.tripped;
  }

  lemma StepDecreasesWork(s: State, st: Step)
    requires ShutdownInv(s) && Enabled(s, st) && !st.NewCall?
    ensures Work(Do(s, st)) < Work(s)
  {
    if !(st.Trip? || st.Receive? || st.UploadEnds? || st.Stop?) {
      CallStepDecreasesWork(s, st);
    }
  }

  lemma {:induction false} RunsAreBounded(s: State, steps: seq<Step>)
    requires ShutdownInv(s) && Valid(s, steps)
    requires forall k :: 0 <= k < |steps| ==> !steps[k].NewCall?
    ensures ShutdownInv(Exec(s, steps))
    ensures |steps| + Work(Exec(s, steps)) <= Work(s)
    decreases |steps|
  {
    if steps != [] {
      StepDecreasesWork(s, steps[0]);
      StepKeepsShutdown(s, steps[0]);
      RunsAreBounded(Do(s, steps[0]), steps[1..]);
    }
  }

  ghost predicate Quiescent(s: State) {
    forall st: Step :: Enabled(s, st) ==> st.NewCall? || st.Trip? || st.Drop?
  }

  /** With no new calls every continuation of a run is bounded, and one that cannot be continued has returned from every
      call: neither enqueueing nor shutdown ever hangs. */
  lemma AllCallsReturn(before: seq<Step>, after: seq<Step>)
    requires Valid(INIT, before) && Valid(Exec(INIT, before), after)
    requires forall k :: 0 <= k < |after| ==> !after[k].NewCall?
    ensures |after| <= Work(Exec(INIT, before))
    ensures var s := Exec(Exec(INIT, before), after);
            Quiescent(s) ==> forall i :: 0 <= i < |s.calls| ==> CallReturned(s.calls[i])
  {
    RunKeepsShutdown(INIT, before);
    RunsAreBounded(Exec(INIT, before), after);
    var s := Exec(Exec(INIT, before), after);
    if Quiescent(s) {
      forall i | 0 <= i < |s.calls|
        ensures CallReturned(s.calls[i])
      {
        if !CallReturned(s.calls[i]) {
          var _ := UnreturnedIsNeverStuck(s, i);
        }
      }
    }
  }
}
