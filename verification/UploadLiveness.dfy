/** Resource accounting, progress and breaker gating of the V1 upload engine. */
module UploadLiveness {
  import opened Common
  import opened UploadEngine
  import opened UploadSafety

  // ----- permits -----

  function Holds(t: Task): nat { if t.phase.InFlight? then 1 else 0 }

  function HeldBy(u: Upload): nat { Sum(Holds, u.tasks) }

  predicate PermitsBalance(s: State) {
    s.permits + Sum(HeldBy, s.uploads) == MAX_CONCURRENCY
  }

  lemma OwnHolds(u: Upload, tripped: bool, a: OwnAct)
    ensures HeldBy(OwnDo(u, tripped, a)) == HeldBy(u)
  {
    if a.Cut? && u.phase.Reading? && u.phase.buf != [] {
      SumAppend(Holds, u.tasks, Task(u.offset, u.phase.buf, false, Waiting));
    }
  }

  lemma StepKeepsPermits(s: State, st: Step)
    requires PermitsBalance(s) && Enabled(s, st)
    ensures PermitsBalance(Do(s, st))
  {
    match st
    case Begin(data) =>
      SumAppend(HeldBy, s.uploads, Upload(data, 0, [], Entering, None));
    case Own(i, a) =>
      OwnHolds(s.uploads[i], s.tripped, a);
      SumUpdate(HeldBy, s.uploads, i, OwnDo(s.uploads[i], s.tripped, a));
    case OnTask(i, k, a) =>
      var u := s.uploads[i];
      SumUpdate(Holds, u.tasks, k, TaskDo(u.tasks[k], a));
      SumUpdate(HeldBy, s.uploads, i, u.(tasks := u.tasks[k := TaskDo(u.tasks[k], a)]));
  }

  /** In every reachable state, over all simultaneous uploads with their detached and failing tasks, free permits plus
      PATCHes in flight is exactly the concurrency limit. */
  lemma PermitsAreConserved(steps: seq<Step>)
    requires Valid(INIT, steps)
    ensures PermitsBalance(Exec(INIT, steps))
    ensures Exec(INIT, steps).permits + Sum(HeldBy, Exec(INIT, steps).uploads) == 4
  {
    RunKeepsPermits(INIT, steps);
  }

  lemma {:induction false} RunKeepsPermits(s: State, steps: seq<Step>)
    requires PermitsBalance(s) && Valid(s, steps)
    ensures PermitsBalance(Exec(s, steps))
    decreases |steps|
  {
    if steps != [] {
      StepKeepsPermits(s, steps[0]);
      RunKeepsPermits(Do(s, steps[0]), steps[1..]);
    }
  }

  // ----- progress -----

  predicate CallDone(u: Upload) {
    && u.phase.Returned?
    && forall k :: 0 <= k < |u.tasks| ==> u.tasks[k].phase.Finished?
  }

  predicate TaskStepReady(s: State, st: Step) {
    Enabled(s, st) && st.OnTask? && !st.taskAct.Arrive?
  }

  /** A waiting task never blocks the system: it can take a permit, or a permit holder can be answered. */
  lemma WaitingIsNeverStuck(s: State, i: nat, k: nat) returns (st: Step)
    requires Inv(s) && PermitsBalance(s)
    requires i < |s.uploads| && k < |s.uploads[i].tasks| && s.uploads[i].tasks[k].phase.Waiting?
    ensures TaskStepReady(s, st)
  {
    if s.permits > 0 {
      st := OnTask(i, k, Acquire);
    } else {
      var j := SumPositive(HeldBy, s.uploads);
      var m := SumPositive(Holds, s.uploads[j].tasks);
      st := OnTask(j, m, Answer(OtherError));
    }
  }

  /** Any call that is not done, or has an unfinished task, leaves some step enabled that is not a late arrival. */
  lemma UnfinishedIsNeverStuck(steps: seq<Step>, i: nat) returns (st: Step)
    requires Valid(INIT, steps)
    requires i < |Exec(INIT, steps).uploads| && !CallDone(Exec(INIT, steps).uploads[i])
    ensures Enabled(Exec(INIT, steps), st) && !st.Begin?
  {
    var s := Exec(INIT, steps);
    RunKeepsInv(INIT, steps);
    PermitsAreConserved(steps);
    var u := s.uploads[i];
    assert UploadInv(u, s.server[i]);
    if k :| 0 <= k < |u.tasks| && !u.tasks[k].phase.Finished? {
      match u.tasks[k].phase {
        case Waiting => st := WaitingIsNeverStuck(s, i, k);
        case InFlight => st := OnTask(i, k, Answer(OtherError));
        case Checking(_) => st := OnTask(i, k, Check);
      }
    } else {
      match u.phase {
        case Entering => st := Own(i, Enter);
        case Reading(buf) =>
          if |buf| == CHUNK_SIZE || u.offset + |buf| == |u.stream| {
            st := Own(i, Cut);
          } else {
            st := Own(i, Read(1));
          }
        case Joining => st := Own(i, Join);
        case Committing => st := Own(i, CommitSendError);
      }
    }
  }

  // ----- termination -----

  function TaskWork(t: Task): nat {
    (if t.arrived then 0 else 1) +
    match t.phase
    case Waiting => 3
    case InFlight => 2
    case Checking(_) => 1
    case Finished(_) => 0
  }

  function PhaseWork(u: Upload): nat {
    match u.phase
    case Entering => 5
    case Reading(_) => 4
    case Joining => 3
    case Committing => 2
    case Returned(_) => 0
  }

  /** Each unread byte counts for six, each byte in the buffer for five, more than any chunk task can use up. */
  function BytesWork(u: Upload): int {
    match u.phase
    case Entering => 6 * |u.stream|
    case Reading(buf) => 6 * (|u.stream| - u.offset) - |buf|
    case _ => 0
  }

  function EntryWork(e: Entry): nat { if e.blob.Some? then 0 else 1 }

  function UploadWork(u: Upload): nat {
    (if BytesWork(u) >= 0 then BytesWork(u) else 0) + PhaseWork(u) + Sum(TaskWork, u.tasks)
  }

  function Work(s: State): nat {
    Sum(UploadWork, s.uploads) + Sum(EntryWork, s.server)
  }

  lemma OwnDecreasesWork(u: Upload, e: Entry, tripped: bool, a: OwnAct)
    requires UploadInv(u, e) && OwnEnabled(u, e, a)
    ensures a.CommitArrive? ==> UploadWork(OwnDo(u, tripped, a)) == UploadWork(u)
    ensures !a.CommitArrive? ==> UploadWork(OwnDo(u, tripped, a)) < UploadWork(u)
  {
    if a.Cut? && u.phase.buf != [] {
      SumAppend(TaskWork, u.tasks, Task(u.offset, u.phase.buf, false, Waiting));
    }
  }

  lemma OwnStepDecreasesWork(s: State, i: nat, a: OwnAct)
    requires Inv(s) && Enabled(s, Own(i, a))
    ensures Work(Do(s, Own(i, a))) < Work(s)
  {
    var s' := Do(s, Own(i, a));
    OwnDecreasesWork(s.uploads[i], s.server[i], s.tripped, a);
    SumUpdate(UploadWork, s.uploads, i, s'.uploads[i]);
    if a.CommitArrive? {
      SumUpdate(EntryWork, s.server, i, s'.server[i]);
    }
  }

  lemma TaskDecreasesWork(u: Upload, k: nat, permits: nat, a: TaskAct)
    requires k < |u.tasks| && TaskEnabled(u.tasks[k], permits, a)
    ensures UploadWork(u.(tasks := u.tasks[k := TaskDo(u.tasks[k], a)])) < UploadWork(u)
  {
    SumUpdate(TaskWork, u.tasks, k, TaskDo(u.tasks[k], a));
  }

  lemma TaskStepDecreasesWork(s: State, i: nat, k: nat, a: TaskAct)
    requires Inv(s) && Enabled(s, OnTask(i, k, a))
    ensures Work(Do(s, OnTask(i, k, a))) < Work(s)
  {
    var s' := Do(s, OnTask(i, k, a));
    var u, e := s.uploads[i], s.server[i];
    TaskDecreasesWork(u, k, s.permits, a);
    SumUpdate(UploadWork, s.uploads, i, s'.uploads[i]);
    TaskKeepsInv(u, e, k, s.permits, a);
    SumUpdate(EntryWork, s.server, i, s'.server[i]);
    assert s'.server == s.server[i := s'.server[i]];
  }

  /** Every step except the start of a new call uses up work. */
  lemma StepDecreasesWork(s: State, st: Step)
    requires Inv(s) && Enabled(s, st) && !st.Begin?
    ensures Work(Do(s, st)) < Work(s)
  {
    match st
    case Own(i, a) => OwnStepDecreasesWork(s, i, a);
    case OnTask(i, k, a) => TaskStepDecreasesWork(s, i, k, a);
  }

  lemma {:induction false} RunsAreBounded(s: State, steps: seq<Step>)
    requires Inv(s) && Valid(s, steps)
    requires forall k :: 0 <= k < |steps| ==> !steps[k].Begin?
    ensures |steps| + Work(Exec(s, steps)) <= Work(s)
    decreases |steps|
  {
    if steps != [] {
      StepDecreasesWork(s, steps[0]);
      StepKeepsInv(s, steps[0]);
      RunsAreBounded(Do(s, steps[0]), steps[1..]);
    }
  }

  ghost predicate Quiescent(s: State) {
    forall st: Step :: Enabled(s, st) ==> st.Begin?
  }

  /** With no new calls every continuation of a run is bounded, and one that cannot be continued has returned from every
      call, finished every task, detached ones too, and given back all permits. */
  lemma AllUploadsFinish(before: seq<Step>, after: seq<Step>)
    requires Valid(INIT, before) && Valid(Exec(INIT, before), after)
    requires forall k :: 0 <= k < |after| ==> !after[k].Begin?
    ensures |after| <= Work(Exec(INIT, before))
    ensures var s := Exec(Exec(INIT, before), after);
            Quiescent(s) ==> s.permits == MAX_CONCURRENCY
                             && forall i :: 0 <= i < |s.uploads| ==> CallDone(s.uploads[i])
  {
    RunKeepsInv(INIT, before);
    RunsAreBounded(Exec(INIT, before), after);
    ExecAppend(INIT, before, after);
    var s := Exec(Exec(INIT, before), after);
    if Quiescent(s) {
      forall i | 0 <= i < |s.uploads|
        ensures CallDone(s.uploads[i])
      {
        if !CallDone(s.uploads[i]) {
          var _ := UnfinishedIsNeverStuck(before + after, i);
        }
      }
      PermitsAreConserved(before + after);
      if Sum(HeldBy, s.uploads) > 0 {
        var j := SumPositive(HeldBy, s.uploads);
        var _ := SumPositive(Holds, s.uploads[j].tasks);
      }
    }
  }

  lemma {:induction false} ExecAppend(s: State, before: seq<Step>, after: seq<Step>)
    requires Valid(s, before) && Valid(Exec(s, before), after)
    ensures Valid(s, before + after) && Exec(s, before + after) == Exec(Exec(s, before), after)
    decreases |before|
  {
    if before == [] {
      assert before + after == after;
    } else {
      assert (before + after)[1..] == before[1..] + after;
      ExecAppend(Do(s, before[0]), before[1..], after);
    }
  }

  // ----- the breaker -----

  predicate NeverEntered(u: Upload) {
    && u.tasks == [] && u.commit.None?
    && (u.phase.Entering? || u.phase == Returned(Err(BreakerTripped)))
  }

  /** Once the breaker has tripped it stays tripped, and a call that had not passed its gate by then never sends
      anything: it spawns no task, requests no commit, and its entry stays as the reservation left it. */
  lemma TrippedGateHolds(before: seq<Step>, after: seq<Step>, i: nat)
    requires Valid(INIT, before) && Valid(Exec(INIT, before), after) && Exec(INIT, before).tripped
    requires i < |Exec(INIT, before).uploads| ==> Exec(INIT, before).uploads[i].phase.Entering?
    ensures var s := Exec(Exec(INIT, before), after);
            && s.tripped
            && (i < |s.uploads| ==>
                  NeverEntered(s.uploads[i]) && i < |s.server| && s.server[i] == Entry(map[], None))
  {
    RunKeepsInv(INIT, before);
    GateHoldsFrom(Exec(INIT, before), after, i);
  }

  lemma {:induction false} GateHoldsFrom(s: State, steps: seq<Step>, i: nat)
    requires Inv(s) && Valid(s, steps) && s.tripped
    requires i < |s.uploads| ==> NeverEntered(s.uploads[i])
    ensures Exec(s, steps).tripped
    ensures i < |Exec(s, steps).uploads| ==>
              NeverEntered(Exec(s, steps).uploads[i])
              && i < |Exec(s, steps).server| && Exec(s, steps).server[i] == Entry(map[], None)
    decreases |steps|
  {
    if steps == [] {
      if i < |s.uploads| {
        assert UploadInv(s.uploads[i], s.server[i]);
        assert s.server[i].cells == map[];
      }
    } else {
      StepKeepsInv(s, steps[0]);
      GateHoldsFrom(Do(s, steps[0]), steps[1..], i);
    }
  }

  predicate RateLimitedStep(st: Step) {
    || (st.OnTask? && st.taskAct == Answer(RateLimited))
    || (st.Own? && st.act == CommitAnswer(RateLimited))
  }

  predicate AwaitsCheck(u: Upload) {
    exists k :: 0 <= k < |u.tasks| && u.tasks[k].phase == Checking(RateLimited)
  }

  /** Tripped, or a task holds a rate-limited answer that it is about to check. */
  predicate Alarmed(s: State) {
    s.tripped || exists i :: 0 <= i < |s.uploads| && AwaitsCheck(s.uploads[i])
  }

  lemma TaskStepAlarms(s: State, i: nat, k: nat, a: TaskAct)
    requires Enabled(s, OnTask(i, k, a))
    ensures Alarmed(Do(s, OnTask(i, k, a))) <==> Alarmed(s) || a == Answer(RateLimited)
  {
    var s' := Do(s, OnTask(i, k, a));
    var u, u' := s.uploads[i], s'.uploads[i];
    assert forall j :: 0 <= j < |s.uploads| && j != i ==> s'.uploads[j] == s.uploads[j];
    assert forall m :: 0 <= m < |u.tasks| && m != k ==> u'.tasks[m] == u.tasks[m];
    if u'.tasks[k].phase == Checking(RateLimited) {
      assert AwaitsCheck(u');
    }
    if !s.tripped && AwaitsCheck(u) {
      var m :| 0 <= m < |u.tasks| && u.tasks[m].phase == Checking(RateLimited);
      if m != k || !a.Check? {
        assert u'.tasks[m].phase == Checking(RateLimited);
        assert AwaitsCheck(u');
      }
    }
  }

  lemma OwnStepAlarms(s: State, i: nat, a: OwnAct)
    requires Enabled(s, Own(i, a))
    ensures Alarmed(Do(s, Own(i, a))) <==> Alarmed(s) || a == CommitAnswer(RateLimited)
  {
    var s' := Do(s, Own(i, a));
    var u, u' := s.uploads[i], s'.uploads[i];
    assert forall j :: 0 <= j < |s.uploads| && j != i ==> s'.uploads[j] == s.uploads[j];
    assert forall m :: 0 <= m < |u.tasks| ==> u'.tasks[m] == u.tasks[m];
    assert AwaitsCheck(u') <==> AwaitsCheck(u);
  }

  lemma BeginAlarms(s: State, data: seq<Byte>)
    ensures Alarmed(Do(s, Begin(data))) <==> Alarmed(s)
  {
    var s' := Do(s, Begin(data));
    assert forall j :: 0 <= j < |s.uploads| ==> s'.uploads[j] == s.uploads[j];
    assert !AwaitsCheck(s'.uploads[|s.uploads|]);
  }

  lemma {:induction false} AlarmsFrom(s: State, steps: seq<Step>)
    requires Valid(s, steps)
    ensures Alarmed(Exec(s, steps)) <==> Alarmed(s) || exists m :: 0 <= m < |steps| && RateLimitedStep(steps[m])
    decreases |steps|
  {
    if steps != [] {
      match steps[0] {
        case Begin(data) => BeginAlarms(s, data);
        case Own(i, a) => OwnStepAlarms(s, i, a);
        case OnTask(i, k, a) => TaskStepAlarms(s, i, k, a);
      }
      AlarmsFrom(Do(s, steps[0]), steps[1..]);
      assert forall m :: 0 < m < |steps| ==> steps[m] == steps[1..][m - 1];
      assert forall m :: 0 <= m < |steps[1..]| ==> steps[1..][m] == steps[m + 1];
    }
  }

  /** The breaker trips exactly because of rate-limited answers to PATCH or commit requests: a run is tripped, or about to
      be when a task checks its answer, if and only if such an answer was given. Other errors never trip it. */
  lemma TripsExactlyOnRateLimit(steps: seq<Step>)
    requires Valid(INIT, steps)
    ensures Alarmed(Exec(INIT, steps)) <==> exists m :: 0 <= m < |steps| && RateLimitedStep(steps[m])
  {
    AlarmsFrom(INIT, steps);
  }
}
