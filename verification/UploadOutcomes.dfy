/** What a V1 upload answers and why: every result has exactly its cause, and an upload that nothing disturbs succeeds. */
module UploadOutcomes {
  import opened Common
  import opened UploadEngine
  import opened UploadSafety
  import opened UploadLiveness

  // ----- causes -----

  predicate HasResult(s: State, i: nat, r: Result<nat, Failure>) {
    i < |s.uploads| && s.uploads[i].phase == Returned(r)
  }

  predicate SomeTaskFailed(u: Upload) {
    exists k :: 0 <= k < |u.tasks| && u.tasks[k].phase == Finished(false)
  }

  /** The event that gives call i this result. */
  predicate Causes(s: State, st: Step, i: nat, r: Result<nat, Failure>)
    requires Enabled(s, st)
  {
    st.Own? && st.i == i &&
    match r
    case Ok(n) => st.act == CommitAnswer(Success) && n == |s.uploads[i].stream|
    case Err(BreakerTripped) => st.act.Enter? && s.tripped
    case Err(ReadFailed) => st.act.ReadError?
    case Err(ChunkFailed) => st.act.Join? && SomeTaskFailed(s.uploads[i])
    case Err(CommitFailed) => st.act.CommitSendError? || (st.act.CommitAnswer? && !st.act.response.Success?)
  }

  predicate CauseIn(s: State, steps: seq<Step>, i: nat, r: Result<nat, Failure>)
    requires Valid(s, steps)
    decreases |steps|
  {
    steps != [] && (Causes(s, steps[0], i, r) || CauseIn(Do(s, steps[0]), steps[1..], i, r))
  }

  lemma OwnStepHasCause(s: State, i: nat, a: OwnAct, r: Result<nat, Failure>)
    requires Inv(s) && Enabled(s, Own(i, a))
    ensures HasResult(Do(s, Own(i, a)), i, r) <==> HasResult(s, i, r) || Causes(s, Own(i, a), i, r)
  {
    var u, e := s.uploads[i], s.server[i];
    assert UploadInv(u, e);
    if a.Join? && !SomeTaskFailed(u) {
      assert forall k :: 0 <= k < |u.tasks| ==> u.tasks[k].phase == Finished(true);
    }
  }

  lemma StepHasCause(s: State, st: Step, i: nat, r: Result<nat, Failure>)
    requires Inv(s) && Enabled(s, st)
    ensures HasResult(Do(s, st), i, r) <==> HasResult(s, i, r) || Causes(s, st, i, r)
  {
    if st.Own? && st.i == i {
      OwnStepHasCause(s, i, st.act, r);
    }
  }

  lemma {:induction false} RunHasCause(s: State, steps: seq<Step>, i: nat, r: Result<nat, Failure>)
    requires Inv(s) && Valid(s, steps)
    ensures HasResult(Exec(s, steps), i, r) <==> HasResult(s, i, r) || CauseIn(s, steps, i, r)
    decreases |steps|
  {
    if steps != [] {
      StepHasCause(s, steps[0], i, r);
      StepKeepsInv(s, steps[0]);
      RunHasCause(Do(s, steps[0]), steps[1..], i, r);
    }
  }

  /** In every run a call has returned a result exactly if the cause of that result has happened: "breaker tripped" if it
      entered a tripped engine, "read failed" if its stream failed, "chunk failed" if it joined its tasks and one had
      failed, "commit failed" if the commit could not be sent or was not answered with success, and Ok with the length
      of the stream if the commit was answered with success. */
  lemma ResultHasItsCause(steps: seq<Step>, i: nat, r: Result<nat, Failure>)
    requires Valid(INIT, steps)
    ensures HasResult(Exec(INIT, steps), i, r) <==> CauseIn(INIT, steps, i, r)
  {
    RunHasCause(INIT, steps, i, r);
  }

  /** The client has been told how the PATCH went, and may still have to look at the answer. */
  predicate Told(s: State, i: nat, k: nat, ok: bool) {
    && i < |s.uploads| && k < |s.uploads[i].tasks|
    && var p := s.uploads[i].tasks[k].phase;
    p == Finished(ok) || (p.Checking? && p.answer.Success? == ok)
  }

  predicate Tells(st: Step, i: nat, k: nat, ok: bool) {
    || (!ok && st == OnTask(i, k, SendError))
    || (st.OnTask? && st.i == i && st.k == k && st.taskAct.Answer? && st.taskAct.response.Success? == ok)
  }

  lemma TaskStepTells(s: State, i: nat, k: nat, a: TaskAct, ok: bool)
    requires Enabled(s, OnTask(i, k, a))
    ensures Told(Do(s, OnTask(i, k, a)), i, k, ok) <==> Told(s, i, k, ok) || Tells(OnTask(i, k, a), i, k, ok)
  {
  }

  lemma StepTells(s: State, st: Step, i: nat, k: nat, ok: bool)
    requires Enabled(s, st)
    ensures Told(Do(s, st), i, k, ok) <==> Told(s, i, k, ok) || Tells(st, i, k, ok)
  {
    if st.OnTask? && st.i == i && st.k == k {
      TaskStepTells(s, i, k, st.taskAct, ok);
    }
  }

  lemma {:induction false} RunTells(s: State, steps: seq<Step>, i: nat, k: nat, ok: bool)
    requires Valid(s, steps)
    ensures Told(Exec(s, steps), i, k, ok)
            <==> Told(s, i, k, ok) || exists m :: 0 <= m < |steps| && Tells(steps[m], i, k, ok)
    decreases |steps|
  {
    if steps != [] {
      StepTells(s, steps[0], i, k, ok);
      RunTells(Do(s, steps[0]), steps[1..], i, k, ok);
      assert forall m :: 0 < m < |steps| ==> steps[m] == steps[1..][m - 1];
      assert forall m :: 0 <= m < |steps[1..]| ==> steps[1..][m] == steps[m + 1];
    }
  }

  /** A finished chunk task has failed exactly if its PATCH could not be sent or was answered with an error, and succeeded
      exactly if it was answered with success. */
  lemma TaskEndHasItsCause(steps: seq<Step>, i: nat, k: nat, ok: bool)
    requires Valid(INIT, steps)
    requires i < |Exec(INIT, steps).uploads| && k < |Exec(INIT, steps).uploads[i].tasks|
    requires Exec(INIT, steps).uploads[i].tasks[k].phase.Finished?
    ensures Exec(INIT, steps).uploads[i].tasks[k].phase == Finished(ok)
            <==> exists m :: 0 <= m < |steps| && Tells(steps[m], i, k, ok)
  {
    RunTells(INIT, steps, i, k, ok);
  }

  // ----- success is always possible -----

  lemma Extend(s: State, steps: seq<Step>, st: Step) returns (longer: seq<Step>)
    requires Valid(s, steps) && Enabled(Exec(s, steps), st)
    ensures Valid(s, longer) && Exec(s, longer) == Do(Exec(s, steps), st)
  {
    longer := steps + [st];
    var s' := Exec(s, steps);
    var one, s1 := [st], Do(s', st);
    assert one[0] == st && one[1..] == [];
    assert Valid(s1, []) && Exec(s1, []) == s1;
    assert Valid(s', one) && Exec(s', one) == s1;
    ExecAppend(s, steps, [st]);
  }

  predicate Ready(s: State, i: nat) {
    Inv(s) && !s.tripped && s.permits > 0 && i < |s.uploads|
  }

  predicate AllWaiting(u: Upload, k: nat) {
    forall m :: k <= m < |u.tasks| ==> u.tasks[m].phase == Waiting && !u.tasks[m].arrived
  }

  predicate SucceededTo(u: Upload, k: nat) {
    forall m :: 0 <= m < k <= |u.tasks| ==> u.tasks[m].phase == Finished(true)
  }

  /** If all permits are taken, one of the requests under way can be lost. */
  lemma PermitCanBeFreed(s: State, i: nat) returns (steps: seq<Step>)
    requires Inv(s) && PermitsBalance(s) && !s.tripped
    requires i < |s.uploads| && s.uploads[i].phase.Entering?
    ensures Valid(s, steps) && Ready(Exec(s, steps), i) && Exec(s, steps).uploads[i] == s.uploads[i]
  {
    steps := [];
    if s.permits == 0 {
      var j := SumPositive(HeldBy, s.uploads);
      var m := SumPositive(Holds, s.uploads[j].tasks);
      assert UploadInv(s.uploads[i], s.server[i]);
      steps := Extend(s, [], OnTask(j, m, SendError));
      StepKeepsInv(s, OnTask(j, m, SendError));
    }
  }

  lemma ChunkCanBeRead(s: State, i: nat, n: nat) returns (steps: seq<Step>)
    requires Ready(s, i) && s.uploads[i].phase == Reading([]) && AllWaiting(s.uploads[i], 0)
    requires 0 < n && n == Min(CHUNK_SIZE, |s.uploads[i].stream| - s.uploads[i].offset)
    requires s.uploads[i].offset <= |s.uploads[i].stream|
    ensures Valid(s, steps) && Ready(Exec(s, steps), i)
    ensures var u, u' := s.uploads[i], Exec(s, steps).uploads[i];
            u'.stream == u.stream && u'.offset == u.offset + n && u'.phase == Reading([]) && AllWaiting(u', 0)
            && |u'.tasks| == |u.tasks| + 1
    ensures |Exec(s, steps).uploads| == |s.uploads|
  {
    steps := Extend(s, [], Own(i, Read(n)));
    StepKeepsInv(s, Own(i, Read(n)));
    var s1 := Exec(s, steps);
    var u1 := s1.uploads[i];
    assert |u1.phase.buf| == n && u1.tasks == s.uploads[i].tasks;
    steps := Extend(s, steps, Own(i, Cut));
    StepKeepsInv(s1, Own(i, Cut));
  }

  lemma {:induction false} StreamCanBeRead(s: State, i: nat) returns (steps: seq<Step>)
    requires Ready(s, i) && s.uploads[i].phase == Reading([]) && AllWaiting(s.uploads[i], 0)
    ensures Valid(s, steps) && Ready(Exec(s, steps), i)
    ensures var u' := Exec(s, steps).uploads[i];
            u'.stream == s.uploads[i].stream && u'.phase.Joining? && AllWaiting(u', 0)
    decreases |s.uploads[i].stream| - s.uploads[i].offset
  {
    var u := s.uploads[i];
    assert UploadInv(u, s.server[i]);
    if u.offset == |u.stream| {
      steps := Extend(s, [], Own(i, Cut));
      StepKeepsInv(s, Own(i, Cut));
    } else {
      var first := ChunkCanBeRead(s, i, Min(CHUNK_SIZE, |u.stream| - u.offset));
      var rest := StreamCanBeRead(Exec(s, first), i);
      ExecAppend(s, first, rest);
      steps := first + rest;
    }
  }

  lemma TaskCanArrive(s: State, i: nat, k: nat) returns (steps: seq<Step>)
    requires Ready(s, i) && k < |s.uploads[i].tasks|
    requires s.uploads[i].tasks[k].phase == Waiting && !s.uploads[i].tasks[k].arrived
    ensures Valid(s, steps) && Inv(Exec(s, steps)) && !Exec(s, steps).tripped && i < |Exec(s, steps).uploads|
    ensures var t := s.uploads[i].tasks[k];
            Exec(s, steps).uploads[i]
            == s.uploads[i].(tasks := s.uploads[i].tasks[k := t.(phase := InFlight, arrived := true)])
  {
    steps := Extend(s, [], OnTask(i, k, Acquire));
    StepKeepsInv(s, OnTask(i, k, Acquire));
    var s1 := Exec(s, steps);
    steps := Extend(s, steps, OnTask(i, k, Arrive));
    StepKeepsInv(s1, OnTask(i, k, Arrive));
  }

  lemma TaskCanSucceed(s: State, i: nat, k: nat) returns (steps: seq<Step>)
    requires Ready(s, i) && k < |s.uploads[i].tasks|
    requires s.uploads[i].tasks[k].phase == Waiting && !s.uploads[i].tasks[k].arrived
    ensures Valid(s, steps) && Ready(Exec(s, steps), i)
    ensures var t := s.uploads[i].tasks[k];
            Exec(s, steps).uploads[i]
            == s.uploads[i].(tasks := s.uploads[i].tasks[k := t.(phase := Finished(true), arrived := true)])
  {
    steps := TaskCanArrive(s, i, k);
    var s2 := Exec(s, steps);
    steps := Extend(s, steps, OnTask(i, k, Answer(Success)));
    StepKeepsInv(s2, OnTask(i, k, Answer(Success)));
    var s3 := Exec(s, steps);
    steps := Extend(s, steps, OnTask(i, k, Check));
    StepKeepsInv(s3, OnTask(i, k, Check));
  }

  lemma {:induction false} TasksCanSucceed(s: State, i: nat, k: nat) returns (steps: seq<Step>)
    requires Ready(s, i) && s.uploads[i].phase.Joining? && k <= |s.uploads[i].tasks|
    requires SucceededTo(s.uploads[i], k) && AllWaiting(s.uploads[i], k)
    ensures Valid(s, steps) && Ready(Exec(s, steps), i)
    ensures var u' := Exec(s, steps).uploads[i];
            u'.stream == s.uploads[i].stream && u'.phase.Joining? && SucceededTo(u', |u'.tasks|)
    decreases |s.uploads[i].tasks| - k
  {
    steps := [];
    if k < |s.uploads[i].tasks| {
      var first := TaskCanSucceed(s, i, k);
      var rest := TasksCanSucceed(Exec(s, first), i, k + 1);
      ExecAppend(s, first, rest);
      steps := first + rest;
    }
  }

  lemma CommitCanSucceed(s: State, i: nat) returns (steps: seq<Step>)
    requires Ready(s, i) && s.uploads[i].phase.Joining? && SucceededTo(s.uploads[i], |s.uploads[i].tasks|)
    ensures Valid(s, steps) && HasResult(Exec(s, steps), i, Ok(|s.uploads[i].stream|))
    ensures i < |Exec(s, steps).server| && Exec(s, steps).server[i].blob == Some(s.uploads[i].stream)
  {
    var u := s.uploads[i];
    assert UploadInv(u, s.server[i]);
    steps := Extend(s, [], Own(i, Join));
    StepKeepsInv(s, Own(i, Join));
    var s1 := Exec(s, steps);
    assert s1.uploads[i].phase.Committing?;
    steps := Extend(s, steps, Own(i, CommitArrive));
    StepKeepsInv(s1, Own(i, CommitArrive));
    var s2 := Exec(s, steps);
    assert UploadInv(s2.uploads[i], s2.server[i]);
    steps := Extend(s, steps, Own(i, CommitAnswer(Success)));
  }

  /** From every reachable state in which the breaker has not tripped, a call still at its gate can go on to return Ok with
      the length of its stream and the stream committed, whatever the other calls have done and hold. */
  lemma UploadCanSucceed(before: seq<Step>, i: nat) returns (after: seq<Step>)
    requires Valid(INIT, before) && !Exec(INIT, before).tripped
    requires i < |Exec(INIT, before).uploads| && Exec(INIT, before).uploads[i].phase.Entering?
    ensures Valid(Exec(INIT, before), after)
    ensures var s, s' := Exec(INIT, before), Exec(Exec(INIT, before), after);
            && HasResult(s', i, Ok(|s.uploads[i].stream|))
            && i < |s'.server| && s'.server[i].blob == Some(s.uploads[i].stream)
  {
    var s := Exec(INIT, before);
    RunKeepsInv(INIT, before);
    PermitsAreConserved(before);
    assert UploadInv(s.uploads[i], s.server[i]);
    var freed := PermitCanBeFreed(s, i);
    var s1 := Exec(s, freed);
    var entered := Extend(s, freed, Own(i, Enter));
    StepKeepsInv(s1, Own(i, Enter));
    var read := StreamCanBeRead(Exec(s, entered), i);
    ExecAppend(s, entered, read);
    var sent := TasksCanSucceed(Exec(s, entered + read), i, 0);
    ExecAppend(s, entered + read, sent);
    var committed := CommitCanSucceed(Exec(s, entered + read + sent), i);
    ExecAppend(s, entered + read + sent, committed);
    after := entered + read + sent + committed;
  }

  // ----- failure is always possible -----

  /** Whatever is under way may fail, be lost, or arrive late: a stream may end in an error at any read, a request may be
      lost or answered with anything but an unearned success, and a PATCH may arrive as long as it has not, even when its
      task is over. */
  lemma AnythingMayFail(s: State, i: nat, k: nat, answer: Response)
    requires i < |s.uploads| && i < |s.server| && k < |s.uploads[i].tasks|
    ensures var u, t := s.uploads[i], s.uploads[i].tasks[k];
            && (u.phase.Reading? && |u.phase.buf| < CHUNK_SIZE ==> Enabled(s, Own(i, ReadError)))
            && (u.phase.Committing? ==> Enabled(s, Own(i, CommitSendError)))
            && (u.phase.Committing? && !answer.Success? ==> Enabled(s, Own(i, CommitAnswer(answer))))
            && (u.commit.Some? && s.server[i].blob.None? ==> Enabled(s, Own(i, CommitArrive)))
            && (t.phase.InFlight? ==> Enabled(s, OnTask(i, k, SendError)))
            && (t.phase.InFlight? && !answer.Success? ==> Enabled(s, OnTask(i, k, Answer(answer))))
            && (!t.phase.Waiting? && !t.arrived ==> Enabled(s, OnTask(i, k, Arrive)))
  {
  }

  /** A read error after the first chunk: the call returns while the chunk's task still runs, detached, and its bytes
      reach the server after the return; the entry stays uncommitted. */
  lemma DetachedTaskArrivesLate(data: seq<Byte>) returns (steps: seq<Step>)
    requires |data| > CHUNK_SIZE
    ensures Valid(INIT, steps) && |Exec(INIT, steps).server| == |Exec(INIT, steps).uploads| == 1
    ensures HasResult(Exec(INIT, steps), 0, Err(ReadFailed))
    ensures var u, e := Exec(INIT, steps).uploads[0], Exec(INIT, steps).server[0];
            |u.tasks| == 1 && u.tasks[0].arrived && u.commit.None? && e.blob.None? && 0 in e.cells && e.cells[0] == data[0]
  {
    var entered := CallEnters(data);
    var s := Exec(INIT, entered);
    var read := ChunkCanBeRead(s, 0, CHUNK_SIZE);
    var tail := LateArrival(Exec(s, read));
    ExecAppend(INIT, entered, read);
    ExecAppend(INIT, entered + read, tail);
    steps := entered + read + tail;
    LateBytes(steps);
  }

  lemma CallEnters(data: seq<Byte>) returns (steps: seq<Step>)
    ensures Valid(INIT, steps) && Ready(Exec(INIT, steps), 0)
    ensures Exec(INIT, steps).uploads == [Upload(data, 0, [], Reading([]), None)]
  {
    steps := Extend(INIT, [], Begin(data));
    steps := Extend(INIT, steps, Own(0, Enter));
    RunKeepsInv(INIT, steps);
  }

  /** What has arrived of a first task is the beginning of the stream. */
  lemma LateBytes(steps: seq<Step>)
    requires Valid(INIT, steps) && |Exec(INIT, steps).uploads| > 0
    requires var u := Exec(INIT, steps).uploads[0]; u.tasks != [] && u.tasks[0].arrived && u.commit.None?
    ensures var u, s := Exec(INIT, steps).uploads[0], Exec(INIT, steps);
            && |s.server| == |s.uploads| && s.server[0].blob.None?
            && u.stream != [] && 0 in s.server[0].cells && s.server[0].cells[0] == u.stream[0]
  {
    RunKeepsInv(INIT, steps);
    var u, e := Exec(INIT, steps).uploads[0], Exec(INIT, steps).server[0];
    assert UploadInv(u, e) && TaskTiled(u, 0) && ArrivedStored(u.tasks[0], e);
    TaskWithinOffset(u, 0);
  }

  lemma LateArrival(s: State) returns (steps: seq<Step>)
    requires Ready(s, 0) && |s.uploads| == 1 && |s.uploads[0].tasks| == 1
    requires s.uploads[0].phase == Reading([]) && AllWaiting(s.uploads[0], 0)
    ensures Valid(s, steps) && |Exec(s, steps).uploads| == 1 && |Exec(s, steps).uploads[0].tasks| == 1
    ensures HasResult(Exec(s, steps), 0, Err(ReadFailed)) && Exec(s, steps).uploads[0].tasks[0].arrived
    ensures Exec(s, steps).uploads[0].commit.None? && Exec(s, steps).uploads[0].stream == s.uploads[0].stream
  {
    assert UploadInv(s.uploads[0], s.server[0]);
    steps := Extend(s, [], Own(0, ReadError));
    steps := Extend(s, steps, OnTask(0, 0, Acquire));
    steps := Extend(s, steps, OnTask(0, 0, SendError));
    steps := Extend(s, steps, OnTask(0, 0, Arrive));
  }
}
