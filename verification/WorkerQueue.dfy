/** The upload queue as a step machine: calls that enqueue store paths and then, if they finish the workflow, shut the
    worker down; one first-in first-out channel; one worker with its set of paths already handled. */
module WorkerQueue {
  import opened Common

  type Path = string

  datatype Request = Shutdown | Upload(path: Path)

  /** What the worker did with a request it received. */
  datatype Verdict = Attempted | Duplicate | SkippedTripped | Stopped

  datatype WorkerPhase = Receiving | Uploading(path: Path) | Stopping | Ended

  /** Dropped: the client has gone while the call was waiting, and its future has been dropped. */
  datatype CallPhase = Sending | WantLock | Took | Awaiting | Returned(ok: bool) | Panicked | Dropped

  /** A call of enqueue_paths with the closure `batch`, followed by shutdown if it finishes the workflow. `inTime` counts
      its sends that came before the shutdown message. */
  datatype Call = Call(batch: seq<Path>, finishes: bool, next: nat, inTime: nat, phase: CallPhase)

  /** `handle`: worker_result still holds the join handle. `lock`: the call holding its write guard. `abandoned`: a call
      has been dropped that was waiting for the worker, and with it the guard and the join handle. */
  datatype State = State(
    tripped: bool, sent: seq<Request>, verdicts: seq<Verdict>, worker: WorkerPhase,
    done: set<Path>, uploaded: set<Path>, anyFailed: bool,
    handle: bool, lock: Option<nat>, abandoned: bool, calls: seq<Call>)

  const INIT := State(false, [], [], Receiving, {}, {}, false, true, None, false, [])

  datatype Step =
    | NewCall(batch: seq<Path>, finishes: bool) | Trip
    | Send(i: nat) | EndBatch(i: nat) | Lock(i: nat) | SendShutdown(i: nat) | Join(i: nat) | Drop(i: nat)
    | Receive | UploadEnds(ok: bool) | Stop

  /** The receiver lives until the worker function has returned. */
  predicate ReceiverAlive(s: State) { !s.worker.Ended? }

  predicate InPhase(s: State, i: nat, p: CallPhase) { i < |s.calls| && s.calls[i].phase == p }

  predicate Enabled(s: State, st: Step) {
    match st
    case NewCall(_, _) => true
    case Trip => !s.tripped
    case Send(i) => InPhase(s, i, Sending) && s.calls[i].next < |s.calls[i].batch|
    case EndBatch(i) => InPhase(s, i, Sending) && s.calls[i].next == |s.calls[i].batch|
    case Lock(i) => InPhase(s, i, WantLock) && s.lock.None?
    case SendShutdown(i) => InPhase(s, i, Took)
    case Join(i) => InPhase(s, i, Awaiting) && s.worker.Ended?
    case Drop(i) => InPhase(s, i, WantLock) || InPhase(s, i, Awaiting)
    case Receive => s.worker.Receiving? && |s.verdicts| < |s.sent|
    case UploadEnds(_) => s.worker.Uploading?
    case Stop => s.worker.Stopping?
  }

  function WithPhase(s: State, i: nat, p: CallPhase): seq<Call>
    requires i < |s.calls|
  {
    s.calls[i := s.calls[i].(phase := p)]
  }

  function DoSend(s: State, i: nat): State
    requires Enabled(s, Send(i))
  {
    var c := s.calls[i];
    if ReceiverAlive(s) then
      s.(sent := s.sent + [Upload(c.batch[c.next])],
         calls := s.calls[i := c.(next := c.next + 1, inTime := if Shutdown in s.sent then c.inTime else c.inTime + 1)])
    else s.(calls := WithPhase(s, i, Returned(false)))
  }

  function DoReceive(s: State): State
    requires Enabled(s, Receive)
  {
    match s.sent[|s.verdicts|]
    case Shutdown => s.(verdicts := s.verdicts + [Stopped], worker := Stopping)
    case Upload(p) =>
      if s.tripped then s.(verdicts := s.verdicts + [SkippedTripped])
      else if p in s.done then s.(verdicts := s.verdicts + [Duplicate])
      else s.(verdicts := s.verdicts + [Attempted], done := s.done + {p}, worker := Uploading(p))
  }

  function Do(s: State, st: Step): State
    requires Enabled(s, st)
  {
    match st
    case NewCall(batch, finishes) => s.(calls := s.calls + [Call(batch, finishes, 0, 0, Sending)])
    case Trip => s.(tripped := true)
    case Send(i) => DoSend(s, i)
    case EndBatch(i) => s.(calls := WithPhase(s, i, if s.calls[i].finishes then WantLock else Returned(true)))
    case Lock(i) =>
      if s.handle then s.(handle := false, lock := Some(i), calls := WithPhase(s, i, Took))
      else s.(calls := WithPhase(s, i, Returned(true)))
    case SendShutdown(i) =>
      if ReceiverAlive(s) then s.(sent := s.sent + [Shutdown], calls := WithPhase(s, i, Awaiting))
      else s.(calls := WithPhase(s, i, Panicked))
    case Join(i) => s.(lock := None, calls := WithPhase(s, i, Returned(true)))
    case Drop(i) =>
      var waited := s.calls[i].phase.Awaiting?;
      s.(calls := WithPhase(s, i, Dropped), lock := if waited then None else s.lock, abandoned := s.abandoned || waited)
    case Receive => DoReceive(s)
    case UploadEnds(ok) =>
      s.(worker := Receiving,
         uploaded := if ok then s.uploaded + {s.worker.path} else s.uploaded,
         anyFailed := s.anyFailed || !ok)
    case Stop => s.(worker := Ended)
  }

  predicate Valid(s: State, steps: seq<Step>)
    decreases |steps|
  {
    steps == [] || (Enabled(s, steps[0]) && Valid(Do(s, steps[0]), steps[1..]))
  }

  function Exec(s: State, steps: seq<Step>): State
    requires Valid(s, steps)
    decreases |steps|
  {
    if steps == [] then s else Exec(Do(s, steps[0]), steps[1..])
  }

  // ----- queue contents -----

  function PathsOf(rs: seq<Request>): set<Path> {
    set r | r in rs && r.Upload? :: r.path
  }

  lemma PathsOfSnoc(rs: seq<Request>, r: Request)
    ensures PathsOf(rs + [r]) == PathsOf(rs) + if r.Upload? then {r.path} else {}
  {
    assert forall x :: x in rs + [r] <==> x in rs || x == r;
  }
}
