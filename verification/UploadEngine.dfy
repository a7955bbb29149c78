/** The V1 upload engine of gha-cache as a step machine: any number of upload_file calls, each spawning one task per
    chunk, all sharing one semaphore and one circuit breaker, against a server that may answer or lose anything. */
module UploadEngine {
  import opened Common
  import opened Chunking

  const CHUNK_SIZE: nat := 32 * 1024 * 1024
  const MAX_CONCURRENCY: nat := 4

  // ----- state -----

  datatype Response = Success | RateLimited | OtherError

  datatype Failure = BreakerTripped | ReadFailed | ChunkFailed | CommitFailed

  datatype TaskPhase = Waiting | InFlight | Checking(answer: Response) | Finished(ok: bool)

  /** One spawned chunk task. `arrived`: the server has processed its PATCH, whatever the client knows of it. */
  datatype Task = Task(offset: nat, chunk: seq<Byte>, arrived: bool, phase: TaskPhase)

  datatype Phase =
    | Entering
    | Reading(buf: seq<Byte>)
    | Joining
    | Committing
    | Returned(result: Result<nat, Failure>)

  /** One upload_file call. `commit` is the size in the commit request, once that has been sent. */
  datatype Upload = Upload(stream: seq<Byte>, offset: nat, tasks: seq<Task>, phase: Phase, commit: Option<nat>)

  /** What the server holds for one cache id: bytes received so far, and the blob once committed. */
  datatype Entry = Entry(cells: map<nat, Byte>, blob: Option<seq<Byte>>)

  /** The cache id of uploads[i] is i: each allocation goes to one call. */
  datatype State = State(uploads: seq<Upload>, server: seq<Entry>, permits: nat, tripped: bool)

  const INIT := State([], [], MAX_CONCURRENCY, false)

  // ----- the server -----

  function Span(first: nat, length: nat): (positions: set<nat>)
    ensures forall p :: p in positions <==> first <= p < first + length
  {
    if length == 0 then {} else Span(first, length - 1) + {first + length - 1}
  }

  /** A ranged PATCH, "bytes first-last/[star]" with an inclusive last byte; a range that does not fit is refused. */
  function Patch(e: Entry, first: int, last: int, body: seq<Byte>): Entry {
    if 0 <= first && last + 1 - first == |body| then
      e.(cells := e.cells + map p | p in Span(first, |body|) :: body[p - first])
    else
      e
  }

  function Assemble(cells: map<nat, Byte>, size: nat): seq<Byte> {
    seq(size, p requires 0 <= p < size => if p in cells then cells[p] else 0)
  }

  // ----- steps -----

  datatype TaskAct = Acquire | Arrive | SendError | Answer(response: Response) | Check

  datatype OwnAct =
    | Enter | Read(n: nat) | ReadError | Cut | Join
    | CommitArrive | CommitSendError | CommitAnswer(response: Response)

  datatype Step = Begin(stream: seq<Byte>) | Own(i: nat, act: OwnAct) | OnTask(i: nat, k: nat, taskAct: TaskAct)

  predicate TaskEnabled(t: Task, permits: nat, a: TaskAct) {
    match a
    case Acquire => t.phase.Waiting? && permits > 0
    case Arrive => !t.phase.Waiting? && !t.arrived
    case SendError => t.phase.InFlight?
    case Answer(r) => t.phase.InFlight? && (r.Success? ==> t.arrived)
    case Check => t.phase.Checking?
  }

  /** The permit is dropped before the breaker check, and also when `?` leaves the task on a send error. */
  function TaskDo(t: Task, a: TaskAct): Task {
    match a
    case Acquire => t.(phase := InFlight)
    case Arrive => t.(arrived := true)
    case SendError => t.(phase := Finished(false))
    case Answer(r) => t.(phase := Checking(r))
    case Check => t.(phase := Finished(t.phase.Checking? && t.phase.answer.Success?))
  }

  predicate OwnEnabled(u: Upload, e: Entry, a: OwnAct) {
    match a
    case Enter => u.phase.Entering?
    case Read(n) => u.phase.Reading? && 0 < n <= CHUNK_SIZE - |u.phase.buf| && u.offset + |u.phase.buf| + n <= |u.stream|
    case ReadError => u.phase.Reading? && |u.phase.buf| < CHUNK_SIZE
    case Cut => u.phase.Reading? && (|u.phase.buf| == CHUNK_SIZE || u.offset + |u.phase.buf| == |u.stream|)
    case Join => u.phase.Joining? && forall k :: 0 <= k < |u.tasks| ==> u.tasks[k].phase.Finished?
    case CommitArrive => u.commit.Some? && e.blob.None?
    case CommitSendError => u.phase.Committing?
    case CommitAnswer(r) => u.phase.Committing? && (r.Success? ==> e.blob.Some?)
  }

  function OwnDo(u: Upload, tripped: bool, a: OwnAct): Upload {
    match a
    case Enter => u.(phase := if tripped then Returned(Err(BreakerTripped)) else Reading([]))
    case Read(n) =>
      var pos := u.offset + if u.phase.Reading? then |u.phase.buf| else 0;
      if u.phase.Reading? && pos + n <= |u.stream| then
        u.(phase := Reading(u.phase.buf + u.stream[pos..pos + n]))
      else u
    case ReadError => u.(phase := Returned(Err(ReadFailed)))
    case Cut =>
      if u.phase.Reading? && u.phase.buf != [] then
        u.(tasks := u.tasks + [Task(u.offset, u.phase.buf, false, Waiting)],
           offset := u.offset + |u.phase.buf|,
           phase := Reading([]))
      else u.(phase := Joining)
    case Join =>
      if forall k :: 0 <= k < |u.tasks| ==> u.tasks[k].phase == Finished(true) then
        u.(phase := Committing, commit := Some(u.offset))
      else u.(phase := Returned(Err(ChunkFailed)))
    case CommitArrive => u
    case CommitSendError => u.(phase := Returned(Err(CommitFailed)))
    case CommitAnswer(r) => u.(phase := Returned(if r.Success? then Ok(u.offset) else Err(CommitFailed)))
  }

  predicate Enabled(s: State, st: Step) {
    match st
    case Begin(_) => true
    case Own(i, a) => i < |s.uploads| && i < |s.server| && OwnEnabled(s.uploads[i], s.server[i], a)
    case OnTask(i, k, a) =>
      i < |s.uploads| && i < |s.server| && k < |s.uploads[i].tasks| && TaskEnabled(s.uploads[i].tasks[k], s.permits, a)
  }

  function PermitsAfter(s: State, a: TaskAct): nat {
    match a
    case Acquire => if s.permits > 0 then s.permits - 1 else 0
    case SendError | Answer(_) => s.permits + 1
    case _ => s.permits
  }

  function Do(s: State, st: Step): State
    requires Enabled(s, st)
  {
    match st
    case Begin(data) =>
      s.(uploads := s.uploads + [Upload(data, 0, [], Entering, None)], server := s.server + [Entry(map[], None)])
    case Own(i, a) =>
      var u, e := s.uploads[i], s.server[i];
      s.(uploads := s.uploads[i := OwnDo(u, s.tripped, a)],
         server := if a.CommitArrive? then s.server[i := e.(blob := Some(Assemble(e.cells, u.commit.value)))] else s.server,
         tripped := s.tripped || a == CommitAnswer(RateLimited))
    case OnTask(i, k, a) =>
      var u, t := s.uploads[i], s.uploads[i].tasks[k];
      s.(uploads := s.uploads[i := u.(tasks := u.tasks[k := TaskDo(t, a)])],
         server := if a.Arrive?
                   then s.server[i := Patch(s.server[i], t.offset, t.offset + |t.chunk| - 1, t.chunk)]
                   else s.server,
         permits := PermitsAfter(s, a),
         tripped := s.tripped || (a.Check? && t.phase.answer.RateLimited?))
  }

  // ----- runs -----

  predicate Valid(s: State, steps: seq<Step>)
    decreases |steps|
  {
    steps == [] || (Enabled(s, steps[0]) && Valid(Do(s, steps[0]), steps[1..]))
  }

  function Exec(s: State, steps: seq<Step>): State
    requires Valid(s, steps)
    decreases |steps|
  {
    if steps == [] then s else Exec(Do(s, steps[0]), steps[1..])
  }
}
