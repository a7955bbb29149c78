/** What every step of the V1 upload engine keeps, and what follows for whole runs: the committed blob is the stream. */
module UploadSafety {
  import opened Common
  import opened Chunking
  import opened UploadEngine

  // ----- the invariant -----

  /** The spawned tasks are the first tiles of the stream, in order, up to `offset`. */
  predicate Tiled(u: Upload) {
    && u.offset == Min(|u.tasks| * CHUNK_SIZE, |u.stream|)
    && forall k :: 0 <= k < |u.tasks| ==> TaskTiled(u, k)
  }

  predicate TaskTiled(u: Upload, k: nat)
    requires k < |u.tasks|
  {
    && u.tasks[k].offset == k * CHUNK_SIZE < |u.stream|
    && u.tasks[k].chunk == Tile(u.stream, CHUNK_SIZE, k)
  }

  predicate TaskOk(t: Task) {
    && (t.phase.Waiting? ==> !t.arrived)
    && (t.phase == Checking(Success) || t.phase == Finished(true) ==> t.arrived)
  }

  predicate CellsFromStream(u: Upload, e: Entry) {
    forall p :: p in e.cells ==> p < u.offset <= |u.stream| && e.cells[p] == u.stream[p]
  }

  predicate ArrivedStored(t: Task, e: Entry) {
    t.arrived ==> forall p :: t.offset <= p < t.offset + |t.chunk| ==> p in e.cells
  }

  predicate AllSucceeded(u: Upload) {
    forall k :: 0 <= k < |u.tasks| ==> u.tasks[k].phase == Finished(true)
  }

  predicate PhaseOk(u: Upload, e: Entry) {
    && (u.phase.Entering? ==> u.tasks == [] && u.commit.None?)
    && (u.phase.Reading? ==> u.commit.None? && BufferOk(u, u.phase.buf))
    && (u.phase.Joining? ==> u.commit.None? && u.offset == |u.stream|)
    && (u.phase.Committing? ==> u.commit.Some?)
    && (u.commit.Some? ==> u.commit.value == u.offset == |u.stream| && AllSucceeded(u))
    && (e.blob.Some? ==> u.commit.Some? && e.blob.value == u.stream)
    && (u.phase.Returned? && u.phase.result.Ok? ==> e.blob.Some? && u.phase.result.value == u.offset)
  }

  predicate BufferOk(u: Upload, buf: seq<Byte>) {
    && |buf| <= CHUNK_SIZE
    && u.offset + |buf| <= |u.stream|
    && buf == u.stream[u.offset..u.offset + |buf|]
  }

  predicate UploadInv(u: Upload, e: Entry) {
    && Tiled(u)
    && (forall k :: 0 <= k < |u.tasks| ==> TaskOk(u.tasks[k]) && ArrivedStored(u.tasks[k], e))
    && CellsFromStream(u, e)
    && PhaseOk(u, e)
  }

  predicate Inv(s: State) {
    && |s.uploads| == |s.server|
    && forall i :: 0 <= i < |s.uploads| ==> UploadInv(s.uploads[i], s.server[i])
  }

  // ----- one step of one upload -----

  lemma CutKeepsTiling(u: Upload, e: Entry)
    requires UploadInv(u, e) && OwnEnabled(u, e, Cut)
    ensures UploadInv(OwnDo(u, false, Cut), e)
  {
    var buf := u.phase.buf;
    var u' := OwnDo(u, false, Cut);
    var n := |u.tasks|;
    assert (n + 1) * CHUNK_SIZE == n * CHUNK_SIZE + CHUNK_SIZE;
    if buf != [] {
      assert u.offset == n * CHUNK_SIZE;
      assert u.offset + |buf| == Min((n + 1) * CHUNK_SIZE, |u.stream|);
    }
    forall k | 0 <= k < |u'.tasks|
      ensures TaskTiled(u', k)
    {
      if k < n {
        assert TaskTiled(u, k);
      }
    }
  }

  lemma AssembleIsStream(u: Upload, e: Entry)
    requires UploadInv(u, e)
    requires u.commit.Some?
    ensures Assemble(e.cells, u.commit.value) == u.stream
  {
    forall p: nat | p < |u.stream|
      ensures p in e.cells
    {
      var k := p / CHUNK_SIZE;
      assert k * CHUNK_SIZE <= p < (k + 1) * CHUNK_SIZE;
      assert TaskTiled(u, k) && ArrivedStored(u.tasks[k], e);
    }
  }

  lemma OwnKeepsInv(u: Upload, e: Entry, tripped: bool, a: OwnAct)
    requires UploadInv(u, e) && OwnEnabled(u, e, a)
    ensures !a.CommitArrive? ==> UploadInv(OwnDo(u, tripped, a), e)
    ensures a.CommitArrive? ==> UploadInv(u, e.(blob := Some(Assemble(e.cells, u.commit.value))))
  {
    match a
    case Cut => CutKeepsTiling(u, e);
    case CommitArrive => AssembleIsStream(u, e);
    case Read(n) =>
      var pos := u.offset + |u.phase.buf|;
      assert u.stream[u.offset..pos] + u.stream[pos..pos + n] == u.stream[u.offset..pos + n];
      OwnFrame(u, OwnDo(u, tripped, a), e);
    case _ => OwnFrame(u, OwnDo(u, tripped, a), e);
  }

  /** Steps that only move the phase keep what is said of the tasks and the cells. */
  lemma OwnFrame(u: Upload, u': Upload, e: Entry)
    requires UploadInv(u, e)
    requires u' == u.(phase := u'.phase, commit := u'.commit)
    ensures Tiled(u')
    ensures forall k :: 0 <= k < |u'.tasks| ==> TaskOk(u'.tasks[k]) && ArrivedStored(u'.tasks[k], e)
    ensures CellsFromStream(u', e)
  {
    forall k | 0 <= k < |u'.tasks|
      ensures TaskTiled(u', k)
    {
      assert TaskTiled(u, k);
    }
  }

  // ----- one step of one task -----

  lemma PatchCells(e: Entry, offset: nat, chunk: seq<Byte>)
    requires chunk != []
    ensures var e' := Patch(e, offset, offset + |chunk| - 1, chunk);
            && e'.blob == e.blob
            && (forall p :: p in e'.cells <==> p in e.cells || offset <= p < offset + |chunk|)
            && (forall p :: p in e'.cells ==>
                  e'.cells[p] == if offset <= p < offset + |chunk| then chunk[p - offset] else e.cells[p])
  {
  }

  lemma TaskKeepsInv(u: Upload, e: Entry, k: nat, permits: nat, a: TaskAct)
    requires UploadInv(u, e) && k < |u.tasks| && TaskEnabled(u.tasks[k], permits, a)
    ensures var t := u.tasks[k];
            var u' := u.(tasks := u.tasks[k := TaskDo(t, a)]);
            var e' := if a.Arrive? then Patch(e, t.offset, t.offset + |t.chunk| - 1, t.chunk) else e;
            UploadInv(u', e') && e'.blob == e.blob && (e.blob.Some? ==> e' == e)
  {
    var t := u.tasks[k];
    assert TaskOk(t);
    TaskWithinOffset(u, k);
    TaskKeepsTiling(u, k, a);
    if a.Arrive? {
      PatchCells(e, t.offset, t.chunk);
    }
  }

  lemma TaskKeepsTiling(u: Upload, k: nat, a: TaskAct)
    requires Tiled(u) && k < |u.tasks|
    ensures Tiled(u.(tasks := u.tasks[k := TaskDo(u.tasks[k], a)]))
  {
    var u' := u.(tasks := u.tasks[k := TaskDo(u.tasks[k], a)]);
    forall j | 0 <= j < |u'.tasks|
      ensures TaskTiled(u', j)
    {
      assert TaskTiled(u, j);
    }
  }

  lemma TaskWithinOffset(u: Upload, k: nat)
    requires Tiled(u) && k < |u.tasks|
    ensures u.tasks[k].chunk != []
    ensures u.tasks[k].offset + |u.tasks[k].chunk| <= u.offset
    ensures forall p :: u.tasks[k].offset <= p < u.tasks[k].offset + |u.tasks[k].chunk| ==>
              u.tasks[k].chunk[p - u.tasks[k].offset] == u.stream[p]
  {
    assert TaskTiled(u, k);
    assert (k + 1) * CHUNK_SIZE == k * CHUNK_SIZE + CHUNK_SIZE;
    assert (k + 1) * CHUNK_SIZE <= |u.tasks| * CHUNK_SIZE;
  }

  // ----- whole runs -----

  lemma StepKeepsInv(s: State, st: Step)
    requires Inv(s) && Enabled(s, st)
    ensures Inv(Do(s, st))
  {
    match st
    case Begin(_) =>
    case Own(i, a) => OwnKeepsInv(s.uploads[i], s.server[i], s.tripped, a);
    case OnTask(i, k, a) => TaskKeepsInv(s.uploads[i], s.server[i], k, s.permits, a);
  }

  lemma {:induction false} RunKeepsInv(s: State, steps: seq<Step>)
    requires Inv(s) && Valid(s, steps)
    ensures Inv(Exec(s, steps))
    decreases |steps|
  {
    if steps != [] {
      StepKeepsInv(s, steps[0]);
      RunKeepsInv(Do(s, steps[0]), steps[1..]);
    }
  }

  function ChunksOf(tasks: seq<Task>): (cs: seq<seq<Byte>>)
    ensures |cs| == |tasks|
    ensures forall k :: 0 <= k < |tasks| ==> cs[k] == tasks[k].chunk
  {
    seq(|tasks|, k requires 0 <= k < |tasks| => tasks[k].chunk)
  }

  /** Parallel upload refines sequential upload: when upload_file returns Ok(n), n is the stream length, the tasks
      uploaded exactly the greedy chunks the sequential append loop sends, and the committed blob, which is those
      chunks in order, is the stream byte for byte. */
  lemma ParallelUploadIsSequential(steps: seq<Step>, i: nat)
    requires Valid(INIT, steps) && i < |Exec(INIT, steps).uploads| && i < |Exec(INIT, steps).server|
    requires Exec(INIT, steps).uploads[i].phase.Returned? && Exec(INIT, steps).uploads[i].phase.result.Ok?
    ensures var u := Exec(INIT, steps).uploads[i];
            && u.phase.result.value == |u.stream|
            && ChunksOf(u.tasks) == Chunks(u.stream, CHUNK_SIZE)
            && Exec(INIT, steps).server[i].blob == Some(Flatten(ChunksOf(u.tasks)))
            && Exec(INIT, steps).server[i].blob == Some(u.stream)
  {
    RunKeepsInv(INIT, steps);
    var u := Exec(INIT, steps).uploads[i];
    assert UploadInv(u, Exec(INIT, steps).server[i]);
    var cs := ChunksOf(u.tasks);
    forall k | 0 <= k < |cs|
      ensures k * CHUNK_SIZE < |u.stream| && cs[k] == Tile(u.stream, CHUNK_SIZE, k)
    {
      assert TaskTiled(u, k);
    }
    TilingIsChunks(cs, u.stream, CHUNK_SIZE);
    FlattenChunks(u.stream, CHUNK_SIZE);
  }

  function ChunkBytes(t: Task): nat { |t.chunk| }

  /** Commit safety: wherever a commit request has been sent or a blob committed, every spawned chunk had finished with
      success, the size asked for is the sum of the chunk lengths, and a blob, once there, is the whole stream, even
      when the call itself was told of an error. A call that failed earlier never has a commit. */
  lemma CommitOnlyAfterAllChunks(steps: seq<Step>, i: nat)
    requires Valid(INIT, steps) && i < |Exec(INIT, steps).uploads| && i < |Exec(INIT, steps).server|
    ensures var u, e := Exec(INIT, steps).uploads[i], Exec(INIT, steps).server[i];
            && (e.blob.Some? ==> u.commit.Some? && e.blob == Some(u.stream))
            && (u.commit.Some? ==> AllSucceeded(u) && u.commit.value == Sum(ChunkBytes, u.tasks) == |u.stream|)
            && (u.phase.Returned? && u.phase.result.Err? && u.phase.result.error != CommitFailed ==>
                  u.commit.None? && e.blob.None?)
  {
    RunKeepsInv(INIT, steps);
    RunKeepsEarlyFailures(INIT, steps);
    var u := Exec(INIT, steps).uploads[i];
    assert UploadInv(u, Exec(INIT, steps).server[i]) && EarlyFailure(u);
    if u.commit.Some? {
      ChunkBytesSum(u, |u.tasks|);
      assert u.tasks[..|u.tasks|] == u.tasks;
    }
  }

  predicate EarlyFailure(u: Upload) {
    u.phase.Returned? && u.phase.result.Err? && u.phase.result.error != CommitFailed ==> u.commit.None?
  }

  lemma {:induction false} RunKeepsEarlyFailures(s: State, steps: seq<Step>)
    requires Inv(s) && Valid(s, steps)
    requires forall i :: 0 <= i < |s.uploads| ==> EarlyFailure(s.uploads[i])
    ensures forall i :: 0 <= i < |Exec(s, steps).uploads| ==> EarlyFailure(Exec(s, steps).uploads[i])
    decreases |steps|
  {
    if steps != [] {
      StepKeepsInv(s, steps[0]);
      assert steps[0].Own? ==> UploadInv(s.uploads[steps[0].i], s.server[steps[0].i]);
      RunKeepsEarlyFailures(Do(s, steps[0]), steps[1..]);
    }
  }

  lemma {:induction false} ChunkBytesSum(u: Upload, n: nat)
    requires Tiled(u) && n <= |u.tasks|
    ensures Sum(ChunkBytes, u.tasks[..n]) == Min(n * CHUNK_SIZE, |u.stream|)
  {
    if n > 0 {
      ChunkBytesSum(u, n - 1);
      assert u.tasks[..n] == u.tasks[..n - 1] + [u.tasks[n - 1]];
      SumAppend(ChunkBytes, u.tasks[..n - 1], u.tasks[n - 1]);
      assert TaskTiled(u, n - 1);
      assert n * CHUNK_SIZE == (n - 1) * CHUNK_SIZE + CHUNK_SIZE;
    }
  }

  /** No step of any task or call, detached ones included, changes an entry once it is committed. */
  lemma CommittedEntriesAreFrozen(before: seq<Step>, after: seq<Step>, i: nat)
    requires Valid(INIT, before) && Valid(Exec(INIT, before), after)
    requires i < |Exec(INIT, before).server| && Exec(INIT, before).server[i].blob.Some?
    ensures i < |Exec(Exec(INIT, before), after).server|
    ensures Exec(Exec(INIT, before), after).server[i] == Exec(INIT, before).server[i]
  {
    RunKeepsInv(INIT, before);
    FrozenFrom(Exec(INIT, before), after, i);
  }

  lemma {:induction false} FrozenFrom(s: State, steps: seq<Step>, i: nat)
    requires Inv(s) && Valid(s, steps)
    requires i < |s.server| && s.server[i].blob.Some?
    ensures i < |Exec(s, steps).server| && Exec(s, steps).server[i] == s.server[i]
    decreases |steps|
  {
    if steps != [] {
      StepKeepsInv(s, steps[0]);
      match steps[0] {
        case Begin(_) =>
        case Own(_, _) =>
        case OnTask(j, k, a) => TaskKeepsInv(s.uploads[j], s.server[j], k, s.permits, a);
      }
      FrozenFrom(Do(s, steps[0]), steps[1..], i);
    }
  }
}
