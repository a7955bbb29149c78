/** The daemon's concurrent cache protocol as a step machine: narinfo lookups, NAR lookups and uploads (the worker's and
    the HTTP clients') interleave at every backend call, lock and counter, over the keys the backend really sees. A
    request may be lost, answered with an error after it was carried out, or carried out late; the breaker may trip at
    any moment. */
module CacheProtocol {
  import opened Common
  import opened Keys
  import Api

  type Hash = string

  // ----- lookups -----

  datatype Ending = Served(key: string) | HitUpstream | MissUpstream | Failed

  datatype LookupPhase =
    | Arrived | Checked | Querying | GotUrl(key: string) | GotNone
    | HitNoted | HitCounting | MissNoted | MissCounting | Finished(ending: Ending)

  datatype Lookup = Lookup(hash: Hash, phase: LookupPhase)

  datatype LookupAct =
    | CheckNegative | Gate | Evaluate(answer: Option<string>) | QueryError | Serve | Insert
    | CountUpstream | CountEnding

  /** get_nar, whose upstream redirect and "not found" are one ending here. */
  datatype NarEnding = Redirected(key: string) | Absent | NarQueryFailed

  datatype NarPhase = NarArrived | NarQuerying | NarAnswered(answer: Option<string>) | NarFinished(ending: NarEnding)

  datatype NarLookup = NarLookup(path: string, phase: NarPhase)

  datatype NarAct = NarGate | NarEvaluate(answer: Option<string>) | NarError | NarReply

  // ----- uploads -----

  /** upload_path for a store path and its NAR's hash, put_narinfo, or put_nar, which takes any path. */
  datatype Job = StorePath(hash: Hash, nar: string) | PutInfo(hash: Hash) | PutNar(path: string)

  datatype UploadPhase =
    | NarReserve | NarReserving | NarUpload | NarUploading(arrived: bool)
    | InfoReserve | InfoReserving | InfoUpload | InfoUploading(arrived: bool) | InfoAccepted
    | Done | GaveUp | NarFailed(arrived: bool) | InfoFailed(arrived: bool)

  /** `key` is the last one reserved. */
  datatype Upload = Upload(job: Job, phase: UploadPhase, key: string)

  datatype UploadAct =
    | PassGate | ReserveOk(nonce: string) | ReserveCollision | ReserveError
    | Arrive | UploadOk | UploadError | Remove

  // ----- state -----

  /** A committed entry; `url` is what its content gives as URL if it is a narinfo the daemon wrote. */
  datatype Entry = Entry(key: string, url: Option<string>)

  datatype Event =
    | Queried(who: nat, hash: Hash)  // the backend answered that it has no entry
    | Inserted(who: nat, hash: Hash)
    | Committed(who: nat, key: string)
    | Removed(who: nat, hash: Hash)

  datatype Metrics = Metrics(served: nat, sentUpstream: nat, hits: nat, misses: nat)

  datatype State = State(
    tripped: bool, negative: set<Hash>, stored: set<Entry>, lookups: seq<Lookup>, narLookups: seq<NarLookup>,
    uploads: seq<Upload>, log: seq<Event>, metrics: Metrics)

  const INIT := State(false, {}, {}, [], [], [], [], Metrics(0, 0, 0, 0))

  predicate IsKey(stored: set<Entry>, k: string) {
    exists x :: x in stored && x.key == k
  }

  /** A prefix lookup finds something. */
  predicate Found(stored: set<Entry>, prefix: string) {
    exists x :: x in stored && prefix <= x.key
  }

  predicate IsAnswer(stored: set<Entry>, prefix: string, answer: Option<string>) {
    match answer
    case Some(k) => IsKey(stored, k) && prefix <= k
    case None => !Found(stored, prefix)
  }

  /** The inserting lookup keeps the write guard until it returns. */
  predicate Writing(l: Lookup) { l.phase.MissNoted? || l.phase.MissCounting? }

  predicate Unlocked(s: State) {
    forall i :: 0 <= i < |s.lookups| ==> !Writing(s.lookups[i])
  }

  // ----- steps -----

  datatype Step =
    | NewLookup(hash: Hash) | NewNarLookup(path: string) | NewUpload(job: Job) | Trip
    | Look(i: nat, lookAct: LookupAct) | NarLook(n: nat, narAct: NarAct) | Up(j: nat, upAct: UploadAct)

  /** The handlers split the path at its first dot, and the hashes of store paths and NARs have none. */
  predicate JobPossible(job: Job) {
    match job
    case StorePath(h, nar) => DotFree(h) && DotFree(nar)
    case PutInfo(h) => DotFree(h)
    case PutNar(_) => true
  }

  predicate LookEnabled(s: State, l: Lookup, a: LookupAct) {
    match a
    case CheckNegative => l.phase.Arrived? && Unlocked(s)
    case Gate => l.phase.Checked?
    case Evaluate(answer) => l.phase.Querying? && IsAnswer(s.stored, InfoBase(l.hash), answer)
    case QueryError => l.phase.Querying?
    case Serve => l.phase.GotUrl?
    case Insert => l.phase.GotNone? && Unlocked(s)
    case CountUpstream => l.phase.HitNoted? || l.phase.MissNoted?
    case CountEnding => l.phase.HitCounting? || l.phase.MissCounting?
  }

  function LookNext(s: State, l: Lookup, a: LookupAct): LookupPhase {
    match a
    case CheckNegative => if l.hash in s.negative then HitNoted else Checked
    case Gate => if s.tripped then Finished(Failed) else Querying
    case Evaluate(answer) => if answer.Some? then GotUrl(answer.value) else GotNone
    case QueryError => Finished(Failed)
    case Serve => Finished(if l.phase.GotUrl? then Served(l.phase.key) else Failed)
    case Insert => MissNoted
    case CountUpstream => if l.phase.HitNoted? then HitCounting else MissCounting
    case CountEnding => Finished(if l.phase.HitCounting? then HitUpstream else MissUpstream)
  }

  predicate NarEnabled(s: State, l: NarLookup, a: NarAct) {
    match a
    case NarGate => l.phase.NarArrived?
    case NarEvaluate(answer) => l.phase.NarQuerying? && IsAnswer(s.stored, l.path, answer)
    case NarError => l.phase.NarQuerying?
    case NarReply => l.phase.NarAnswered?
  }

  function NarNext(tripped: bool, l: NarLookup, a: NarAct): NarPhase {
    match a
    case NarGate => if tripped then NarFinished(NarQueryFailed) else NarQuerying
    case NarEvaluate(answer) => NarAnswered(answer)
    case NarError => NarFinished(NarQueryFailed)
    case NarReply =>
      NarFinished(if l.phase.NarAnswered? && l.phase.answer.Some? then Redirected(l.phase.answer.value) else Absent)
  }

  predicate UpEnabled(s: State, u: Upload, a: UploadAct) {
    match a
    case PassGate => u.phase.NarReserve? || u.phase.NarUpload? || u.phase.InfoReserve? || u.phase.InfoUpload?
    case ReserveOk(nonce) => (u.phase.NarReserving? || u.phase.InfoReserving?) && Api.Nonce(nonce)
    case ReserveCollision | ReserveError => u.phase.NarReserving? || u.phase.InfoReserving?
    case Arrive =>
      || u.phase == NarUploading(false) || u.phase == NarFailed(false)
      || u.phase == InfoUploading(false) || u.phase == InfoFailed(false)
    case UploadOk => u.phase == NarUploading(true) || u.phase == InfoUploading(true)
    case UploadError => u.phase.NarUploading? || u.phase.InfoUploading?
    case Remove => u.phase.InfoAccepted? && Unlocked(s)
  }

  function UpNext(tripped: bool, u: Upload, a: UploadAct): UploadPhase {
    match a
    case PassGate =>
      if tripped then GaveUp
      else if u.phase.NarReserve? then NarReserving
      else if u.phase.NarUpload? then NarUploading(false)
      else if u.phase.InfoReserve? then InfoReserving
      else InfoUploading(false)
    case ReserveOk(_) => if u.phase.NarReserving? then NarUpload else InfoUpload
    case ReserveCollision => if u.phase.NarReserving? then NarReserve else InfoReserve
    case ReserveError => GaveUp
    case Arrive =>
      if u.phase.NarUploading? then NarUploading(true)
      else if u.phase.NarFailed? then NarFailed(true)
      else if u.phase.InfoUploading? then InfoUploading(true)
      else InfoFailed(true)
    case UploadOk =>
      if u.phase.InfoUploading? then InfoAccepted
      else if u.job.StorePath? then InfoReserve
      else Done
    case UploadError =>
      if u.phase.NarUploading? then NarFailed(u.phase.arrived)
      else if u.phase.InfoUploading? then InfoFailed(u.phase.arrived)
      else GaveUp
    case Remove => Done
  }

  predicate AboutNar(p: UploadPhase) { p.NarUploading? || p.NarFailed? }

  function HashOf(job: Job): Hash { if job.PutNar? then "" else job.hash }

  /** The path the NAR goes under. */
  function NarPath(job: Job): string {
    match job
    case StorePath(_, nar) => NarBase(nar)
    case PutNar(path) => path
    case PutInfo(_) => ""
  }

  function KeyAfter(u: Upload, a: UploadAct): string {
    if a.ReserveOk? then (if u.phase.NarReserving? then NarPath(u.job) else InfoBase(HashOf(u.job))) + "-" + a.nonce
    else u.key
  }

  /** What the upload stores: the NAR, a narinfo of the daemon's with the URL of that NAR, or a client's narinfo. */
  function EntryOf(u: Upload): Entry {
    Entry(u.key, if u.job.StorePath? && !AboutNar(u.phase) then Some("nar/" + NarPath(u.job)) else None)
  }

  function FirstPhase(job: Job): UploadPhase {
    if job.PutInfo? then InfoReserve else NarReserve
  }

  predicate Enabled(s: State, st: Step) {
    match st
    case Look(i, a) => i < |s.lookups| && LookEnabled(s, s.lookups[i], a)
    case Up(j, a) => j < |s.uploads| && UpEnabled(s, s.uploads[j], a)
    case NarLook(n, a) => n < |s.narLookups| && NarEnabled(s, s.narLookups[n], a)
    case NewLookup(h) => DotFree(h)
    case NewUpload(job) => JobPossible(job)
    case NewNarLookup(_) => true
    case Trip => true
  }

  function LookMetrics(m: Metrics, l: Lookup, a: LookupAct): Metrics {
    match a
    case Serve => m.(served := m.served + 1)
    case CountUpstream => m.(sentUpstream := m.sentUpstream + 1)
    case CountEnding => if l.phase.HitCounting? then m.(hits := m.hits + 1) else m.(misses := m.misses + 1)
    case _ => m
  }

  function LookDo(s: State, i: nat, a: LookupAct): State
    requires i < |s.lookups|
  {
    var l := s.lookups[i];
    var next := LookNext(s, l, a);
    s.(lookups := s.lookups[i := l.(phase := next)],
       metrics := LookMetrics(s.metrics, l, a),
       negative := if a.Insert? then s.negative + {l.hash} else s.negative,
       log := if a.Insert? then s.log + [Inserted(i, l.hash)]
              else if a.Evaluate? && next.GotNone? then s.log + [Queried(i, l.hash)]
              else s.log)
  }

  function UpDo(s: State, j: nat, a: UploadAct): State
    requires j < |s.uploads|
  {
    var u := s.uploads[j];
    var s' := s.(uploads := s.uploads[j := u.(phase := UpNext(s.tripped, u, a), key := KeyAfter(u, a))]);
    if a.Arrive? then
      s'.(stored := s.stored + {EntryOf(u)}, log := s.log + [Committed(j, u.key)])
    else if a.Remove? then
      s'.(negative := s.negative - {HashOf(u.job)}, log := s.log + [Removed(j, HashOf(u.job))])
    else s'
  }

  function Do(s: State, st: Step): State
    requires Enabled(s, st)
  {
    match st
    case NewLookup(h) => s.(lookups := s.lookups + [Lookup(h, Arrived)])
    case NewNarLookup(path) => s.(narLookups := s.narLookups + [NarLookup(path, NarArrived)])
    case NewUpload(job) => s.(uploads := s.uploads + [Upload(job, FirstPhase(job), "")])
    case Trip => s.(tripped := true)
    case Look(i, a) => LookDo(s, i, a)
    case NarLook(n, a) =>
      var l := s.narLookups[n];
      s.(narLookups := s.narLookups[n := l.(phase := NarNext(s.tripped, l, a))])
    case Up(j, a) => UpDo(s, j, a)
  }

  // ----- runs -----

  predicate Valid(s: State, steps: seq<Step>)
    decreases |steps|
  {
    steps == [] || (Enabled(s, steps[0]) && Valid(Do(s, steps[0]), steps[1..]))
  }

  function Exec(s: State, steps: seq<Step>): State
    requires Valid(s, steps)
    decreases |steps|
  {
    if steps == [] then s else Exec(Do(s, steps[0]), steps[1..])
  }
}
