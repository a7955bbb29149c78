/** The negative cache against what is committed: when exactly, in every reachable state, a hash is in both. */
module CacheProtocolProofs {
  import opened Common
  import opened Keys
  import opened CacheProtocol
  import Api

  // ----- the log -----

  /** A hash is in the negative cache if the last insert or remove of it was an insert. */
  predicate LastWasInsert(log: seq<Event>, h: Hash) {
    if log == [] then false else
    var e := log[|log| - 1];
    if e == Inserted(e.who, h) then true
    else if e == Removed(e.who, h) then false
    else LastWasInsert(log[..|log| - 1], h)
  }

  /** The commit of an entry that a lookup for h finds. */
  predicate IsCommit(e: Event, h: Hash) { e.Committed? && InfoBase(h) <= e.key }

  predicate CommittedIn(log: seq<Event>, h: Hash) {
    exists c :: 0 <= c < |log| && IsCommit(log[c], h)
  }

  predicate KeyCommitted(log: seq<Event>, k: string) {
    exists c :: 0 <= c < |log| && log[c] == Committed(log[c].who, k)
  }

  predicate QueriedIn(log: seq<Event>, i: nat, h: Hash) {
    exists q :: 0 <= q < |log| && log[q] == Queried(i, h)
  }

  predicate RemovedAfter(log: seq<Event>, c: nat, h: Hash) {
    exists r :: c < r < |log| && log[r] == Removed(log[r].who, h)
  }

  // ----- the invariant -----

  predicate InfoStage(p: UploadPhase) {
    p == InfoUploading(true) || p == InfoFailed(true) || p == InfoAccepted || p == Done
  }

  predicate NarStage(p: UploadPhase) {
    p == NarUploading(true) || p == NarFailed(true) || p == Done
  }

  /** The commit of a key by an upload: it was reserved for a NAR's path, or for a narinfo that the upload removes from
      the negative cache before it is done. */
  predicate CommitOk(u: Upload, key: string, log: seq<Event>, p: nat) {
    || (!u.job.PutInfo? && Api.Suffixed(NarPath(u.job), key) && (u.job.PutNar? ==> NarStage(u.phase)))
    || (!u.job.PutNar? && Api.Suffixed(InfoBase(HashOf(u.job)), key) && InfoStage(u.phase)
        && (u.phase.Done? ==> RemovedAfter(log, p, HashOf(u.job))))
  }

  predicate EventOk(s: State, p: nat)
    requires p < |s.log|
  {
    match s.log[p]
    case Queried(_, h) => !CommittedIn(s.log[..p], h)
    case Inserted(i, h) => DotFree(h) && QueriedIn(s.log[..p], i, h)
    case Committed(j, key) => j < |s.uploads| && CommitOk(s.uploads[j], key, s.log, p)
    case Removed(_, _) => true
  }

  /** put_nar never reaches the narinfo phases, put_narinfo never the NAR ones, and keys are reserved for their base. */
  predicate UploadFits(u: Upload) {
    && JobPossible(u.job)
    && (u.job.PutNar? ==> !(u.phase.InfoReserve? || u.phase.InfoReserving? || OnInfoKey(u.phase)))
    && (u.job.PutInfo? ==> !(u.phase.NarReserve? || u.phase.NarReserving? || OnNarKey(u.phase)))
    && (OnNarKey(u.phase) ==> Api.Suffixed(NarPath(u.job), u.key))
    && (OnInfoKey(u.phase) ==> Api.Suffixed(InfoBase(HashOf(u.job)), u.key))
  }

  predicate OnNarKey(p: UploadPhase) { p.NarUpload? || AboutNar(p) }

  predicate OnInfoKey(p: UploadPhase) { p.InfoUpload? || p.InfoUploading? || p.InfoAccepted? || p.InfoFailed? }

  predicate LookupOk(l: Lookup, i: nat, log: seq<Event>) {
    DotFree(l.hash) && (l.phase.GotNone? ==> QueriedIn(log, i, l.hash))
  }

  ghost predicate LogInv(s: State) {
    && (forall h :: h in s.negative <==> LastWasInsert(s.log, h))
    && (forall k :: IsKey(s.stored, k) <==> KeyCommitted(s.log, k))
    && (forall p :: 0 <= p < |s.log| ==> EventOk(s, p))
    && (forall i :: 0 <= i < |s.lookups| ==> LookupOk(s.lookups[i], i, s.log))
    && (forall j :: 0 <= j < |s.uploads| ==> UploadFits(s.uploads[j]))
  }

  lemma FoundIsCommitted(s: State, h: Hash)
    requires LogInv(s)
    ensures Found(s.stored, InfoBase(h)) <==> CommittedIn(s.log, h)
  {
    if x :| x in s.stored && InfoBase(h) <= x.key {
      assert IsKey(s.stored, x.key);
      var c :| 0 <= c < |s.log| && s.log[c] == Committed(s.log[c].who, x.key);
      assert IsCommit(s.log[c], h);
    }
    if c :| 0 <= c < |s.log| && IsCommit(s.log[c], h) {
      assert KeyCommitted(s.log, s.log[c].key);
      var x :| x in s.stored && x.key == s.log[c].key;
    }
  }

  lemma LogGrows(log: seq<Event>, e: Event)
    ensures forall k :: KeyCommitted(log + [e], k) <==> KeyCommitted(log, k) || e == Committed(e.who, k)
    ensures forall i, h :: QueriedIn(log, i, h) || e == Queried(i, h) ==> QueriedIn(log + [e], i, h)
    ensures forall c: nat, h ::
              RemovedAfter(log, c, h) || (c < |log| && e == Removed(e.who, h)) ==> RemovedAfter(log + [e], c, h)
    ensures forall h :: LastWasInsert(log + [e], h) <==>
              e == Inserted(e.who, h) || (e != Removed(e.who, h) && LastWasInsert(log, h))
  {
    var log' := log + [e];
    assert log'[..|log|] == log;
    forall k
      ensures KeyCommitted(log', k) <==> KeyCommitted(log, k) || e == Committed(e.who, k)
    {
      if c :| 0 <= c < |log| && log[c] == Committed(log[c].who, k) {
        assert log'[c] == log[c];
      }
      if e == Committed(e.who, k) {
        assert log'[|log|] == e;
      }
    }
    forall i, h | QueriedIn(log, i, h) || e == Queried(i, h)
      ensures QueriedIn(log', i, h)
    {
      if q :| 0 <= q < |log| && log[q] == Queried(i, h) {
        assert log'[q] == log[q];
      } else {
        assert log'[|log|] == e;
      }
    }
    forall c: nat, h | RemovedAfter(log, c, h) || (c < |log| && e == Removed(e.who, h))
      ensures RemovedAfter(log', c, h)
    {
      if r :| c < r < |log| && log[r] == Removed(log[r].who, h) {
        assert log'[r] == log[r];
      } else {
        assert log'[|log|] == e;
      }
    }
  }

  lemma KeysGrow(stored: set<Entry>, x: Entry)
    ensures forall k :: IsKey(stored + {x}, k) <==> IsKey(stored, k) || x.key == k
  {
    forall k
      ensures IsKey(stored + {x}, k) <==> IsKey(stored, k) || x.key == k
    {
      if y :| y in stored && y.key == k {
        assert y in stored + {x};
      }
      if x.key == k {
        assert x in stored + {x};
      }
    }
  }

  // ----- one step -----

  lemma LookKeepsLog(s: State, i: nat, a: LookupAct)
    requires LogInv(s) && i < |s.lookups| && LookEnabled(s, s.lookups[i], a)
    ensures LogInv(LookDo(s, i, a))
  {
    var s' := LookDo(s, i, a);
    assert LookupOk(s.lookups[i], i, s.log);
    if s'.log != s.log {
      FoundIsCommitted(s, s.lookups[i].hash);
      LogGrows(s.log, s'.log[|s.log|]);
    }
    forall p | 0 <= p < |s'.log|
      ensures EventOk(s', p)
    {
      if p < |s.log| {
        assert EventOk(s, p);
        assert s'.log[..p] == s.log[..p];
      } else {
        assert s'.log[..p] == s.log;
      }
    }
  }

  /** A commit stays in order through every later step of its upload. */
  lemma UpKeepsCommit(s: State, j: nat, a: UploadAct, key: string, p: nat)
    requires j < |s.uploads| && UpEnabled(s, s.uploads[j], a) && UploadFits(s.uploads[j])
    requires p < |s.log| && CommitOk(s.uploads[j], key, s.log, p)
    ensures CommitOk(UpDo(s, j, a).uploads[j], key, UpDo(s, j, a).log, p)
  {
    var s' := UpDo(s, j, a);
    if s'.log != s.log {
      LogGrows(s.log, s'.log[|s.log|]);
    }
  }

  /** What an upload commits when it arrives. */
  lemma ArrivedCommitOk(s: State, j: nat)
    requires j < |s.uploads| && UpEnabled(s, s.uploads[j], Arrive) && UploadFits(s.uploads[j])
    ensures CommitOk(UpDo(s, j, Arrive).uploads[j], s.uploads[j].key, UpDo(s, j, Arrive).log, |s.log|)
  {
  }

  lemma UpKeepsUpload(s: State, j: nat, a: UploadAct)
    requires j < |s.uploads| && UpEnabled(s, s.uploads[j], a) && UploadFits(s.uploads[j])
    ensures UploadFits(UpDo(s, j, a).uploads[j])
  {
    if a.ReserveOk? {
      Api.AddSuffix(NarPath(s.uploads[j].job), a.nonce);
      Api.AddSuffix(InfoBase(HashOf(s.uploads[j].job)), a.nonce);
    }
  }

  lemma UpKeepsEvents(s: State, j: nat, a: UploadAct)
    requires LogInv(s) && j < |s.uploads| && UpEnabled(s, s.uploads[j], a)
    ensures forall p :: 0 <= p < |UpDo(s, j, a).log| ==> EventOk(UpDo(s, j, a), p)
  {
    var s' := UpDo(s, j, a);
    assert UploadFits(s.uploads[j]);
    if s'.log != s.log {
      LogGrows(s.log, s'.log[|s.log|]);
    }
    forall p | 0 <= p < |s'.log|
      ensures EventOk(s', p)
    {
      if p == |s.log| {
        if a.Arrive? {
          ArrivedCommitOk(s, j);
        }
      } else {
        assert EventOk(s, p);
        assert s'.log[..p] == s.log[..p];
        if s.log[p].Committed? && s.log[p].who == j {
          UpKeepsCommit(s, j, a, s.log[p].key, p);
        }
      }
    }
  }

  lemma UpKeepsLog(s: State, j: nat, a: UploadAct)
    requires LogInv(s) && j < |s.uploads| && UpEnabled(s, s.uploads[j], a)
    ensures LogInv(UpDo(s, j, a))
  {
    var s' := UpDo(s, j, a);
    assert UploadFits(s.uploads[j]);
    UpKeepsEvents(s, j, a);
    UpKeepsUpload(s, j, a);
    if s'.log != s.log {
      LogGrows(s.log, s'.log[|s.log|]);
      KeysGrow(s.stored, EntryOf(s.uploads[j]));
    }
  }

  lemma StepKeepsLog(s: State, st: Step)
    requires LogInv(s) && Enabled(s, st)
    ensures LogInv(Do(s, st))
  {
    match st
    case Look(i, a) => LookKeepsLog(s, i, a);
    case Up(j, a) => UpKeepsLog(s, j, a);
    case _ =>
      forall p | 0 <= p < |s.log|
        ensures EventOk(Do(s, st), p)
      {
        assert EventOk(s, p);
      }
  }

  lemma {:induction false} RunKeepsLog(s: State, steps: seq<Step>)
    requires LogInv(s) && Valid(s, steps)
    ensures LogInv(Exec(s, steps))
    decreases |steps|
  {
    if steps != [] {
      StepKeepsLog(s, steps[0]);
      RunKeepsLog(Do(s, steps[0]), steps[1..]);
    }
  }

  // ----- staleness -----

  /** In the negative cache although a lookup would find an entry. */
  predicate Stale(s: State, h: Hash) {
    h in s.negative && Found(s.stored, InfoBase(h))
  }

  /** An insert that no remove has followed, and the first commit of an entry that a lookup finds. */
  predicate InsertedAt(log: seq<Event>, h: Hash, p: nat, c: nat) {
    && p < |log| && log[p] == Inserted(log[p].who, h) && !RemovedAfter(log, p, h)
    && c < |log| && IsCommit(log[c], h) && !CommittedIn(log[..c], h)
  }

  /** A lookup asked before the first commit and inserted after it, with no remove since. */
  predicate LateInsert(log: seq<Event>, h: Hash) {
    exists q, c, p :: 0 <= q < c < p < |log| && InsertedAt(log, h, p, c) && log[q] == Queried(log[p].who, h)
  }

  /** The hash was inserted before the first commit, with no remove since. */
  predicate EarlyInsert(log: seq<Event>, h: Hash) {
    exists c, p :: 0 <= p < c < |log| && InsertedAt(log, h, p, c)
  }

  /** Upload j is a narinfo upload for h in this phase. */
  predicate UploaderIn(s: State, h: Hash, p: UploadPhase) {
    exists j :: 0 <= j < |s.uploads| && s.uploads[j].phase == p && !s.uploads[j].job.PutNar?
                && HashOf(s.uploads[j].job) == h
  }

  /** An uploader whose entry is committed but which has not yet removed the hash. */
  predicate RemovePending(s: State, h: Hash) {
    UploaderIn(s, h, InfoUploading(true)) || UploaderIn(s, h, InfoAccepted)
  }

  /** An uploader that was told of a failure although its entry was committed; it will never remove the hash. */
  predicate CommitLost(s: State, h: Hash) {
    UploaderIn(s, h, InfoFailed(true))
  }

  /** A NAR put, and committed, under a path that starts with the narinfo's name; it will never remove the hash. */
  predicate ForeignPut(s: State, h: Hash) {
    exists j :: 0 <= j < |s.uploads| && s.uploads[j].job.PutNar? && InfoBase(h) <= s.uploads[j].job.path
                && NarStage(s.uploads[j].phase)
  }

  lemma {:induction false} LastInsert(log: seq<Event>, h: Hash) returns (p: nat)
    requires LastWasInsert(log, h)
    ensures p < |log| && log[p] == Inserted(log[p].who, h) && !RemovedAfter(log, p, h)
  {
    var n := |log| - 1;
    if log[n] == Inserted(log[n].who, h) {
      p := n;
    } else {
      p := LastInsert(log[..n], h);
      assert forall r :: p < r < n ==> log[..n][r] == log[r];
    }
  }

  lemma {:induction false} InsertStays(log: seq<Event>, h: Hash, p: nat)
    requires p < |log| && log[p] == Inserted(log[p].who, h) && !RemovedAfter(log, p, h)
    ensures LastWasInsert(log, h)
    decreases |log|
  {
    var n := |log| - 1;
    if p < n {
      assert log[n] != Removed(log[n].who, h);
      assert log[..n][p] == log[p];
      assert forall r :: p < r < n ==> log[..n][r] == log[r];
      InsertStays(log[..n], h, p);
    }
  }

  lemma {:induction false} FirstCommit(log: seq<Event>, h: Hash) returns (c: nat)
    requires CommittedIn(log, h)
    ensures c < |log| && IsCommit(log[c], h) && !CommittedIn(log[..c], h)
  {
    var n := |log| - 1;
    if CommittedIn(log[..n], h) {
      c := FirstCommit(log[..n], h);
      assert log[..n][..c] == log[..c];
    } else {
      c := n;
    }
  }

  /** Staleness of the negative cache, exactly, in every reachable interleaved state: a hash is both negative and committed
      if and only if a lookup asked before the first commit and inserted after it, or the insert came before the first
      commit, in either case with no remove since. In the second case the remove is still to come, or never will because
      the commit was reported as an error or a NAR was put under the narinfo's name. */
  lemma StalenessIsExact(steps: seq<Step>, h: Hash)
    requires Valid(INIT, steps)
    ensures var s := Exec(INIT, steps);
            && (Stale(s, h) <==> LateInsert(s.log, h) || EarlyInsert(s.log, h))
            && (EarlyInsert(s.log, h) ==> RemovePending(s, h) || CommitLost(s, h) || ForeignPut(s, h))
  {
    RunKeepsLog(INIT, steps);
    var s := Exec(INIT, steps);
    FoundIsCommitted(s, h);
    if Stale(s, h) {
      StaleHasInsert(s, h);
    }
    if q, c, p :| 0 <= q < c < p < |s.log| && InsertedAt(s.log, h, p, c) && s.log[q] == Queried(s.log[p].who, h) {
      InsertStays(s.log, h, p);
    }
    if c, p :| 0 <= p < c < |s.log| && InsertedAt(s.log, h, p, c) {
      InsertStays(s.log, h, p);
      EarlyInsertHasCause(s, h, p, c);
    }
  }

  lemma StaleHasInsert(s: State, h: Hash)
    requires LogInv(s) && Stale(s, h)
    ensures LateInsert(s.log, h) || EarlyInsert(s.log, h)
  {
    FoundIsCommitted(s, h);
    var c := FirstCommit(s.log, h);
    var p := LastInsert(s.log, h);
    assert InsertedAt(s.log, h, p, c);
    assert EventOk(s, p);
    if c < p {
      var q :| 0 <= q < |s.log[..p]| && s.log[..p][q] == Queried(s.log[p].who, h);
      assert s.log[q] == s.log[..p][q];
      assert EventOk(s, q);
      assert forall k :: 0 <= k < q ==> s.log[..q][k] == s.log[k];
    }
  }

  /** The upload of the first commit has not removed the hash since. */
  lemma EarlyInsertHasCause(s: State, h: Hash, p: nat, c: nat)
    requires LogInv(s) && p < c && InsertedAt(s.log, h, p, c)
    ensures RemovePending(s, h) || CommitLost(s, h) || ForeignPut(s, h)
  {
    assert EventOk(s, p) && EventOk(s, c);
    var j := s.log[c].who;
    var u := s.uploads[j];
    assert UploadFits(u);
    FinderIsItsOwn(u.job, h, s.log[c].key);
    if !u.job.PutNar? {
      assert !RemovedAfter(s.log, c, h);
    }
  }

  /** Of the keys an upload reserves, a lookup for h finds only the narinfo of h and a NAR put under its name. */
  lemma FinderIsItsOwn(job: Job, h: Hash, key: string)
    requires JobPossible(job) && DotFree(h) && InfoBase(h) <= key
    ensures !job.PutInfo? && Api.Suffixed(NarPath(job), key) ==> job.PutNar? && InfoBase(h) <= job.path
    ensures !job.PutNar? && Api.Suffixed(InfoBase(HashOf(job)), key) ==> HashOf(job) == h
  {
    if !job.PutInfo? && Api.Suffixed(NarPath(job), key) {
      if job.PutNar? {
        InfoLookupOfAnyPath(h, job.path, key);
      } else {
        NarKeyIsNoInfo(h, job.nar, key);
      }
    }
    if !job.PutNar? && Api.Suffixed(InfoBase(HashOf(job)), key) {
      InfoLookupIsExact(h, HashOf(job), key);
    }
  }

  lemma NarKeyIsNoInfo(h: Hash, nar: string, key: string)
    requires DotFree(h) && DotFree(nar) && Api.Suffixed(NarBase(nar), key)
    ensures !(InfoBase(h) <= key)
  {
    Api.AddSuffix(InfoBase(nar), "0000");
    KindsNeverMix(h, nar, key, InfoBase(nar) + "-" + "0000");
  }

  // ----- the ways to a stale hash -----

  lemma {:induction false} Extend(s: State, steps: seq<Step>, st: Step) returns (longer: seq<Step>)
    requires Valid(s, steps) && Enabled(Exec(s, steps), st)
    ensures longer == steps + [st]
    ensures Valid(s, longer) && Exec(s, longer) == Do(Exec(s, steps), st)
    decreases |steps|
  {
    longer := steps + [st];
    if steps == [] {
      assert longer[1..] == [];
    } else {
      var rest := Extend(Do(s, steps[0]), steps[1..], st);
      assert longer[1..] == rest;
    }
  }

  const KEY := InfoBase("h") + "-" + "0000"

  /** The lookup has asked and been told there is no entry. */
  const ASKED := INIT.(lookups := [Lookup("h", GotNone)], log := [Queried(0, "h")])

  /** Then a put has committed, succeeded and removed. */
  const STORED := ASKED.(
    uploads := [Upload(PutInfo("h"), Done, KEY)], stored := {Entry(KEY, None)},
    log := [Queried(0, "h"), Committed(0, KEY), Removed(0, "h")])

  lemma RaceAsks() returns (steps: seq<Step>)
    ensures Valid(INIT, steps) && Exec(INIT, steps) == ASKED
  {
    steps := Extend(INIT, [], NewLookup("h"));
    steps := Extend(INIT, steps, Look(0, CheckNegative));
    steps := Extend(INIT, steps, Look(0, Gate));
    steps := Extend(INIT, steps, Look(0, Evaluate(None)));
  }

  const UPLOADING := ASKED.(uploads := [Upload(PutInfo("h"), InfoUploading(false), KEY)])

  lemma RaceUploads() returns (steps: seq<Step>)
    ensures Valid(INIT, steps) && Exec(INIT, steps) == UPLOADING
  {
    steps := RaceAsks();
    steps := Extend(INIT, steps, NewUpload(PutInfo("h")));
    steps := Extend(INIT, steps, Up(0, PassGate));
    steps := Extend(INIT, steps, Up(0, ReserveOk("0000")));
    steps := Extend(INIT, steps, Up(0, PassGate));
  }

  lemma RaceStores() returns (steps: seq<Step>)
    ensures Valid(INIT, steps) && Exec(INIT, steps) == STORED
  {
    steps := RaceUploads();
    steps := Extend(INIT, steps, Up(0, Arrive));
    steps := Extend(INIT, steps, Up(0, UploadOk));
    steps := Extend(INIT, steps, Up(0, Remove));
  }

  /** Lookup 0 asks before upload 0 commits and inserts after it has removed: both are finished, nothing failed, and the
      hash stays in the negative cache although its entry is there. */
  lemma RaceLeavesStaleHash() returns (steps: seq<Step>)
    ensures Valid(INIT, steps) && Stale(Exec(INIT, steps), "h")
    ensures Exec(INIT, steps).uploads == [Upload(PutInfo("h"), Done, KEY)]
    ensures Exec(INIT, steps).lookups == [Lookup("h", Finished(MissUpstream))]
  {
    steps := RaceStores();
    assert Entry(KEY, None) in STORED.stored;
    steps := Extend(INIT, steps, Look(0, Insert));
    steps := Extend(INIT, steps, Look(0, CountUpstream));
    steps := Extend(INIT, steps, Look(0, CountEnding));
  }

  /** The lookup is over and the hash negative. */
  const MISSED := INIT.(
    lookups := [Lookup("h", Finished(MissUpstream))], negative := {"h"}, log := [Queried(0, "h"), Inserted(0, "h")],
    metrics := Metrics(0, 1, 0, 1))

  lemma LookupMisses() returns (steps: seq<Step>)
    ensures Valid(INIT, steps) && Exec(INIT, steps) == MISSED
  {
    steps := RaceAsks();
    steps := Extend(INIT, steps, Look(0, Insert));
    steps := Extend(INIT, steps, Look(0, CountUpstream));
    steps := Extend(INIT, steps, Look(0, CountEnding));
  }

  const PUTTING := MISSED.(uploads := [Upload(PutInfo("h"), InfoUploading(false), KEY)])

  lemma PutStarts() returns (steps: seq<Step>)
    ensures Valid(INIT, steps) && Exec(INIT, steps) == PUTTING
  {
    steps := LookupMisses();
    steps := Extend(INIT, steps, NewUpload(PutInfo("h")));
    steps := Extend(INIT, steps, Up(0, PassGate));
    steps := Extend(INIT, steps, Up(0, ReserveOk("0000")));
    steps := Extend(INIT, steps, Up(0, PassGate));
  }

  /** The hash negative, and an entry for it committed afterwards by upload u. */
  function After(u: Upload): State {
    MISSED.(uploads := [u], stored := {Entry(KEY, None)},
            log := [Queried(0, "h"), Inserted(0, "h"), Committed(0, KEY)])
  }

  lemma StaleAfter(u: Upload)
    ensures Stale(After(u), "h") && !LateInsert(After(u).log, "h")
  {
    assert Entry(KEY, None) in After(u).stored;
    assert |After(u).log| == 3 && After(u).log[2].Committed?;
  }

  /** One call after the other, with no race: the put's commit is carried out but answered with an error, and the hash
      stays in the negative cache although its entry is there. */
  lemma LostAnswerLeavesStaleHash() returns (steps: seq<Step>)
    ensures Valid(INIT, steps) && Stale(Exec(INIT, steps), "h") && !LateInsert(Exec(INIT, steps).log, "h")
    ensures Exec(INIT, steps).uploads == [Upload(PutInfo("h"), InfoFailed(true), KEY)]
  {
    steps := PutStarts();
    steps := Extend(INIT, steps, Up(0, Arrive));
    steps := Extend(INIT, steps, Up(0, UploadError));
    assert Exec(INIT, steps) == After(Upload(PutInfo("h"), InfoFailed(true), KEY));
    StaleAfter(Upload(PutInfo("h"), InfoFailed(true), KEY));
  }

  const NAR_JOB := PutNar(InfoBase("h"))

  const FOREIGN := MISSED.(uploads := [Upload(NAR_JOB, NarUploading(false), KEY)])

  lemma ForeignPutStarts() returns (steps: seq<Step>)
    ensures Valid(INIT, steps) && Exec(INIT, steps) == FOREIGN
  {
    steps := LookupMisses();
    steps := Extend(INIT, steps, NewUpload(NAR_JOB));
    steps := Extend(INIT, steps, Up(0, PassGate));
    steps := Extend(INIT, steps, Up(0, ReserveOk("0000")));
    steps := Extend(INIT, steps, Up(0, PassGate));
  }

  /** Nothing races and nothing fails: a NAR is put under the path "h.narinfo", which a lookup for h would find, and the
      hash stays in the negative cache. */
  lemma ForeignPutLeavesStaleHash() returns (steps: seq<Step>)
    ensures Valid(INIT, steps) && Stale(Exec(INIT, steps), "h") && !LateInsert(Exec(INIT, steps).log, "h")
    ensures Exec(INIT, steps).uploads == [Upload(PutNar("h.narinfo"), Done, KEY)]
  {
    steps := ForeignPutStarts();
    steps := Extend(INIT, steps, Up(0, Arrive));
    steps := Extend(INIT, steps, Up(0, UploadOk));
    assert Exec(INIT, steps) == After(Upload(NAR_JOB, Done, KEY));
    StaleAfter(Upload(NAR_JOB, Done, KEY));
    assert InfoBase("h") == "h.narinfo";
  }
}
