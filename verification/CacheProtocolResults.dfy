/** What the daemon serves and counts, and what a tripped breaker stops, in every run of the cache protocol. */
module CacheProtocolResults {
  import opened Common
  import opened Keys
  import opened CacheProtocol
  import opened CacheProtocolProofs
  import Api

  // ----- a committed narinfo has its NAR -----

  predicate AfterNarArrived(p: UploadPhase) {
    p == NarUploading(true) || p.InfoReserve? || p.InfoReserving? || OnInfoKey(p)
  }

  /** An entry stored for exactly this path. */
  predicate HasEntryFor(stored: set<Entry>, path: string) {
    exists x :: x in stored && Api.Suffixed(path, x.key)
  }

  /** The URL is "nar/<hash>.nar.zstd", and that path has its entry. */
  ghost predicate UrlServed(stored: set<Entry>, url: string) {
    "nar/" <= url && HasEntryFor(stored, url[4..]) && exists nar :: DotFree(nar) && url[4..] == NarBase(nar)
  }

  predicate NarStored(stored: set<Entry>, u: Upload) {
    u.job.StorePath? && AfterNarArrived(u.phase) ==> HasEntryFor(stored, NarPath(u.job))
  }

  ghost predicate NarInv(s: State) {
    && (forall x :: x in s.stored && x.url.Some? ==> UrlServed(s.stored, x.url.value))
    && (forall j :: 0 <= j < |s.uploads| ==> NarStored(s.stored, s.uploads[j]) && UploadFits(s.uploads[j]))
  }

  lemma EntriesStay(stored: set<Entry>, x: Entry)
    ensures forall path :: HasEntryFor(stored, path) || Api.Suffixed(path, x.key) ==> HasEntryFor(stored + {x}, path)
  {
    forall path | HasEntryFor(stored, path) || Api.Suffixed(path, x.key)
      ensures HasEntryFor(stored + {x}, path)
    {
      if y :| y in stored && Api.Suffixed(path, y.key) {
        assert y in stored + {x};
      } else {
        assert x in stored + {x};
      }
    }
  }

  lemma UpKeepsNars(s: State, j: nat, a: UploadAct)
    requires NarInv(s) && j < |s.uploads| && UpEnabled(s, s.uploads[j], a)
    ensures NarInv(UpDo(s, j, a))
  {
    var u := s.uploads[j];
    assert NarStored(s.stored, u) && UploadFits(u);
    UpKeepsUpload(s, j, a);
    EntriesStay(s.stored, EntryOf(u));
    if a.Arrive? && EntryOf(u).url.Some? {
      assert ("nar/" + NarPath(u.job))[4..] == NarPath(u.job);
    }
  }

  lemma {:induction false} RunKeepsNars(s: State, steps: seq<Step>)
    requires NarInv(s) && Valid(s, steps)
    ensures NarInv(Exec(s, steps))
    decreases |steps|
  {
    if steps != [] {
      if steps[0].Up? {
        UpKeepsNars(s, steps[0].j, steps[0].upAct);
      }
      RunKeepsNars(Do(s, steps[0]), steps[1..]);
    }
  }

  /** In every reachable state a narinfo the daemon wrote has a URL "nar/<hash>.nar.zstd" whose NAR is stored already. */
  lemma NarinfoHasItsNar(steps: seq<Step>, x: Entry)
    requires Valid(INIT, steps)
    requires x in Exec(INIT, steps).stored && x.url.Some?
    ensures UrlServed(Exec(INIT, steps).stored, x.url.value)
  {
    RunKeepsNars(INIT, steps);
  }

  /** Not answered by the backend yet. */
  predicate Unanswered(l: NarLookup) { l.phase.NarArrived? || l.phase.NarQuerying? }

  /** Not answered, or answered with an entry, never with none. */
  predicate FindsOrWaits(stored: set<Entry>, l: NarLookup) {
    match l.phase
    case NarArrived | NarQuerying => true
    case NarAnswered(answer) => answer.Some? && IsAnswer(stored, l.path, answer)
    case NarFinished(ending) => ending.Redirected? && IsAnswer(stored, l.path, Some(ending.key))
  }

  lemma KeysStay(stored: set<Entry>, stored': set<Entry>, l: NarLookup)
    requires stored <= stored' && FindsOrWaits(stored, l)
    ensures FindsOrWaits(stored', l)
  {
  }

  lemma EntryIsFound(stored: set<Entry>, path: string)
    requires HasEntryFor(stored, path)
    ensures Found(stored, path)
  {
    var x :| x in stored && Api.Suffixed(path, x.key);
    SuffixedStartsWith(path, x.key);
  }

  lemma {:induction false} RunGrows(s: State, steps: seq<Step>)
    requires Valid(s, steps)
    ensures s.tripped ==> Exec(s, steps).tripped
    ensures s.stored <= Exec(s, steps).stored && |s.narLookups| <= |Exec(s, steps).narLookups|
    ensures forall n :: 0 <= n < |s.narLookups| ==> Exec(s, steps).narLookups[n].path == s.narLookups[n].path
    decreases |steps|
  {
    if steps != [] {
      RunGrows(Do(s, steps[0]), steps[1..]);
    }
  }

  predicate NoError(steps: seq<Step>, n: nat) { NarLook(n, NarError) !in steps }

  lemma {:induction false} RunRedirects(s: State, steps: seq<Step>, n: nat, path: string)
    requires Valid(s, steps) && HasEntryFor(s.stored, path)
    requires n < |s.narLookups| ==> s.narLookups[n].path == path && FindsOrWaits(s.stored, s.narLookups[n])
    requires var s' := Exec(s, steps); n < |s'.narLookups| && s'.narLookups[n].path == path && !s'.tripped
    requires NoError(steps, n)
    ensures FindsOrWaits(Exec(s, steps).stored, Exec(s, steps).narLookups[n])
    decreases |steps|
  {
    if steps != [] {
      var s1 := Do(s, steps[0]);
      RunGrows(s1, steps[1..]);
      EntryIsFound(s.stored, path);
      assert steps[0] != NarLook(n, NarError);
      if n < |s.narLookups| {
        KeysStay(s.stored, s1.stored, s.narLookups[n]);
      }
      if steps[0].Up? {
        EntriesStay(s.stored, EntryOf(s.uploads[steps[0].j]));
      }
      RunRedirects(s1, steps[1..], n, path);
    }
  }

  /** A committed narinfo of the daemon's can be followed: in every run, once it is there, a NAR lookup for the path in
      its URL that has not been answered yet never ends in "absent": unless the breaker has tripped or that lookup's own
      request failed, it ends in a redirect to a stored entry under that path. */
  lemma NarinfoCanBeFollowed(before: seq<Step>, after: seq<Step>, x: Entry, path: string, n: nat)
    requires Valid(INIT, before) && Valid(Exec(INIT, before), after)
    requires x in Exec(INIT, before).stored && x.url == Some("nar/" + path)
    requires n < |Exec(INIT, before).narLookups| ==> Unanswered(Exec(INIT, before).narLookups[n])
    requires n < |Exec(Exec(INIT, before), after).narLookups|
    requires Exec(Exec(INIT, before), after).narLookups[n].path == path
    requires Exec(Exec(INIT, before), after).narLookups[n].phase.NarFinished?
    requires !Exec(Exec(INIT, before), after).tripped && NoError(after, n)
    ensures var s := Exec(Exec(INIT, before), after);
            var ending := s.narLookups[n].phase.ending;
            ending.Redirected? && path <= ending.key && IsKey(s.stored, ending.key)
  {
    var s := Exec(INIT, before);
    NarinfoHasItsNar(before, x);
    assert ("nar/" + path)[4..] == path;
    RunGrows(s, after);
    RunRedirects(s, after, n, path);
  }

  // ----- an accepted narinfo is found -----

  /** A narinfo upload that the backend has accepted, removed from the negative cache or not. */
  predicate InfoAcceptedBy(u: Upload) {
    !u.job.PutNar? && (u.phase.InfoAccepted? || u.phase.Done?)
  }

  /** Its entry has arrived. */
  predicate InfoArrived(p: UploadPhase) { p == InfoUploading(true) || p.InfoAccepted? || p.Done? }

  predicate InfoStored(stored: set<Entry>, u: Upload) {
    !u.job.PutNar? && InfoArrived(u.phase) ==> HasEntryFor(stored, InfoBase(HashOf(u.job)))
  }

  predicate InfoStoredInv(s: State) {
    forall j :: 0 <= j < |s.uploads| ==> InfoStored(s.stored, s.uploads[j]) && UploadFits(s.uploads[j])
  }

  lemma UpKeepsInfoStored(s: State, j: nat, a: UploadAct)
    requires InfoStoredInv(s) && j < |s.uploads| && UpEnabled(s, s.uploads[j], a)
    ensures InfoStoredInv(UpDo(s, j, a))
  {
    var u := s.uploads[j];
    assert InfoStored(s.stored, u) && UploadFits(u);
    UpKeepsUpload(s, j, a);
    EntriesStay(s.stored, EntryOf(u));
  }

  lemma {:induction false} RunKeepsInfoStored(s: State, steps: seq<Step>)
    requires InfoStoredInv(s) && Valid(s, steps)
    ensures InfoStoredInv(Exec(s, steps))
    decreases |steps|
  {
    if steps != [] {
      if steps[0].Up? {
        UpKeepsInfoStored(s, steps[0].j, steps[0].upAct);
      }
      RunKeepsInfoStored(Do(s, steps[0]), steps[1..]);
    }
  }

  /** In every reachable state the entry of an accepted narinfo upload is what a lookup for its hash finds. */
  lemma AcceptedIsFound(steps: seq<Step>, j: nat)
    requires Valid(INIT, steps)
    requires j < |Exec(INIT, steps).uploads| && InfoAcceptedBy(Exec(INIT, steps).uploads[j])
    ensures Found(Exec(INIT, steps).stored, InfoBase(HashOf(Exec(INIT, steps).uploads[j].job)))
  {
    RunKeepsInfoStored(INIT, steps);
    var s := Exec(INIT, steps);
    assert InfoStored(s.stored, s.uploads[j]);
    EntryIsFound(s.stored, InfoBase(HashOf(s.uploads[j].job)));
  }

  /** Not answered by the backend yet. */
  predicate Pending(l: Lookup) { l.phase.Arrived? || l.phase.Checked? || l.phase.Querying? }

  /** The backend answered that there is no entry, or will have done so. */
  predicate Missed(l: Lookup) {
    l.phase.GotNone? || l.phase.MissNoted? || l.phase.MissCounting? || l.phase == Finished(MissUpstream)
  }

  lemma FoundStays(stored: set<Entry>, stored': set<Entry>, prefix: string)
    requires stored <= stored' && Found(stored, prefix)
    ensures Found(stored', prefix)
  {
  }

  lemma {:induction false} RunNeverMisses(s: State, steps: seq<Step>, h: Hash, i: nat)
    requires Valid(s, steps) && Found(s.stored, InfoBase(h))
    requires i < |s.lookups| ==> s.lookups[i].hash == h && !Missed(s.lookups[i])
    requires i < |Exec(s, steps).lookups| && Exec(s, steps).lookups[i].hash == h
    ensures !Missed(Exec(s, steps).lookups[i])
    decreases |steps|
  {
    if steps != [] {
      var s1 := Do(s, steps[0]);
      FoundStays(s.stored, s1.stored, InfoBase(h));
      HashesStay(s1, steps[1..]);
      RunNeverMisses(s1, steps[1..], h, i);
    }
  }

  lemma {:induction false} HashesStay(s: State, steps: seq<Step>)
    requires Valid(s, steps)
    ensures |s.lookups| <= |Exec(s, steps).lookups|
    ensures forall i :: 0 <= i < |s.lookups| ==> Exec(s, steps).lookups[i].hash == s.lookups[i].hash
    decreases |steps|
  {
    if steps != [] {
      HashesStay(Do(s, steps[0]), steps[1..]);
    }
  }

  /** Once a lookup for h would find an entry, in particular once a narinfo upload for h is accepted, a lookup for h that
      has not been answered yet never misses and never puts h into the negative cache: if it ends, it is served, or
      stopped by the negative cache as it stood, or has failed. */
  lemma CommittedIsNeverMissed(before: seq<Step>, after: seq<Step>, h: Hash, i: nat)
    requires Valid(INIT, before) && Valid(Exec(INIT, before), after)
    requires Found(Exec(INIT, before).stored, InfoBase(h))
    requires i < |Exec(INIT, before).lookups| ==> Pending(Exec(INIT, before).lookups[i])
    requires i < |Exec(Exec(INIT, before), after).lookups| && Exec(Exec(INIT, before), after).lookups[i].hash == h
    ensures var l := Exec(Exec(INIT, before), after).lookups[i];
            && !Missed(l)
            && (l.phase.Finished? ==> l.phase.ending.Served? || l.phase.ending.HitUpstream? || l.phase.ending.Failed?)
  {
    HashesStay(Exec(INIT, before), after);
    RunNeverMisses(Exec(INIT, before), after, h, i);
  }

  // ----- what a lookup serves -----

  predicate ServedIsStored(stored: set<Entry>, l: Lookup) {
    && (l.phase.GotUrl? ==> IsAnswer(stored, InfoBase(l.hash), Some(l.phase.key)))
    && (l.phase.Finished? && l.phase.ending.Served? ==> IsAnswer(stored, InfoBase(l.hash), Some(l.phase.ending.key)))
  }

  predicate RedirectIsStored(stored: set<Entry>, l: NarLookup) {
    && (l.phase.NarAnswered? ==> IsAnswer(stored, l.path, l.phase.answer) || l.phase.answer.None?)
    && (l.phase.NarFinished? && l.phase.ending.Redirected? ==> IsAnswer(stored, l.path, Some(l.phase.ending.key)))
  }

  predicate ServedInv(s: State) {
    && (forall i :: 0 <= i < |s.lookups| ==> ServedIsStored(s.stored, s.lookups[i]))
    && (forall n :: 0 <= n < |s.narLookups| ==> RedirectIsStored(s.stored, s.narLookups[n]))
  }

  lemma StepKeepsServed(s: State, st: Step)
    requires ServedInv(s) && Enabled(s, st)
    ensures ServedInv(Do(s, st))
  {
    var s' := Do(s, st);
    assert s.stored <= s'.stored;
    forall i | 0 <= i < |s'.lookups|
      ensures ServedIsStored(s'.stored, s'.lookups[i])
    {
      assert i < |s.lookups| ==> ServedIsStored(s.stored, s.lookups[i]);
    }
    forall n | 0 <= n < |s'.narLookups|
      ensures RedirectIsStored(s'.stored, s'.narLookups[n])
    {
      assert n < |s.narLookups| ==> RedirectIsStored(s.stored, s.narLookups[n]);
    }
  }

  lemma {:induction false} RunKeepsServed(s: State, steps: seq<Step>)
    requires Valid(s, steps) && ServedInv(s)
    ensures ServedInv(Exec(s, steps))
    decreases |steps|
  {
    if steps != [] {
      StepKeepsServed(s, steps[0]);
      RunKeepsServed(Do(s, steps[0]), steps[1..]);
    }
  }

  /** Upload j is what put this key there, as the narinfo of h, or as a NAR under a path that starts with its name. */
  predicate PutThere(s: State, j: nat, h: Hash, key: string)
    requires j < |s.uploads|
  {
    var job := s.uploads[j].job;
    || (!job.PutNar? && HashOf(job) == h && Api.Suffixed(InfoBase(h), key))
    || (job.PutNar? && InfoBase(h) <= job.path && Api.Suffixed(job.path, key))
  }

  /** A lookup is redirected only to a committed entry, which is a narinfo of its hash or a NAR that was put under a path
      starting with the narinfo's name; never to the NAR of a store path, nor to another hash's narinfo. */
  lemma OnlyCommittedIsServed(steps: seq<Step>, i: nat) returns (c: nat)
    requires Valid(INIT, steps)
    requires i < |Exec(INIT, steps).lookups|
    requires var l := Exec(INIT, steps).lookups[i]; l.phase.Finished? && l.phase.ending.Served?
    ensures var s := Exec(INIT, steps); var l := s.lookups[i];
            && IsKey(s.stored, l.phase.ending.key)
            && c < |s.log| && s.log[c] == Committed(s.log[c].who, l.phase.ending.key)
            && s.log[c].who < |s.uploads| && PutThere(s, s.log[c].who, l.hash, l.phase.ending.key)
  {
    RunKeepsServed(INIT, steps);
    RunKeepsLog(INIT, steps);
    var s := Exec(INIT, steps);
    var l := s.lookups[i];
    assert ServedIsStored(s.stored, l) && LookupOk(l, i, s.log);
    var key := l.phase.ending.key;
    assert KeyCommitted(s.log, key);
    c :| 0 <= c < |s.log| && s.log[c] == Committed(s.log[c].who, key);
    assert EventOk(s, c);
    var u := s.uploads[s.log[c].who];
    assert UploadFits(u);
    FinderIsItsOwn(u.job, l.hash, key);
  }

  /** Upload j is what put this key there, as the NAR of a store path with this NAR hash, or as a NAR under a path that
      starts with its name. */
  predicate NarPutThere(s: State, j: nat, nar: string, key: string)
    requires j < |s.uploads|
  {
    var job := s.uploads[j].job;
    || (job.StorePath? && job.nar == nar && Api.Suffixed(NarBase(nar), key))
    || (job.PutNar? && NarBase(nar) <= job.path && Api.Suffixed(job.path, key))
  }

  /** A NAR lookup under a path the daemon writes into its narinfos is redirected only to that NAR, or to one that was put
      under a path starting with its name; never to another store path's NAR nor to a narinfo. */
  lemma OnlyItsNarIsServed(steps: seq<Step>, n: nat, nar: string) returns (c: nat)
    requires Valid(INIT, steps) && DotFree(nar)
    requires n < |Exec(INIT, steps).narLookups| && Exec(INIT, steps).narLookups[n].path == NarBase(nar)
    requires var l := Exec(INIT, steps).narLookups[n]; l.phase.NarFinished? && l.phase.ending.Redirected?
    ensures var s := Exec(INIT, steps); var key := s.narLookups[n].phase.ending.key;
            && c < |s.log| && s.log[c] == Committed(s.log[c].who, key)
            && s.log[c].who < |s.uploads| && NarPutThere(s, s.log[c].who, nar, key)
  {
    RunKeepsServed(INIT, steps);
    RunKeepsLog(INIT, steps);
    var s := Exec(INIT, steps);
    assert RedirectIsStored(s.stored, s.narLookups[n]);
    var key := s.narLookups[n].phase.ending.key;
    assert KeyCommitted(s.log, key);
    c :| 0 <= c < |s.log| && s.log[c] == Committed(s.log[c].who, key);
    assert EventOk(s, c);
    var job := s.uploads[s.log[c].who].job;
    assert UploadFits(s.uploads[s.log[c].who]);
    if !job.PutNar? && Api.Suffixed(InfoBase(HashOf(job)), key) {
      InfoKeyIsNoNar(nar, HashOf(job), key);
    } else if job.PutNar? {
      NarLookupOfAnyPath(nar, job.path, key);
    } else {
      NarLookupIsExact(nar, job.nar, key);
    }
  }

  lemma InfoKeyIsNoNar(nar: string, h: Hash, key: string)
    requires DotFree(h) && DotFree(nar) && Api.Suffixed(InfoBase(h), key)
    ensures !(NarBase(nar) <= key)
  {
    Api.AddSuffix(NarBase(h), "0000");
    KindsNeverMix(nar, h, NarBase(h) + "-" + "0000", key);
  }

  // ----- breaker gating -----

  /** A request that may be under way, by the gate its call has passed. */
  datatype Request = ReserveNar | SendNar | ReserveInfo | SendInfo

  function UnderWay(u: Upload): Option<Request> {
    match u.phase
    case NarReserving => Some(ReserveNar)
    case NarUploading(_) | NarFailed(_) => Some(SendNar)
    case InfoReserving => Some(ReserveInfo)
    case InfoUploading(_) | InfoFailed(_) => Some(SendInfo)
    case _ => None
  }

  /** Whatever may be under way in s' was under way in s. */
  predicate NothingNew(s: State, s': State) {
    && |s.lookups| <= |s'.lookups| && |s.narLookups| <= |s'.narLookups| && |s.uploads| <= |s'.uploads|
    && (forall i :: 0 <= i < |s'.lookups| && s'.lookups[i].phase.Querying? ==>
          i < |s.lookups| && s.lookups[i].phase.Querying?)
    && (forall n :: 0 <= n < |s'.narLookups| && s'.narLookups[n].phase.NarQuerying? ==>
          n < |s.narLookups| && s.narLookups[n].phase.NarQuerying?)
    && (forall j :: 0 <= j < |s'.uploads| && UnderWay(s'.uploads[j]).Some? ==>
          j < |s.uploads| && UnderWay(s.uploads[j]) == UnderWay(s'.uploads[j]))
  }

  lemma NothingNewInStep(s: State, st: Step)
    requires Enabled(s, st) && s.tripped
    ensures Do(s, st).tripped && NothingNew(s, Do(s, st))
  {
  }

  /** Over every run from a tripped state: the flag stays, and every request that may be under way at the end, of a
      lookup or of an upload, was the same one under way at the trip. */
  lemma {:induction false} NothingNewAfterTrip(s: State, steps: seq<Step>)
    requires Valid(s, steps) && s.tripped
    ensures Exec(s, steps).tripped && NothingNew(s, Exec(s, steps))
    decreases |steps|
  {
    if steps != [] {
      NothingNewInStep(s, steps[0]);
      NothingNewAfterTrip(Do(s, steps[0]), steps[1..]);
    }
  }

  /** Before the gate of the narinfo upload, or already given up. */
  predicate BeforeInfoGate(p: UploadPhase) {
    p.NarReserve? || p.NarReserving? || p.NarUpload? || p.NarUploading? || p.NarFailed?
    || p.InfoReserve? || p.InfoReserving? || p.InfoUpload? || p.GaveUp?
  }

  /** A store path or put_narinfo upload whose narinfo upload has not passed its gate. */
  predicate BeforeInfo(u: Upload) {
    BeforeInfoGate(u.phase) && !u.job.PutNar? && UploadFits(u)
  }

  lemma StepStaysBeforeGate(s: State, st: Step, j: nat)
    requires Enabled(s, st) && s.tripped
    requires j < |s.uploads| && BeforeInfo(s.uploads[j])
    ensures var s' := Do(s, st);
            s'.tripped && j < |s'.uploads| && BeforeInfo(s'.uploads[j]) && s'.uploads[j].job == s.uploads[j].job
  {
    if st.Up? && st.j == j {
      UpKeepsUpload(s, j, st.upAct);
    }
  }

  lemma {:induction false} RunStaysBeforeGate(s: State, steps: seq<Step>, j: nat)
    requires Valid(s, steps) && s.tripped
    requires j < |s.uploads| && BeforeInfo(s.uploads[j])
    ensures var s' := Exec(s, steps);
            j < |s'.uploads| && BeforeInfo(s'.uploads[j]) && s'.uploads[j].job == s.uploads[j].job
    decreases |steps|
  {
    if steps != [] {
      StepStaysBeforeGate(s, steps[0], j);
      RunStaysBeforeGate(Do(s, steps[0]), steps[1..], j);
    }
  }

  /** Upload j has never committed an entry that a lookup for h finds. */
  predicate NeverCommitted(log: seq<Event>, j: nat, h: Hash) {
    forall p :: 0 <= p < |log| ==> !(IsCommit(log[p], h) && log[p].who == j)
  }

  lemma BeforeGateMeansNoCommit(s: State, j: nat)
    requires LogInv(s) && j < |s.uploads| && BeforeInfo(s.uploads[j])
    ensures NeverCommitted(s.log, j, HashOf(s.uploads[j].job))
  {
    var u := s.uploads[j];
    forall p | 0 <= p < |s.log| && IsCommit(s.log[p], HashOf(u.job))
      ensures s.log[p].who != j
    {
      assert EventOk(s, p);
      if s.log[p].who == j {
        FinderIsItsOwn(u.job, HashOf(u.job), s.log[p].key);
      }
    }
  }

  /** A trip before the narinfo upload has passed its gate, in particular during the NAR upload: in no state of any run
      from there has that uploader's narinfo been committed. */
  lemma TripBeforeNarinfoPreventsIt(before: seq<Step>, after: seq<Step>, j: nat)
    requires Valid(INIT, before) && Valid(Exec(INIT, before), after) && Exec(INIT, before).tripped
    requires j < |Exec(INIT, before).uploads|
    requires var u := Exec(INIT, before).uploads[j]; BeforeInfoGate(u.phase) && !u.job.PutNar?
    ensures var s := Exec(Exec(INIT, before), after);
            && j < |s.uploads| && BeforeInfoGate(s.uploads[j].phase)
            && NeverCommitted(s.log, j, HashOf(Exec(INIT, before).uploads[j].job))
  {
    var s := Exec(INIT, before);
    RunKeepsLog(INIT, before);
    assert UploadFits(s.uploads[j]);
    RunStaysBeforeGate(s, after, j);
    RunKeepsLog(s, after);
    BeforeGateMeansNoCommit(Exec(s, after), j);
  }

  // ----- lookup accounting -----

  function IsServed(l: Lookup): nat { if l.phase.Finished? && l.phase.ending.Served? then 1 else 0 }

  function IsHit(l: Lookup): nat { if l.phase == Finished(HitUpstream) then 1 else 0 }

  function IsMiss(l: Lookup): nat { if l.phase == Finished(MissUpstream) then 1 else 0 }

  function IsFailed(l: Lookup): nat { if l.phase == Finished(Failed) then 1 else 0 }

  function Between(l: Lookup): nat {
    if l.phase.HitCounting? || l.phase.MissCounting? then 1 else 0
  }

  function IsOver(l: Lookup): nat {
    if l.phase.Finished? then 1 else 0
  }

  function Tally(ls: seq<Lookup>): (nat, nat, nat, nat, nat, nat) {
    (Sum(IsServed, ls), Sum(IsHit, ls), Sum(IsMiss, ls), Sum(IsFailed, ls),
     Sum(Between, ls), Sum(IsOver, ls))
  }

  predicate Accounts(s: State) {
    var m, (served, hits, misses, failed, between, over) := s.metrics, Tally(s.lookups);
    && m.served == served && m.hits == hits && m.misses == misses
    && m.sentUpstream == m.hits + m.misses + between
    && m.served + m.hits + m.misses + failed == over
  }

  lemma TallyUpdate(ls: seq<Lookup>, i: nat, l: Lookup)
    requires i < |ls|
    ensures var t, t' := Tally(ls), Tally(ls[i := l]);
            && t'.0 + IsServed(ls[i]) == t.0 + IsServed(l)
            && t'.1 + IsHit(ls[i]) == t.1 + IsHit(l)
            && t'.2 + IsMiss(ls[i]) == t.2 + IsMiss(l)
            && t'.3 + IsFailed(ls[i]) == t.3 + IsFailed(l)
            && t'.4 + Between(ls[i]) == t.4 + Between(l)
            && t'.5 + IsOver(ls[i]) == t.5 + IsOver(l)
  {
    SumUpdate(IsServed, ls, i, l);
    SumUpdate(IsHit, ls, i, l);
    SumUpdate(IsMiss, ls, i, l);
    SumUpdate(IsFailed, ls, i, l);
    SumUpdate(Between, ls, i, l);
    SumUpdate(IsOver, ls, i, l);
  }

  lemma TallyAppend(ls: seq<Lookup>, l: Lookup)
    requires l.phase.Arrived?
    ensures Tally(ls + [l]) == Tally(ls)
  {
    SumAppend(IsServed, ls, l);
    SumAppend(IsHit, ls, l);
    SumAppend(IsMiss, ls, l);
    SumAppend(IsFailed, ls, l);
    SumAppend(Between, ls, l);
    SumAppend(IsOver, ls, l);
  }

  /** A lookup's step moves its counters and its place in the tallies together. */
  lemma LookMovesCounters(s: State, l: Lookup, a: LookupAct)
    requires LookEnabled(s, l, a)
    ensures var l' := l.(phase := LookNext(s, l, a)); var m, m' := s.metrics, LookMetrics(s.metrics, l, a);
            && m'.served + IsServed(l) == m.served + IsServed(l')
            && m'.hits + IsHit(l) == m.hits + IsHit(l')
            && m'.misses + IsMiss(l) == m.misses + IsMiss(l')
            && m'.sentUpstream + IsHit(l) + IsMiss(l) + Between(l) == m.sentUpstream + IsHit(l') + IsMiss(l') + Between(l')
            && IsServed(l) + IsHit(l) + IsMiss(l) + IsFailed(l) == IsOver(l)
            && IsServed(l') + IsHit(l') + IsMiss(l') + IsFailed(l') == IsOver(l')
  {
  }

  lemma LookKeepsAccounts(s: State, i: nat, a: LookupAct)
    requires Accounts(s) && i < |s.lookups| && LookEnabled(s, s.lookups[i], a)
    ensures Accounts(LookDo(s, i, a))
  {
    var l := s.lookups[i];
    LookMovesCounters(s, l, a);
    TallyUpdate(s.lookups, i, l.(phase := LookNext(s, l, a)));
  }

  lemma StepKeepsAccounts(s: State, st: Step)
    requires Accounts(s) && Enabled(s, st)
    ensures Accounts(Do(s, st))
  {
    match st
    case Look(i, a) => LookKeepsAccounts(s, i, a);
    case NewLookup(h) => TallyAppend(s.lookups, Lookup(h, Arrived));
    case NewUpload(_) =>
    case NewNarLookup(_) =>
    case NarLook(_, _) =>
    case Trip =>
    case Up(j, a) => assert UpDo(s, j, a).lookups == s.lookups && UpDo(s, j, a).metrics == s.metrics;
  }

  /** Over any interleaving: served, negative hits, negative misses and errors add up to the lookups that have passed
      their last counter, each counter counting its own kind, and "sent upstream" is hits plus misses plus the lookups
      that stand between their two increments. */
  lemma LookupAccounting(steps: seq<Step>)
    requires Valid(INIT, steps)
    ensures Accounts(Exec(INIT, steps))
  {
    RunKeepsAccounts(INIT, steps);
  }

  lemma {:induction false} RunKeepsAccounts(s: State, steps: seq<Step>)
    requires Accounts(s) && Valid(s, steps)
    ensures Accounts(Exec(s, steps))
    decreases |steps|
  {
    if steps != [] {
      StepKeepsAccounts(s, steps[0]);
      RunKeepsAccounts(Do(s, steps[0]), steps[1..]);
    }
  }

  // ----- the write guard -----

  predicate OneWriter(s: State) {
    forall i, k :: 0 <= i < |s.lookups| && 0 <= k < |s.lookups| && Writing(s.lookups[i]) && Writing(s.lookups[k]) ==> i == k
  }

  /** At most one lookup at a time stands between its insert and its reply. */
  lemma WriteGuardIsExclusive(steps: seq<Step>)
    requires Valid(INIT, steps)
    ensures OneWriter(Exec(INIT, steps))
  {
    RunKeepsOneWriter(INIT, steps);
  }

  lemma {:induction false} RunKeepsOneWriter(s: State, steps: seq<Step>)
    requires OneWriter(s) && Valid(s, steps)
    ensures OneWriter(Exec(s, steps))
    decreases |steps|
  {
    if steps != [] {
      RunKeepsOneWriter(Do(s, steps[0]), steps[1..]);
    }
  }
}
