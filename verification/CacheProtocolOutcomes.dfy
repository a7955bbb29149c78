/** How every lookup and upload of the cache protocol ends, and why; and what one that nothing disturbs does. */
module CacheProtocolOutcomes {
  import opened Common
  import opened Keys
  import opened CacheProtocol
  import opened CacheProtocolProofs
  import Api

  // ----- what becomes of a lookup -----

  /** Stopped by the negative cache, answered by the backend, or refused by the breaker or an error. */
  datatype Fate = WasNegative | Answered(answer: Option<string>) | Refused

  function FateOf(l: Lookup): Option<Fate> {
    match l.phase
    case Arrived | Checked | Querying => None
    case GotUrl(key) => Some(Answered(Some(key)))
    case GotNone | MissNoted | MissCounting => Some(Answered(None))
    case HitNoted | HitCounting => Some(WasNegative)
    case Finished(Served(key)) => Some(Answered(Some(key)))
    case Finished(MissUpstream) => Some(Answered(None))
    case Finished(HitUpstream) => Some(WasNegative)
    case Finished(Failed) => Some(Refused)
  }

  predicate HasFate(s: State, i: nat, fate: Fate) {
    i < |s.lookups| && FateOf(s.lookups[i]) == Some(fate)
  }

  /** The event that decides it. */
  predicate Decides(s: State, st: Step, i: nat, fate: Fate)
    requires Enabled(s, st)
  {
    st.Look? && st.i == i &&
    match fate
    case WasNegative => st.lookAct.CheckNegative? && s.lookups[i].hash in s.negative
    case Answered(answer) => st.lookAct == Evaluate(answer)
    case Refused => (st.lookAct.Gate? && s.tripped) || st.lookAct.QueryError?
  }

  predicate DecidedIn(s: State, steps: seq<Step>, i: nat, fate: Fate)
    requires Valid(s, steps)
    decreases |steps|
  {
    steps != [] && (Decides(s, steps[0], i, fate) || DecidedIn(Do(s, steps[0]), steps[1..], i, fate))
  }

  lemma StepDecides(s: State, st: Step, i: nat, fate: Fate)
    requires Enabled(s, st)
    ensures HasFate(Do(s, st), i, fate) <==> HasFate(s, i, fate) || Decides(s, st, i, fate)
  {
  }

  lemma {:induction false} RunDecides(s: State, steps: seq<Step>, i: nat, fate: Fate)
    requires Valid(s, steps)
    ensures HasFate(Exec(s, steps), i, fate) <==> HasFate(s, i, fate) || DecidedIn(s, steps, i, fate)
    decreases |steps|
  {
    if steps != [] {
      StepDecides(s, steps[0], i, fate);
      RunDecides(Do(s, steps[0]), steps[1..], i, fate);
    }
  }

  /** In every run a lookup is on its way to an upstream hit exactly if its hash was in the negative cache when it looked
      there, to a redirect or a miss exactly if the backend gave that answer, and to a failure exactly if it met a
      tripped breaker or its request failed. */
  lemma LookupFateHasItsCause(steps: seq<Step>, i: nat, fate: Fate)
    requires Valid(INIT, steps)
    ensures HasFate(Exec(INIT, steps), i, fate) <==> DecidedIn(INIT, steps, i, fate)
  {
    RunDecides(INIT, steps, i, fate);
  }

  // ----- a lookup that nothing disturbs -----

  predicate CanStart(s: State, i: nat) {
    i < |s.lookups| && s.lookups[i].phase.Arrived? && Unlocked(s)
  }

  function WithLookup(s: State, i: nat, p: LookupPhase): seq<Lookup>
    requires i < |s.lookups|
  {
    s.lookups[i := s.lookups[i].(phase := p)]
  }

  lemma ExtendLook(s: State, steps: seq<Step>, i: nat, a: LookupAct) returns (longer: seq<Step>)
    requires Valid(s, steps) && i < |Exec(s, steps).lookups| && LookEnabled(Exec(s, steps), Exec(s, steps).lookups[i], a)
    ensures longer == steps + [Look(i, a)] && Valid(s, longer) && Exec(s, longer) == LookDo(Exec(s, steps), i, a)
  {
    longer := Extend(s, steps, Look(i, a));
  }

  /** A hash in the negative cache goes upstream without the backend being asked. */
  lemma NegativeGoesUpstream(s: State, i: nat) returns (steps: seq<Step>)
    requires CanStart(s, i) && s.lookups[i].hash in s.negative
    ensures steps == [Look(i, CheckNegative), Look(i, CountUpstream), Look(i, CountEnding)] && Valid(s, steps)
    ensures Exec(s, steps) == s.(
              lookups := WithLookup(s, i, Finished(HitUpstream)),
              metrics := s.metrics.(sentUpstream := s.metrics.sentUpstream + 1, hits := s.metrics.hits + 1))
  {
    steps := ExtendLook(s, [], i, CheckNegative);
    steps := ExtendLook(s, steps, i, CountUpstream);
    steps := ExtendLook(s, steps, i, CountEnding);
  }

  /** Behind a tripped breaker the lookup fails at once. */
  lemma TrippedLookupFails(s: State, i: nat) returns (steps: seq<Step>)
    requires CanStart(s, i) && s.lookups[i].hash !in s.negative && s.tripped
    ensures steps == [Look(i, CheckNegative), Look(i, Gate)] && Valid(s, steps)
    ensures Exec(s, steps) == s.(lookups := WithLookup(s, i, Finished(Failed)))
  {
    steps := ExtendLook(s, [], i, CheckNegative);
    steps := ExtendLook(s, steps, i, Gate);
  }

  lemma LookupReachesBackend(s: State, i: nat) returns (steps: seq<Step>)
    requires CanStart(s, i) && s.lookups[i].hash !in s.negative && !s.tripped
    ensures steps == [Look(i, CheckNegative), Look(i, Gate)] && Valid(s, steps)
    ensures Exec(s, steps) == s.(lookups := WithLookup(s, i, Querying))
  {
    steps := ExtendLook(s, [], i, CheckNegative);
    steps := ExtendLook(s, steps, i, Gate);
  }

  /** A stored entry under the narinfo's name can be served. */
  lemma StoredIsServed(s: State, i: nat, key: string) returns (steps: seq<Step>)
    requires CanStart(s, i) && s.lookups[i].hash !in s.negative && !s.tripped
    requires IsKey(s.stored, key) && InfoBase(s.lookups[i].hash) <= key
    ensures Valid(s, steps)
    ensures Exec(s, steps) == s.(
              lookups := WithLookup(s, i, Finished(Served(key))), metrics := s.metrics.(served := s.metrics.served + 1))
  {
    steps := LookupReachesBackend(s, i);
    steps := ExtendLook(s, steps, i, Evaluate(Some(key)));
    steps := ExtendLook(s, steps, i, Serve);
  }

  /** What is not stored goes upstream, and into the negative cache. */
  lemma MissingGoesUpstream(s: State, i: nat) returns (steps: seq<Step>)
    requires CanStart(s, i) && s.lookups[i].hash !in s.negative && !s.tripped
    requires !Found(s.stored, InfoBase(s.lookups[i].hash))
    ensures Valid(s, steps)
    ensures var h := s.lookups[i].hash;
            Exec(s, steps) == s.(
              lookups := WithLookup(s, i, Finished(MissUpstream)), negative := s.negative + {h},
              log := s.log + [Queried(i, h), Inserted(i, h)],
              metrics := s.metrics.(sentUpstream := s.metrics.sentUpstream + 1, misses := s.metrics.misses + 1))
  {
    steps := MissIsNoted(s, i);
    steps := ExtendLook(s, steps, i, CountUpstream);
    steps := ExtendLook(s, steps, i, CountEnding);
  }

  lemma MissIsNoted(s: State, i: nat) returns (steps: seq<Step>)
    requires CanStart(s, i) && s.lookups[i].hash !in s.negative && !s.tripped
    requires !Found(s.stored, InfoBase(s.lookups[i].hash))
    ensures Valid(s, steps)
    ensures var h := s.lookups[i].hash;
            Exec(s, steps) == s.(
              lookups := WithLookup(s, i, MissNoted), negative := s.negative + {h},
              log := s.log + [Queried(i, h), Inserted(i, h)])
  {
    steps := LookupReachesBackend(s, i);
    steps := ExtendLook(s, steps, i, Evaluate(None));
    steps := ExtendLook(s, steps, i, Insert);
  }

  /** While a lookup stands between its insert and its reply no other lookup looks at or inserts into the negative cache,
      and no upload removes from it. */
  lemma GuardExcludes(s: State, i: nat, k: nat)
    requires i < |s.lookups| && (s.lookups[i].phase.MissNoted? || s.lookups[i].phase.MissCounting?)
    ensures !Enabled(s, Look(k, CheckNegative)) && !Enabled(s, Look(k, Insert)) && !Enabled(s, Up(k, Remove))
  {
    assert Writing(s.lookups[i]);
  }

  // ----- NAR lookups -----

  function NarFateOf(l: NarLookup): Option<Fate> {
    match l.phase
    case NarArrived | NarQuerying => None
    case NarAnswered(answer) => Some(Answered(answer))
    case NarFinished(Redirected(key)) => Some(Answered(Some(key)))
    case NarFinished(Absent) => Some(Answered(None))
    case NarFinished(NarQueryFailed) => Some(Refused)
  }

  predicate HasNarFate(s: State, n: nat, fate: Fate) {
    n < |s.narLookups| && NarFateOf(s.narLookups[n]) == Some(fate)
  }

  predicate NarDecides(s: State, st: Step, n: nat, fate: Fate)
    requires Enabled(s, st)
  {
    st.NarLook? && st.n == n &&
    match fate
    case WasNegative => false
    case Answered(answer) => st.narAct == NarEvaluate(answer)
    case Refused => (st.narAct.NarGate? && s.tripped) || st.narAct.NarError?
  }

  predicate NarDecidedIn(s: State, steps: seq<Step>, n: nat, fate: Fate)
    requires Valid(s, steps)
    decreases |steps|
  {
    steps != [] && (NarDecides(s, steps[0], n, fate) || NarDecidedIn(Do(s, steps[0]), steps[1..], n, fate))
  }

  lemma NarStepDecides(s: State, st: Step, n: nat, fate: Fate)
    requires Enabled(s, st)
    ensures HasNarFate(Do(s, st), n, fate) <==> HasNarFate(s, n, fate) || NarDecides(s, st, n, fate)
  {
  }

  lemma {:induction false} NarRunDecides(s: State, steps: seq<Step>, n: nat, fate: Fate)
    requires Valid(s, steps)
    ensures HasNarFate(Exec(s, steps), n, fate) <==> HasNarFate(s, n, fate) || NarDecidedIn(s, steps, n, fate)
    decreases |steps|
  {
    if steps != [] {
      NarStepDecides(s, steps[0], n, fate);
      NarRunDecides(Do(s, steps[0]), steps[1..], n, fate);
    }
  }

  /** A NAR lookup is on its way to a redirect or to "absent" exactly if the backend gave that answer, and to a failure
      exactly if it met a tripped breaker or its request failed. */
  lemma NarLookupFateHasItsCause(steps: seq<Step>, n: nat, fate: Fate)
    requires Valid(INIT, steps)
    ensures HasNarFate(Exec(INIT, steps), n, fate) <==> NarDecidedIn(INIT, steps, n, fate)
  {
    NarRunDecides(INIT, steps, n, fate);
  }

  /** An untripped breaker lets a NAR lookup through to whatever the backend has for its path. */
  lemma NarLookupIsAnswered(s: State, n: nat, answer: Option<string>) returns (steps: seq<Step>)
    requires n < |s.narLookups| && s.narLookups[n].phase.NarArrived? && !s.tripped
    requires IsAnswer(s.stored, s.narLookups[n].path, answer)
    ensures Valid(s, steps)
    ensures Exec(s, steps) == s.(narLookups := s.narLookups[n := s.narLookups[n].(
              phase := NarFinished(if answer.Some? then Redirected(answer.value) else Absent))])
  {
    steps := Extend(s, [], NarLook(n, NarGate));
    steps := Extend(s, steps, NarLook(n, NarEvaluate(answer)));
    steps := Extend(s, steps, NarLook(n, NarReply));
  }

  // ----- what becomes of an upload -----

  datatype UploadEnd = Succeeded | Stopped | Errored

  function EndOf(u: Upload): Option<UploadEnd> {
    match u.phase
    case Done => Some(Succeeded)
    case GaveUp => Some(Stopped)
    case NarFailed(_) | InfoFailed(_) => Some(Errored)
    case _ => None
  }

  predicate HasEnd(s: State, j: nat, end: UploadEnd) {
    j < |s.uploads| && EndOf(s.uploads[j]) == Some(end)
  }

  predicate Ends(s: State, st: Step, j: nat, end: UploadEnd)
    requires Enabled(s, st)
  {
    st.Up? && st.j == j &&
    match end
    case Succeeded => st.upAct.Remove? || (st.upAct.UploadOk? && s.uploads[j].job.PutNar?)
    case Stopped => (st.upAct.PassGate? && s.tripped) || st.upAct.ReserveError?
    case Errored => st.upAct.UploadError?
  }

  predicate EndedIn(s: State, steps: seq<Step>, j: nat, end: UploadEnd)
    requires Valid(s, steps)
    decreases |steps|
  {
    steps != [] && (Ends(s, steps[0], j, end) || EndedIn(Do(s, steps[0]), steps[1..], j, end))
  }

  lemma UpStepEnds(s: State, j: nat, a: UploadAct, end: UploadEnd)
    requires LogInv(s) && Enabled(s, Up(j, a))
    ensures HasEnd(UpDo(s, j, a), j, end) <==> HasEnd(s, j, end) || Ends(s, Up(j, a), j, end)
  {
    assert UploadFits(s.uploads[j]);
  }

  lemma StepEnds(s: State, st: Step, j: nat, end: UploadEnd)
    requires LogInv(s) && Enabled(s, st)
    ensures HasEnd(Do(s, st), j, end) <==> HasEnd(s, j, end) || Ends(s, st, j, end)
  {
    if st.Up? && st.j == j {
      UpStepEnds(s, j, st.upAct, end);
    }
  }

  lemma {:induction false} RunEnds(s: State, steps: seq<Step>, j: nat, end: UploadEnd)
    requires LogInv(s) && Valid(s, steps)
    ensures HasEnd(Exec(s, steps), j, end) <==> HasEnd(s, j, end) || EndedIn(s, steps, j, end)
    decreases |steps|
  {
    if steps != [] {
      StepEnds(s, steps[0], j, end);
      StepKeepsLog(s, steps[0]);
      RunEnds(Do(s, steps[0]), steps[1..], j, end);
    }
  }

  /** In every run an upload has succeeded exactly if it has removed its hash, or was a NAR put answered with success; has
      stopped exactly if it met a tripped breaker at a gate or could not reserve; and has failed exactly if an upload
      was answered with an error. */
  lemma UploadEndHasItsCause(steps: seq<Step>, j: nat, end: UploadEnd)
    requires Valid(INIT, steps)
    ensures HasEnd(Exec(INIT, steps), j, end) <==> EndedIn(INIT, steps, j, end)
  {
    RunEnds(INIT, steps, j, end);
  }

  /** The breaker is tripped exactly if something has tripped it. */
  lemma {:induction false} TrippedHasItsCause(s: State, steps: seq<Step>)
    requires Valid(s, steps)
    ensures Exec(s, steps).tripped <==> s.tripped || Trip in steps
    decreases |steps|
  {
    if steps != [] {
      TrippedHasItsCause(Do(s, steps[0]), steps[1..]);
    }
  }

  /** Whatever is under way may fail, and what an upload has sent may arrive as long as it has not, even after the upload
      was told of an error; a success is answered only to what has arrived. */
  lemma AnythingMayFail(s: State, i: nat, n: nat, j: nat)
    ensures i < |s.lookups| && s.lookups[i].phase.Querying? ==> Enabled(s, Look(i, QueryError))
    ensures n < |s.narLookups| && s.narLookups[n].phase.NarQuerying? ==> Enabled(s, NarLook(n, NarError))
    ensures j < |s.uploads| ==> var p := s.uploads[j].phase;
              && (p.NarReserving? || p.InfoReserving? ==>
                    Enabled(s, Up(j, ReserveError)) && Enabled(s, Up(j, ReserveCollision)))
              && (p.NarUploading? || p.InfoUploading? ==> Enabled(s, Up(j, UploadError)))
              && (p in {NarUploading(false), InfoUploading(false), NarFailed(false), InfoFailed(false)} ==>
                    Enabled(s, Up(j, Arrive)) && !Enabled(s, Up(j, UploadOk)))
    ensures Enabled(s, Trip)
  {
  }

  // ----- an upload that nothing disturbs -----

  function WithUpload(s: State, j: nat, p: UploadPhase, key: string): seq<Upload>
    requires j < |s.uploads|
  {
    s.uploads[j := s.uploads[j].(phase := p, key := key)]
  }

  lemma ExtendUp(s: State, steps: seq<Step>, j: nat, a: UploadAct) returns (longer: seq<Step>)
    requires Valid(s, steps) && j < |Exec(s, steps).uploads| && UpEnabled(Exec(s, steps), Exec(s, steps).uploads[j], a)
    ensures longer == steps + [Up(j, a)] && Valid(s, longer) && Exec(s, longer) == UpDo(Exec(s, steps), j, a)
  {
    longer := Extend(s, steps, Up(j, a));
  }

  /** A collision only sends the upload back to its gate, to try another suffix. */
  lemma CollisionIsRetried(s: State, j: nat)
    requires Enabled(s, Up(j, ReserveCollision))
    ensures var u := s.uploads[j];
            Do(s, Up(j, ReserveCollision))
            == s.(uploads := WithUpload(s, j, if u.phase == NarReserving then NarReserve else InfoReserve, u.key))
  {
  }

  lemma NarIsReserved(s: State, j: nat, nonce: string) returns (steps: seq<Step>)
    requires j < |s.uploads| && s.uploads[j].phase.NarReserve? && !s.tripped && Api.Nonce(nonce)
    ensures Valid(s, steps)
    ensures Exec(s, steps) == s.(uploads := WithUpload(s, j, NarUploading(false), NarPath(s.uploads[j].job) + "-" + nonce))
  {
    steps := ExtendUp(s, [], j, PassGate);
    steps := ExtendUp(s, steps, j, ReserveOk(nonce));
    steps := ExtendUp(s, steps, j, PassGate);
  }

  /** The NAR of a store path, or a NAR put by a client, is stored under its path; a store path goes on to its narinfo. */
  lemma NarIsStored(s: State, j: nat, nonce: string) returns (steps: seq<Step>)
    requires j < |s.uploads| && s.uploads[j].phase.NarReserve? && !s.uploads[j].job.PutInfo?
    requires !s.tripped && Api.Nonce(nonce)
    ensures Valid(s, steps)
    ensures var job := s.uploads[j].job; var key := NarPath(job) + "-" + nonce;
            Exec(s, steps) == s.(
              uploads := WithUpload(s, j, if job.StorePath? then InfoReserve else Done, key),
              stored := s.stored + {Entry(key, None)}, log := s.log + [Committed(j, key)])
  {
    steps := NarIsReserved(s, j, nonce);
    steps := ExtendUp(s, steps, j, Arrive);
    steps := ExtendUp(s, steps, j, UploadOk);
  }

  lemma InfoIsReserved(s: State, j: nat, nonce: string) returns (steps: seq<Step>)
    requires j < |s.uploads| && s.uploads[j].phase.InfoReserve? && !s.tripped && Api.Nonce(nonce)
    ensures Valid(s, steps)
    ensures Exec(s, steps)
            == s.(uploads := WithUpload(s, j, InfoUploading(false), InfoBase(HashOf(s.uploads[j].job)) + "-" + nonce))
  {
    steps := ExtendUp(s, [], j, PassGate);
    steps := ExtendUp(s, steps, j, ReserveOk(nonce));
    steps := ExtendUp(s, steps, j, PassGate);
  }

  /** The narinfo is stored under the hash, a store path's with the URL of its NAR, and the hash leaves the negative
      cache. */
  lemma InfoIsStored(s: State, j: nat, nonce: string) returns (steps: seq<Step>)
    requires j < |s.uploads| && s.uploads[j].phase.InfoReserve? && Unlocked(s)
    requires !s.tripped && Api.Nonce(nonce)
    ensures Valid(s, steps)
    ensures var job := s.uploads[j].job; var key := InfoBase(HashOf(job)) + "-" + nonce;
            Exec(s, steps) == s.(
              uploads := WithUpload(s, j, Done, key),
              stored := s.stored + {Entry(key, if job.StorePath? then Some("nar/" + NarBase(job.nar)) else None)},
              negative := s.negative - {HashOf(job)},
              log := s.log + [Committed(j, key), Removed(j, HashOf(job))])
  {
    steps := InfoIsReserved(s, j, nonce);
    steps := ExtendUp(s, steps, j, Arrive);
    steps := ExtendUp(s, steps, j, UploadOk);
    steps := ExtendUp(s, steps, j, Remove);
  }

  lemma {:induction false} Append(s: State, steps: seq<Step>, more: seq<Step>)
    requires Valid(s, steps) && Valid(Exec(s, steps), more)
    ensures Valid(s, steps + more) && Exec(s, steps + more) == Exec(Exec(s, steps), more)
    decreases |steps|
  {
    if steps == [] {
      assert steps + more == more;
    } else {
      assert (steps + more)[1..] == steps[1..] + more;
      Append(Do(s, steps[0]), steps[1..], more);
    }
  }

  /** A store path: NAR and narinfo stored under their names, the narinfo naming the NAR, the hash out of the negative
      cache, and nothing else changed but the log. */
  lemma StorePathIsUploaded(s: State, j: nat, n1: string, n2: string) returns (steps: seq<Step>)
    requires j < |s.uploads| && s.uploads[j].job.StorePath? && s.uploads[j].phase.NarReserve?
    requires !s.tripped && Unlocked(s) && Api.Nonce(n1) && Api.Nonce(n2)
    ensures Valid(s, steps)
    ensures var job := s.uploads[j].job;
            var nar, info := job.nar + ".nar.zstd" + "-" + n1, job.hash + ".narinfo" + "-" + n2;
            && Exec(s, steps).stored
               == s.stored + {Entry(nar, None), Entry(info, Some("nar/" + (job.nar + ".nar.zstd")))}
            && Exec(s, steps).negative == s.negative - {job.hash}
            && Exec(s, steps).uploads == WithUpload(s, j, Done, info)
            && Exec(s, steps).lookups == s.lookups && Exec(s, steps).tripped == s.tripped
  {
    var first := NarIsStored(s, j, n1);
    var second := InfoIsStored(Exec(s, first), j, n2);
    Append(s, first, second);
    steps := first + second;
  }
}
