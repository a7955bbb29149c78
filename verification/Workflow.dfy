/** A session of the daemon in order: recording the store, enqueueing, and finishing, which diffs the store, drains the
    worker's loop over the channel, with uploads that may fail and a breaker that anything may trip. */
module Workflow {
  import opened Common
  import Api
  import opened WorkerQueue
  import opened WorkerQueueProofs
  import opened WorkerQueueResults

  /** The closure computed by the store: everything asked for is in it, and it is closed under references. */
  predicate IsClosureOf(refs: Path -> set<Path>, paths: seq<Path>, closure: seq<Path>) {
    && (forall p :: p in paths ==> p in closure)
    && BatchClosed(refs, closure)
  }

  predicate OnlyUploads(rs: seq<Request>) {
    forall m :: 0 <= m < |rs| ==> rs[m].Upload?
  }

  // ----- attempts -----

  datatype Attempt = Attempt(path: Path, ok: bool)

  function PathsTried(attempts: seq<Attempt>): (paths: seq<Path>)
    ensures |paths| == |attempts|
    ensures forall m :: 0 <= m < |attempts| ==> paths[m] == attempts[m].path
  {
    seq(|attempts|, m requires 0 <= m < |attempts| => attempts[m].path)
  }

  function Uploaded(attempts: seq<Attempt>): set<Path> { set a | a in attempts && a.ok :: a.path }

  function Failed(attempts: seq<Attempt>): set<Path> { set a | a in attempts && !a.ok :: a.path }

  /** The paths asked for, each where it comes first. */
  function FirstPaths(rs: seq<Request>): seq<Path> {
    if rs == [] then [] else
    var init, last := rs[..|rs| - 1], rs[|rs| - 1];
    if last.Shutdown? || last in init then FirstPaths(init) else FirstPaths(init) + [last.path]
  }

  predicate Distinct(paths: seq<Path>) {
    forall m, n :: 0 <= m < n < |paths| ==> paths[m] != paths[n]
  }

  lemma {:induction false} FirstPathsAreDistinct(rs: seq<Request>)
    ensures Distinct(FirstPaths(rs))
    ensures forall p :: p in FirstPaths(rs) <==> p in PathsOf(rs)
  {
    if rs != [] {
      var init, last := rs[..|rs| - 1], rs[|rs| - 1];
      FirstPathsAreDistinct(init);
      assert rs == init + [last];
      PathsOfSnoc(init, last);
      if last.Upload? {
        InPathsOf(init, last.path);
      }
    }
  }

  /** Paths attempted once each are either uploaded or failed, not both. */
  lemma AttemptedOnce(attempts: seq<Attempt>, rs: seq<Request>)
    requires PathsTried(attempts) == FirstPaths(rs)
    ensures Uploaded(attempts) + Failed(attempts) == PathsOf(rs)
    ensures Uploaded(attempts) !! Failed(attempts)
    ensures Distinct(PathsTried(attempts))
  {
    FirstPathsAreDistinct(rs);
    forall p
      ensures p in Uploaded(attempts) + Failed(attempts) <==> p in PathsTried(attempts)
    {
      if p in PathsTried(attempts) {
        var m :| 0 <= m < |attempts| && attempts[m].path == p;
        assert attempts[m] in attempts;
      }
      if a :| a in attempts && a.path == p {
        var m :| 0 <= m < |attempts| && attempts[m] == a;
        assert PathsTried(attempts)[m] == p;
      }
    }
    forall a, b | a in attempts && b in attempts && a.path == b.path
      ensures a == b
    {
      var m :| 0 <= m < |attempts| && attempts[m] == a;
      var n :| 0 <= n < |attempts| && attempts[n] == b;
      assert PathsTried(attempts)[m] == PathsTried(attempts)[n];
    }
  }

  // ----- the worker's loop -----

  /** n requests received, of which the first k were looked at and the others skipped behind a tripped breaker: `done` is
      the set of the first k paths, and what was attempted since `before` is each of them, where it came first. */
  predicate DrainedSoFar(rs: seq<Request>, n: nat, done: set<Path>, k: nat,
                         tripped: bool, tried: seq<Path>, before: seq<Path>)
  {
    && k <= n <= |rs|
    && done == PathsOf(rs[..k])
    && tried == before + FirstPaths(rs[..k])
    && (k < n ==> tripped)
  }

  /** The loop in progress: `channel` is what is left of `all`. */
  predicate Draining(all: seq<Request>, channel: seq<Request>, n: nat, done: set<Path>, k: nat,
                     tripped: bool, tried: seq<Path>, before: seq<Path>)
  {
    DrainedSoFar(Ahead(all), n, done, k, tripped, tried, before) && n <= |all| && channel == all[n..]
  }

  /** The loop over: everything ahead of the first shutdown message received, and what follows it left. */
  predicate Drained(all: seq<Request>, channel: seq<Request>, n: nat, done: set<Path>, k: nat,
                    tripped: bool, tried: seq<Path>, before: seq<Path>)
  {
    && DrainedSoFar(Ahead(all), n, done, k, tripped, tried, before) && n == |Ahead(all)|
    && channel == (if n < |all| then all[n + 1..] else [])
  }

  lemma AheadIsUploads(rs: seq<Request>)
    ensures OnlyUploads(Ahead(rs))
    ensures OnlyUploads(rs) ==> Ahead(rs + [Shutdown]) == rs
  {
    assert forall m :: 0 <= m < |Ahead(rs)| ==> Ahead(rs)[m] in Ahead(rs);
    AheadSnoc(rs, Shutdown);
  }

  lemma DrainStarts(all: seq<Request>, tripped: bool, before: seq<Path>)
    ensures Draining(all, all, 0, {}, 0, tripped, before, before)
  {
    assert Ahead(all)[..0] == [];
    assert before + [] == before;
  }

  lemma DrainStops(all: seq<Request>, channel: seq<Request>, n: nat, done: set<Path>, k: nat,
                   tripped: bool, tried: seq<Path>, before: seq<Path>)
    requires Draining(all, channel, n, done, k, tripped, tried, before)
    requires channel == [] || channel[0] == Shutdown
    ensures Drained(all, if channel == [] then [] else channel[1..], n, done, k, tripped, tried, before)
  {
    var rs := Ahead(all);
    assert forall m :: 0 <= m < |rs| ==> rs[m] in rs && rs[m] == all[m];
    assert channel != [] ==> all[n] == channel[0];
  }

  lemma NextIsAhead(all: seq<Request>, path: Path, channel: seq<Request>, n: nat)
    requires n <= |Ahead(all)| && n <= |all| && [Upload(path)] + channel == all[n..]
    ensures n < |Ahead(all)| && Ahead(all)[n] == Upload(path) && channel == all[n + 1..]
  {
    assert all[n..][0] == Upload(path) && all[n..][1..] == channel;
  }

  lemma DrainSkips(all: seq<Request>, path: Path, channel: seq<Request>, n: nat, done: set<Path>, k: nat,
                   tried: seq<Path>, before: seq<Path>)
    requires Draining(all, [Upload(path)] + channel, n, done, k, true, tried, before)
    ensures Draining(all, channel, n + 1, done, k, true, tried, before)
  {
    NextIsAhead(all, path, channel, n);
  }

  lemma TakeOn(rs: seq<Request>, path: Path, n: nat)
    requires n < |rs| && rs[n] == Upload(path)
    ensures PathsOf(rs[..n + 1]) == PathsOf(rs[..n]) + {path}
    ensures FirstPaths(rs[..n + 1]) == FirstPaths(rs[..n]) + if path in PathsOf(rs[..n]) then [] else [path]
  {
    var next := rs[..n + 1];
    assert next == rs[..n] + [rs[n]];
    assert next[..|next| - 1] == rs[..n] && next[|next| - 1] == rs[n];
    PathsOfSnoc(rs[..n], rs[n]);
    InPathsOf(rs[..n], path);
  }

  lemma DrainTakesOn(all: seq<Request>, path: Path, channel: seq<Request>, n: nat, done: set<Path>, k: nat,
                     tried: seq<Path>, before: seq<Path>)
    requires Draining(all, [Upload(path)] + channel, n, done, k, false, tried, before)
    ensures Draining(all, channel, n + 1, done + {path}, n + 1, false,
                     tried + if path in done then [] else [path], before)
  {
    NextIsAhead(all, path, channel, n);
    TakeOn(Ahead(all), path, n);
    Associate(before, FirstPaths(Ahead(all)[..n]), if path in done then [] else [path]);
  }

  lemma DrainOutlivesTrip(all: seq<Request>, channel: seq<Request>, n: nat, done: set<Path>, k: nat,
                          tripped: bool, tried: seq<Path>, before: seq<Path>)
    requires Draining(all, channel, n, done, k, tripped, tried, before)
    ensures Draining(all, channel, n, done, k, true, tried, before)
  {
  }

  /** All that was asked for: what was queued before, and the closure of what is new. */
  predicate AskedFor(queued: seq<Request>, closure: seq<Path>, p: Path) {
    Upload(p) in queued || p in closure
  }

  predicate Enqueued(queued: seq<Request>, closure: seq<Path>, channel: seq<Request>) {
    && |channel| == |queued| + |closure|
    && channel[..|queued|] == queued
    && forall m :: 0 <= m < |closure| ==> channel[|queued| + m] == Upload(closure[m])
  }

  lemma DrainedPaths(queued: seq<Request>, closure: seq<Path>, rs: seq<Request>, k: nat)
    requires Enqueued(queued, closure, rs) && k <= |rs|
    ensures forall p :: p in PathsOf(rs[..k]) ==> AskedFor(queued, closure, p)
    ensures k == |rs| ==> forall p :: AskedFor(queued, closure, p) ==> p in PathsOf(rs[..k])
  {
    forall p | p in PathsOf(rs[..k])
      ensures AskedFor(queued, closure, p)
    {
      InPathsOf(rs[..k], p);
      var m :| 0 <= m < k && rs[m] == Upload(p);
      if m < |queued| {
        assert rs[..|queued|][m] == Upload(p);
      } else {
        assert rs[|queued| + (m - |queued|)] == Upload(closure[m - |queued|]);
      }
    }
    forall p | AskedFor(queued, closure, p) && k == |rs|
      ensures p in PathsOf(rs[..k])
    {
      assert rs[..k] == rs;
      if Upload(p) in queued {
        assert Upload(p) in rs[..|queued|];
      } else {
        var m :| 0 <= m < |closure| && closure[m] == p;
        assert rs[|queued| + m] == Upload(p);
      }
      InPathsOf(rs, p);
    }
  }

  /** What a drain down to k means for all that was asked for. */
  lemma DrainedClosure(refs: Path -> set<Path>, queued: seq<Request>, closure: seq<Path>, rs: seq<Request>, k: nat,
                       uploaded: set<Path>, failed: set<Path>)
    requires Enqueued(queued, closure, rs) && k <= |rs| && BatchClosed(refs, closure)
    requires uploaded + failed == PathsOf(rs[..k])
    ensures forall p :: p in uploaded || p in failed ==> AskedFor(queued, closure, p)
    ensures k == |rs| ==> forall p :: AskedFor(queued, closure, p) ==> p in uploaded || p in failed
    ensures k == |rs| && failed == {} && SetClosed(refs, PathsOf(queued)) ==> SetClosed(refs, uploaded)
  {
    DrainedPaths(queued, closure, rs, k);
    assert forall p :: p in uploaded || p in failed ==> p in PathsOf(rs[..k]);
    if k == |rs| && failed == {} && SetClosed(refs, PathsOf(queued)) {
      forall p, q | p in uploaded && q in refs(p)
        ensures q in uploaded
      {
        InPathsOf(queued, p);
        InPathsOf(queued, q);
        assert AskedFor(queued, closure, q);
      }
    }
  }

  datatype Counts = Counts(original: nat, final: nat, new_: nat)

  class Session {
    const breaker: Api.CircuitBreaker
    /** Present if the daemon was told to diff the store. */
    var originalPaths: Option<set<Path>>
    var numOriginal: nat
    var numFinal: nat
    var numNew: nat
    var channel: seq<Request>
    /** The join handle is there and the worker's receiver open. */
    var running: bool
    /** The uploads attempted, in order. */
    var attempts: seq<Attempt>

    /** The worker only gets its turn when the session is shut down. */
    predicate Valid()
      reads this
    {
      OnlyUploads(channel) && (running ==> attempts == [])
    }

    constructor (diffStore: bool)
      ensures Valid() && fresh(breaker) && !breaker.tripped
      ensures originalPaths == (if diffStore then Some({}) else None) && running && channel == []
    {
      breaker := new Api.CircuitBreaker();
      originalPaths := if diffStore then Some({}) else None;
      channel, running, attempts := [], true, [];
      numOriginal, numFinal, numNew := 0, 0, 0;
    }

    /** `listing` is what reading the store gave. */
    method WorkflowStart(listing: Result<set<Path>, string>) returns (reply: Result<Option<nat>, string>)
      modifies this`originalPaths, this`numOriginal
      ensures originalPaths.Some? <==> old(originalPaths).Some?
      ensures originalPaths.Some? && listing.Ok? ==>
                originalPaths.value == listing.value && numOriginal == |listing.value| && reply == Ok(Some(numOriginal))
      ensures originalPaths.None? ==> reply == Ok(None)
      ensures originalPaths.Some? && listing.Err? ==> reply == Err(listing.error)
      ensures originalPaths.None? || listing.Err? ==> originalPaths == old(originalPaths) && numOriginal == old(numOriginal)
    {
      if originalPaths.None? {
        return Ok(None);
      }
      if listing.Err? {
        return Err(listing.error);
      }
      originalPaths := Some(listing.value);
      numOriginal := |originalPaths.value|;
      reply := Ok(Some(numOriginal));
    }

    /** Fails exactly if there is something to send and the worker is gone. */
    method EnqueuePaths(closure: seq<Path>) returns (ok: bool)
      requires Valid()
      modifies this`channel
      ensures Valid()
      ensures ok <==> running || closure == []
      ensures running ==> Enqueued(old(channel), closure, channel)
      ensures !running ==> channel == old(channel)
    {
      for n := 0 to |closure|
        invariant Valid() && (n > 0 ==> running)
        invariant Enqueued(old(channel), closure[..n], channel)
      {
        if !running {
          return false;
        }
        channel := channel + [Upload(closure[n])];
      }
      assert closure[..|closure|] == closure;
      ok := true;
    }

    /** upload_path as the worker sees it: it succeeds or fails, and the breaker may trip meanwhile. */
    method UploadPath(path: Path)
      modifies this`attempts, breaker
      ensures exists ok :: attempts == old(attempts) + [Attempt(path, ok)]
      ensures PathsTried(attempts) == PathsTried(old(attempts)) + [path]
      ensures old(breaker.tripped) ==> breaker.tripped
    {
      var ok: bool, trips: bool := *, *;
      if trips {
        breaker.tripped := true;
      }
      attempts := attempts + [Attempt(path, ok)];
    }

    /** One upload request: skipped behind a tripped breaker, ignored if it was taken on before, else attempted. `all` is
        what the worker will ever receive, `before` what had been attempted when it started. */
    method Handle(path: Path, done: set<Path>, ghost all: seq<Request>, ghost n: nat, ghost k: nat, ghost before: seq<Path>)
        returns (done': set<Path>, ghost k': nat)
      requires Draining(all, [Upload(path)] + channel, n, done, k, breaker.tripped, PathsTried(attempts), before)
      modifies this`attempts, breaker
      ensures Draining(all, channel, n + 1, done', k', breaker.tripped, PathsTried(attempts), before)
      ensures old(attempts) <= attempts
      ensures old(breaker.tripped) ==> breaker.tripped
    {
      if breaker.tripped {
        DrainSkips(all, path, channel, n, done, k, PathsTried(attempts), before);
        return done, k;
      }
      DrainTakesOn(all, path, channel, n, done, k, PathsTried(attempts), before);
      done', k' := done + {path}, n + 1;
      if path in done {
        assert PathsTried(attempts) + [] == PathsTried(attempts);
        return;
      }
      ghost var tried := PathsTried(attempts) + [path];
      UploadPath(path);
      DrainOutlivesTrip(all, channel, n + 1, done', k', false, tried, before);
    }

    /** One turn of the worker's loop: receives a request, and stops or handles it. The breaker may have tripped before. */
    method Receive(done: set<Path>, ghost all: seq<Request>, ghost n: nat, ghost k: nat, ghost before: seq<Path>)
        returns (stops: bool, done': set<Path>, ghost n': nat, ghost k': nat)
      requires channel != []
      requires Draining(all, channel, n, done, k, breaker.tripped, PathsTried(attempts), before)
      modifies this`channel, this`attempts, breaker
      ensures stops ==> Drained(all, channel, n', done', k', breaker.tripped, PathsTried(attempts), before)
      ensures !stops ==> Draining(all, channel, n', done', k', breaker.tripped, PathsTried(attempts), before)
      ensures |channel| < |old(channel)| && old(attempts) <= attempts
      ensures old(breaker.tripped) ==> breaker.tripped
    {
      var request := channel[0];
      var trips: bool := *;
      DrainOutlivesTrip(all, channel, n, done, k, breaker.tripped, PathsTried(attempts), before);
      if trips {
        breaker.tripped := true;
      }
      if request.Shutdown? {
        DrainStops(all, channel, n, done, k, breaker.tripped, PathsTried(attempts), before);
        channel := channel[1..];
        return true, done, n, k;
      }
      assert [Upload(request.path)] + channel[1..] == channel;
      channel := channel[1..];
      stops, n' := false, n + 1;
      done', k' := Handle(request.path, done, all, n, k, before);
    }

    /** The worker's loop over all it will ever receive. It stops at the first shutdown message, leaving what follows, and
        what it did with the requests ahead of it is determined by how many of them it received before the breaker
        tripped: each path among those was attempted, once, in the order of their first requests, and no other. */
    method Worker() returns (done: set<Path>, ghost n: nat, ghost k: nat)
      modifies this`channel, this`attempts, breaker
      ensures Drained(old(channel), channel, n, done, k, breaker.tripped, PathsTried(attempts), PathsTried(old(attempts)))
      ensures old(attempts) <= attempts
      ensures old(breaker.tripped) ==> breaker.tripped
    {
      done, n, k := {}, 0, 0;
      ghost var all, before := channel, PathsTried(attempts);
      DrainStarts(all, breaker.tripped, before);
      while channel != []
        invariant Draining(all, channel, n, done, k, breaker.tripped, PathsTried(attempts), before)
        invariant old(attempts) <= attempts
        invariant old(breaker.tripped) ==> breaker.tripped
        decreases |channel|
      {
        var stops;
        stops, done, n, k := Receive(done, all, n, k, before);
        if stops {
          return;
        }
      }
      DrainStops(all, channel, n, done, k, breaker.tripped, PathsTried(attempts), before);
    }

    /** The first call sends the shutdown message and waits for the worker; every later one does nothing. */
    method ShutDown() returns (ghost k: nat)
      requires Valid()
      modifies this`channel, this`running, this`attempts, breaker
      ensures Valid() && !running
      ensures !old(running) ==>
                channel == old(channel) && attempts == old(attempts) && breaker.tripped == old(breaker.tripped)
      ensures old(running) ==>
                && channel == [] && k <= |old(channel)| && PathsTried(attempts) == FirstPaths(old(channel)[..k])
                && (k < |old(channel)| ==> breaker.tripped)
      ensures old(breaker.tripped) ==> breaker.tripped
    {
      k := 0;
      if running {
        running := false;
        AheadIsUploads(channel);
        channel := channel + [Shutdown];
        var _, _, taken := Worker();
        k := taken;
        assert [] + FirstPaths(old(channel)[..k]) == FirstPaths(old(channel)[..k]);
      }
    }

    /** The paths the store has now and did not have at the start. */
    method DiffStore(storePaths: set<Path>, original: set<Path>) returns (newPaths: seq<Path>)
      ensures |newPaths| == |storePaths - original|
      ensures forall p :: p in newPaths <==> p in storePaths - original
    {
      newPaths := [];
      var rest := storePaths - original;
      while rest != {}
        invariant forall p :: p in newPaths || p in rest <==> p in storePaths - original
        invariant |newPaths| + |rest| == |storePaths - original|
        decreases |rest|
      {
        var p :| p in rest;
        newPaths := newPaths + [p];
        rest := rest - {p};
      }
    }

    /** Diffs the store, enqueues the closure of what is new, and drains the queue. It fails exactly if the store cannot be
        read, a new path is no store path, its closure cannot be computed, or there is something to enqueue after an
        earlier shutdown. Each path is attempted at most once. With no failed upload and no trip, everything new and
        everything queued before is uploaded, and with it all it refers to. */
    method WorkflowFinish(listing: Result<set<Path>, string>, isStorePath: Path -> bool, refs: Path -> set<Path>,
                          closureOf: seq<Path> -> Result<seq<Path>, string>)
        returns (reply: Result<Option<Counts>, string>, newPaths: seq<Path>)
      requires Valid()
      requires forall paths :: closureOf(paths).Ok? ==> IsClosureOf(refs, paths, closureOf(paths).value)
      modifies this, breaker
      ensures Valid() && originalPaths == old(originalPaths) && (old(breaker.tripped) ==> breaker.tripped)
      ensures originalPaths.Some? && listing.Ok? ==>
                && |newPaths| == |listing.value - originalPaths.value|
                && (forall p :: p in newPaths <==> p in listing.value - originalPaths.value)
      ensures reply.Err? <==>
                originalPaths.Some?
                && (listing.Err? || (exists p :: p in newPaths && !isStorePath(p)) || closureOf(newPaths).Err?
                    || (!old(running) && closureOf(newPaths).value != []))
      ensures originalPaths.Some? && listing.Err? ==> reply == Err(listing.error)
      ensures originalPaths.Some? && listing.Ok? && (forall p :: p in newPaths ==> isStorePath(p)) ==>
                (closureOf(newPaths).Err? ==> reply == Err(closureOf(newPaths).error))
      ensures reply.Err? ==> channel == old(channel) && running == old(running) && attempts == old(attempts)
      ensures originalPaths.None? || listing.Err? || (exists p :: p in newPaths && !isStorePath(p)) ==>
                numOriginal == old(numOriginal) && numFinal == old(numFinal) && numNew == old(numNew)
      ensures reply.Ok? ==> !running
      ensures reply.Ok? ==>
                reply.value == if originalPaths.None? then None
                               else Some(Counts(|originalPaths.value|, |listing.value|, |newPaths|))
      ensures originalPaths.Some? && listing.Ok? && (forall p :: p in newPaths ==> isStorePath(p)) ==>
                Counts(numOriginal, numFinal, numNew) == Counts(|originalPaths.value|, |listing.value|, |newPaths|)
      ensures reply.Ok? && !old(running) ==> attempts == old(attempts) && channel == old(channel)
      ensures reply.Ok? && old(running) ==>
                var closure := if originalPaths.Some? then closureOf(newPaths).value else [];
                var uploaded, failed := Uploaded(attempts), Failed(attempts);
                && channel == [] && Distinct(PathsTried(attempts)) && uploaded !! failed
                && (forall p :: p in uploaded || p in failed ==> AskedFor(old(channel), closure, p))
                && (!breaker.tripped ==> forall p :: AskedFor(old(channel), closure, p) ==> p in uploaded || p in failed)
                && (!breaker.tripped && failed == {} && SetClosed(refs, PathsOf(old(channel))) ==> SetClosed(refs, uploaded))
    {
      reply, newPaths := Ok(None), [];
      var closure: seq<Path> := [];
      if originalPaths.Some? {
        if listing.Err? {
          return Err(listing.error), [];
        }
        var original := originalPaths.value;
        newPaths := DiffStore(listing.value, original);
        if p :| p in newPaths && !isStorePath(p) {
          return Err("not a store path"), newPaths;
        }
        numOriginal, numFinal, numNew := |original|, |listing.value|, |newPaths|;
        reply := Ok(Some(Counts(numOriginal, numFinal, numNew)));
        if closureOf(newPaths).Err? {
          return Err(closureOf(newPaths).error), newPaths;
        }
        closure := closureOf(newPaths).value;
        assert IsClosureOf(refs, newPaths, closure);
        var sent := EnqueuePaths(closure);
        if !sent {
          return Err("Cannot send upload message"), newPaths;
        }
      }
      ghost var wasRunning, rs := running, channel;
      var k := ShutDown();
      if wasRunning {
        AttemptedOnce(attempts, rs[..k]);
        DrainedClosure(refs, old(channel), closure, rs, k, Uploaded(attempts), Failed(attempts));
      }
    }
  }
}
