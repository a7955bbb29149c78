/** The HTTP handlers of the binary cache, one request at a time, over string keys: path splitting, the negative cache,
    the counters, and the backend behind them. */
module BinaryCache {
  import opened Common
  import opened Api
  import opened Keys

  datatype Reply = Redirect(url: string) | NotFound | BadRequest | BackendFailed(error: Error) | Stored

  /** Interprets a request path as "<hash>.narinfo". */
  function NarinfoHash(path: string): (r: Option<string>)
    ensures r.Some? ==> DotFree(r.value) && path == InfoBase(r.value)
    ensures r.None? ==> forall h: string :: DotFree(h) ==> path != InfoBase(h)
  {
    match SplitOnce(path)
    case None =>
      assert forall h: string :: InfoBase(h)[|h|] == '.';
      None
    case Some((left, right)) =>
      assert right != "narinfo" ==> forall h: string :: DotFree(h) ==> path != InfoBase(h) by {
        forall h: string | DotFree(h) && path == InfoBase(h)
          ensures right == "narinfo"
        {
          Extensions(h);
          FirstDotsAlign(h, left, "narinfo", right);
        }
      }
      if right == "narinfo" then Some(left) else None
  }

  /** A prefix lookup finds something. */
  predicate Hit(stored: set<string>, prefix: string) {
    exists k :: k in stored && prefix <= k
  }

  /** A request to the backend and its answer; a put answered with success has no failure. */
  datatype Call =
    | Looked(prefix: string, answer: Result<Option<string>, Error>)
    | Put(key: string, failure: Option<Error>)


  class Daemon {
    const upstream: Option<string>
    const breaker: CircuitBreaker
    /** Keys of the committed entries. */
    var stored: set<string>
    var negative: set<string>
    /** What was asked of the backend, in order. */
    var calls: seq<Call>

    var narinfosServed: nat
    var narinfosSentUpstream: nat
    var negativeHits: nat
    var negativeMisses: nat
    var narinfosUploaded: nat
    var narsServed: nat
    var narsSentUpstream: nat
    var narsUploaded: nat

    constructor (upstream: Option<string>)
      ensures fresh(breaker) && !breaker.tripped && this.upstream == upstream
      ensures stored == {} && negative == {} && calls == [] && Valid() && Disjoint()
    {
      this.upstream := upstream;
      breaker := new CircuitBreaker();
      stored, negative, calls := {}, {}, [];
      narinfosServed, narinfosSentUpstream, negativeHits, negativeMisses, narinfosUploaded := 0, 0, 0, 0, 0;
      narsServed, narsSentUpstream, narsUploaded := 0, 0, 0;
    }

    ghost predicate Valid()
      reads this
    {
      forall h :: h in negative ==> DotFree(h)
    }

    /** No hash in the negative cache has an entry a lookup would find. */
    ghost predicate Disjoint()
      reads this
    {
      forall h :: h in negative ==> !Hit(stored, InfoBase(h))
    }

    function PullThrough(path: string): Reply {
      if upstream.Some? then Redirect(upstream.value + "/" + path) else NotFound
    }

    /** The backend's side of a prefix lookup. */
    method Query(prefix: string) returns (r: Result<Option<string>, Error>)
      modifies this`calls
      ensures calls == old(calls) + [Looked(prefix, r)]
      ensures r.Ok? && r.value.Some? ==> r.value.value in stored && prefix <= r.value.value
      ensures r.Ok? && r.value.None? ==> !Hit(stored, prefix)
    {
      var fails: bool, error: Error := *, *;
      if fails {
        r := Err(error);
      } else if k :| k in stored && prefix <= k {
        r := Ok(Some(k));
      } else {
        r := Ok(None);
      }
      calls := calls + [Looked(prefix, r)];
    }

    /** The backend's side of reserving a key and uploading under it: a success has stored the entry; a failure may or may
        not have. */
    method Store(key: string) returns (r: Result<(), Error>)
      modifies this`stored, this`calls
      ensures calls == old(calls) + [Put(key, ErrorOf(r))]
      ensures r.Ok? ==> key !in old(stored) && stored == old(stored) + {key}
      ensures r.Err? ==> stored == old(stored) || stored == old(stored) + {key}
    {
      var fails: bool, arrives: bool, error: Error := *, *, *;
      r := if fails || key in stored then Err(error) else Ok(());
      if r.Ok? || arrives {
        stored := stored + {key};
      }
      calls := calls + [Put(key, ErrorOf(r))];
    }

    /** get_file_url: behind a tripped breaker nothing is asked; else the backend is asked once, and its answer is the
        result and what the breaker sees. */
    method GetFileUrl(key: string) returns (r: Result<Option<string>, Error>)
      modifies this`calls, breaker
      ensures old(breaker.tripped) ==> r == Err(CircuitBreakerTripped) && calls == old(calls)
      ensures !old(breaker.tripped) ==> calls == old(calls) + [Looked(key, r)]
      ensures breaker.tripped == (old(breaker.tripped) || (r.Err? && Exhausted(r.error)))
      ensures r.Ok? && r.value.Some? ==> Hit(stored, key) && r.value.value in stored && key <= r.value.value
      ensures r.Ok? && r.value.None? ==> !Hit(stored, key)
    {
      if breaker.tripped {
        return Err(CircuitBreakerTripped);
      }
      r := Query(key);
      breaker.CheckResult(r);
    }

    /** Allocation with a random suffix followed by upload_file. */
    method Upload(base: string) returns (r: Result<(), Error>, ghost full: string)
      modifies this`stored, this`calls, breaker
      ensures Suffixed(base, full)
      ensures r.Ok? ==> full !in old(stored) && stored == old(stored) + {full}
      ensures r.Err? ==> stored == old(stored) || stored == old(stored) + {full}
      ensures old(breaker.tripped) ==> r == Err(CircuitBreakerTripped) && stored == old(stored) && calls == old(calls)
      ensures !old(breaker.tripped) ==> calls == old(calls) + [Put(full, ErrorOf(r))]
      ensures breaker.tripped == (old(breaker.tripped) || (r.Err? && Exhausted(r.error)))
    {
      assert Nonce("0000");
      var nonce: string :| Nonce(nonce);
      AddSuffix(base, nonce);
      var key := base + "-" + nonce;
      full := key;
      if breaker.tripped {
        return Err(CircuitBreakerTripped), full;
      }
      r := Store(key);
      breaker.CheckResult(r);
    }

    /** The answer of get_file_url decides: `answer` is None if it was not asked, for a malformed path or a hash in the
        negative cache. */
    method GetNarinfo(path: string) returns (reply: Reply, ghost answer: Option<Result<Option<string>, Error>>)
      requires Valid()
      modifies this`negative, this`calls, breaker
      modifies this`narinfosServed, this`narinfosSentUpstream, this`negativeHits, this`negativeMisses
      ensures Valid() && (old(Disjoint()) ==> Disjoint())
      // whom it asks
      ensures answer.Some? <==> NarinfoHash(path).Some? && NarinfoHash(path).value !in old(negative)
      ensures calls == old(calls) + if answer.Some? && !old(breaker.tripped)
                                    then [Looked(InfoBase(NarinfoHash(path).value), answer.value)] else []
      ensures answer.Some? && old(breaker.tripped) ==> answer.value == Err(CircuitBreakerTripped)
      ensures breaker.tripped
              == (old(breaker.tripped) || (answer.Some? && answer.value.Err? && Exhausted(answer.value.error)))
      // what it replies
      ensures NarinfoHash(path).None? ==> reply == NotFound
      ensures answer.Some? && answer.value.Err? ==> reply == BackendFailed(answer.value.error)
      ensures answer.Some? && answer.value.Ok? && answer.value.value.Some? ==>
                var url := answer.value.value.value;
                reply == Redirect(url) && url in stored && InfoBase(NarinfoHash(path).value) <= url
      ensures NarinfoHash(path).Some? && (answer.None? || answer.value == Ok(None)) ==>
                reply == if upstream.Some? then Redirect(upstream.value + "/" + NarinfoHash(path).value + ".narinfo")
                         else NotFound
      ensures answer == Some(Ok(None)) ==> !Hit(stored, InfoBase(NarinfoHash(path).value))
      // what it leaves
      ensures negative == old(negative) + if answer == Some(Ok(None)) then {NarinfoHash(path).value} else {}
      ensures narinfosServed == old(narinfosServed)
                                + if answer.Some? && answer.value.Ok? && answer.value.value.Some? then 1 else 0
      ensures negativeHits == old(negativeHits) + if NarinfoHash(path).Some? && answer.None? then 1 else 0
      ensures negativeMisses == old(negativeMisses) + if answer == Some(Ok(None)) then 1 else 0
      ensures narinfosSentUpstream - old(narinfosSentUpstream)
              == negativeHits - old(negativeHits) + negativeMisses - old(negativeMisses)
    {
      answer := None;
      var hash := NarinfoHash(path);
      if hash.None? {
        return NotFound, answer;
      }
      var h := hash.value;
      assert upstream.Some? ==> upstream.value + "/" + path == upstream.value + "/" + h + ".narinfo";
      if h in negative {
        narinfosSentUpstream := narinfosSentUpstream + 1;
        negativeHits := negativeHits + 1;
        return PullThrough(path), answer;
      }
      var url := GetFileUrl(InfoBase(h));
      answer := Some(url);
      if url.Err? {
        return BackendFailed(url.error), answer;
      }
      if url.value.Some? {
        narinfosServed := narinfosServed + 1;
        return Redirect(url.value.value), answer;
      }
      negative := negative + {h};
      narinfosSentUpstream := narinfosSentUpstream + 1;
      negativeMisses := negativeMisses + 1;
      reply := PullThrough(path);
    }

    /** A successful put keeps the negative cache disjoint from what is stored. A failed one breaks it exactly if the
        entry was stored all the same and its hash was in the negative cache. `key` is what the narinfo went under. */
    method PutNarinfo(path: string) returns (reply: Reply, ghost key: string)
      requires Valid()
      modifies this`stored, this`negative, this`calls, this`narinfosUploaded, breaker
      ensures Valid()
      ensures reply == BadRequest || reply == Stored || reply.BackendFailed?
      ensures reply == BadRequest <==> NarinfoHash(path).None?
      ensures reply == BadRequest ==>
                stored == old(stored) && calls == old(calls) && breaker.tripped == old(breaker.tripped)
      ensures reply != BadRequest ==> Suffixed(InfoBase(NarinfoHash(path).value), key)
      ensures reply == Stored ==>
                calls == old(calls) + [Put(key, None)] && key !in old(stored) && stored == old(stored) + {key}
      ensures reply.BackendFailed? && !old(breaker.tripped) ==> calls == old(calls) + [Put(key, Some(reply.error))]
      ensures reply.BackendFailed? ==> old(stored) <= stored <= old(stored) + {key}
      ensures negative == old(negative) - if reply == Stored then {NarinfoHash(path).value} else {}
      ensures narinfosUploaded == old(narinfosUploaded) + if reply == Stored then 1 else 0
      ensures breaker.tripped == (old(breaker.tripped) || (reply.BackendFailed? && Exhausted(reply.error)))
      ensures old(breaker.tripped) ==>
                stored == old(stored) && calls == old(calls)
                && (reply == BadRequest || reply == BackendFailed(CircuitBreakerTripped))
      ensures old(Disjoint()) ==>
                (Disjoint() <==>
                   !(reply.BackendFailed? && stored != old(stored) && NarinfoHash(path).value in old(negative)))
    {
      key := "";
      var hash := NarinfoHash(path);
      if hash.None? {
        return BadRequest, key;
      }
      var h := hash.value;
      var r;
      r, key := Upload(InfoBase(h));
      NewKeyMatches(h, key);
      if r.Err? {
        return BackendFailed(r.error), key;
      }
      narinfosUploaded := narinfosUploaded + 1;
      negative := negative - {h};
      reply := Stored;
    }

    lemma NewKeyMatches(h: string, full: string)
      requires Valid() && DotFree(h) && Suffixed(InfoBase(h), full)
      ensures forall g :: g in negative ==> (InfoBase(g) <= full <==> g == h)
      ensures InfoBase(h) <= full
    {
      forall g | g in negative
        ensures InfoBase(g) <= full <==> g == h
      {
        InfoLookupIsExact(g, h, full);
      }
      InfoLookupIsExact(h, h, full);
    }

    lemma NarKeyMatchesNothing(nar: string, full: string)
      requires Valid() && DotFree(nar) && Suffixed(NarBase(nar), full)
      ensures forall g :: DotFree(g) ==> !(InfoBase(g) <= full)
      ensures NarBase(nar) <= full
    {
      forall g | DotFree(g)
        ensures !(InfoBase(g) <= full)
      {
        AddSuffix(InfoBase(nar), "0000");
        KindsNeverMix(g, nar, full, InfoBase(nar) + "-" + "0000");
      }
      NarLookupIsExact(nar, nar, full);
    }

    /** upload_path: the NAR first, then the narinfo that names it, then the negative cache. Each of the two is put once, the
        second only if the first succeeded and it was `reached`. The negative cache stays disjoint unless the narinfo of
        a hash in it was stored although its upload failed. */
    method UploadPath(hash: string, nar: string)
        returns (r: Result<(), Error>, ghost narKey: string, ghost infoKey: string, ghost reached: bool)
      requires Valid() && DotFree(hash) && DotFree(nar)
      modifies this`stored, this`negative, this`calls, this`narsUploaded, this`narinfosUploaded, breaker
      ensures Valid() && Suffixed(NarBase(nar), narKey) && Suffixed(InfoBase(hash), infoKey)
      // what it asks
      ensures !reached ==> r.Err? && (!old(breaker.tripped) ==> calls == old(calls) + [Put(narKey, Some(r.error))])
      ensures reached ==> !old(breaker.tripped) && calls == old(calls) + [Put(narKey, None), Put(infoKey, ErrorOf(r))]
      ensures old(breaker.tripped) ==> r == Err(CircuitBreakerTripped) && stored == old(stored) && calls == old(calls)
      ensures breaker.tripped == (old(breaker.tripped) || (r.Err? && Exhausted(r.error)))
      // what it leaves
      ensures old(stored) <= stored <= old(stored) + {narKey, infoKey}
      ensures reached ==> narKey in stored && Hit(stored, NarBase(nar))
      ensures !reached ==> stored <= old(stored) + {narKey}
      ensures r.Ok? ==> infoKey in stored && Hit(stored, InfoBase(hash))
      ensures negative == old(negative) - if r.Ok? then {hash} else {}
      ensures narsUploaded == old(narsUploaded) + if reached then 1 else 0
      ensures narinfosUploaded == old(narinfosUploaded) + if r.Ok? then 1 else 0
      ensures old(Disjoint()) ==>
                (Disjoint() <==> !(r.Err? && hash in old(negative) && infoKey in stored && infoKey !in old(stored)))
    {
      var uploaded;
      reached := false;
      AddSuffix(InfoBase(hash), "0000");
      infoKey := InfoBase(hash) + "-" + "0000";
      uploaded, narKey := Upload(NarBase(nar));
      NarKeyMatchesNothing(nar, narKey);
      if uploaded.Err? {
        assert infoKey != narKey;
        return Err(uploaded.error), narKey, infoKey, reached;
      }
      assert narKey in stored;
      assert Hit(stored, NarBase(nar));
      narsUploaded := narsUploaded + 1;
      uploaded, infoKey := Upload(InfoBase(hash));
      reached := true;
      NewKeyMatches(hash, infoKey);
      assert narKey in stored;
      if uploaded.Err? {
        return Err(uploaded.error), narKey, infoKey, reached;
      }
      assert infoKey in stored;
      narinfosUploaded := narinfosUploaded + 1;
      negative := negative - {hash};
      r := Ok(());
    }

    method GetNar(path: string) returns (reply: Reply, ghost answer: Result<Option<string>, Error>)
      modifies this`calls, this`narsServed, this`narsSentUpstream, breaker
      ensures old(breaker.tripped) ==> answer == Err(CircuitBreakerTripped) && calls == old(calls)
      ensures !old(breaker.tripped) ==> calls == old(calls) + [Looked(path, answer)]
      ensures breaker.tripped == (old(breaker.tripped) || (answer.Err? && Exhausted(answer.error)))
      ensures answer.Err? ==> reply == BackendFailed(answer.error)
      ensures answer.Ok? ==> (answer.value.Some? <==> Hit(stored, path))
      ensures answer.Ok? && answer.value.Some? ==>
                reply == Redirect(answer.value.value) && answer.value.value in stored && path <= answer.value.value
      ensures answer == Ok(None) ==> reply == if upstream.Some? then Redirect(upstream.value + "/nar/" + path) else NotFound
      ensures narsServed == old(narsServed) + if answer.Ok? && answer.value.Some? then 1 else 0
      ensures narsSentUpstream == old(narsSentUpstream) + if answer == Ok(None) && upstream.Some? then 1 else 0
    {
      var url := GetFileUrl(path);
      answer := url;
      if url.Err? {
        return BackendFailed(url.error), answer;
      }
      if url.value.Some? {
        narsServed := narsServed + 1;
        return Redirect(url.value.value), answer;
      }
      if upstream.Some? {
        narsSentUpstream := narsSentUpstream + 1;
        reply := Redirect(upstream.value + "/nar/" + path);
      } else {
        reply := NotFound;
      }
    }

    /** The path of a NAR is not checked: storing one under a path that starts like a narinfo breaks the disjointness,
        and nothing else does. */
    method PutNar(path: string) returns (reply: Reply, ghost key: string)
      requires Valid()
      modifies this`stored, this`calls, this`narsUploaded, breaker
      ensures Valid() && Suffixed(path, key)
      ensures reply == Stored || reply.BackendFailed?
      ensures reply == Stored ==>
                calls == old(calls) + [Put(key, None)] && key !in old(stored) && stored == old(stored) + {key}
      ensures reply.BackendFailed? && !old(breaker.tripped) ==> calls == old(calls) + [Put(key, Some(reply.error))]
      ensures old(stored) <= stored <= old(stored) + {key}
      ensures narsUploaded == old(narsUploaded) + if reply == Stored then 1 else 0
      ensures breaker.tripped == (old(breaker.tripped) || (reply.BackendFailed? && Exhausted(reply.error)))
      ensures old(breaker.tripped) ==>
                stored == old(stored) && calls == old(calls) && reply == BackendFailed(CircuitBreakerTripped)
      ensures old(Disjoint()) ==>
                (Disjoint() <==> stored == old(stored) || forall h :: h in negative ==> !(InfoBase(h) <= path))
    {
      var r;
      r, key := Upload(path);
      forall h | h in negative
        ensures InfoBase(h) <= key <==> InfoBase(h) <= path
      {
        InfoLookupOfAnyPath(h, path, key);
      }
      if r.Err? {
        return BackendFailed(r.error), key;
      }
      narsUploaded := narsUploaded + 1;
      reply := Stored;
    }
  }
}
