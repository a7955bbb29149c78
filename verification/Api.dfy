/** The sequential side of the gha-cache client: errors and the circuit breaker, the chunk reader, the V2 append upload,
    and reservation with random suffixes. Whatever the stream, the service or the random generator may do is chosen
    nondeterministically. */
module Api {
  import opened Common
  import opened Chunking
  import opened UploadEngine
  import UploadSafety

  // ----- errors -----

  datatype ApiErrorInfo = Unstructured | Structured(message: string)

  datatype ClientError = Twirp(resourceExhausted: bool) | HttpError(status: nat) | OtherClientError

  datatype Error =
    | InitError | CircuitBreakerTripped | RequestError | DecodeError(status: nat)
    | ApiError(status: nat, info: ApiErrorInfo) | ApiErrorNotOk | TwirpError(cause: ClientError)
    | IoError | TooManyCollisions

  const TOO_MANY_REQUESTS: nat := 429
  const BAD_GATEWAY: nat := 502
  const ALREADY_EXISTS := "Cache already exists"

  /** The answers taken to mean that the backend is throttling us. */
  predicate Exhausted(e: Error) {
    || (e.ApiError? && e.status == TOO_MANY_REQUESTS)
    || e == TwirpError(Twirp(true))
    || e == TwirpError(HttpError(BAD_GATEWAY))
  }

  predicate Contains(text: string, part: string) {
    exists i {:trigger text[i..]} :: 0 <= i <= |text| && part <= text[i..]
  }

  /** The one answer after which another suffix is tried. */
  predicate Collision(r: Result<string, Error>) {
    && r.Err? && r.error.ApiError? && r.error.info.Structured?
    && Contains(r.error.info.message, ALREADY_EXISTS)
  }

  lemma CollisionIsExact(r: Result<string, Error>)
    ensures Collision(r) <==> exists status, before, after ::
              r == Err(ApiError(status, Structured(before + "Cache already exists" + after)))
  {
    if Collision(r) {
      var text := r.error.info.message;
      var i :| 0 <= i <= |text| && ALREADY_EXISTS <= text[i..];
      var before, after := text[..i], text[i..][|ALREADY_EXISTS|..];
      assert text == before + "Cache already exists" + after;
      assert r == Err(ApiError(r.error.status, Structured(before + "Cache already exists" + after)));
    }
    if status, before, after :| r == Err(ApiError(status, Structured(before + "Cache already exists" + after))) {
      var text := before + "Cache already exists" + after;
      assert text[|before|..] == "Cache already exists" + after;
    }
  }

  // ----- the circuit breaker -----

  class CircuitBreaker {
    var tripped: bool
    var callbacks: nat

    constructor ()
      ensures !tripped && callbacks == 0
    {
      tripped, callbacks := false, 0;
    }

    method CheckErr(e: Error)
      modifies this
      ensures tripped == (old(tripped) || Exhausted(e))
      ensures Exhausted(e) <==> || (e.ApiError? && e.status == 429)
                                || (e.TwirpError? && (e.cause == Twirp(true) || e.cause == HttpError(502)))
      ensures callbacks == old(callbacks) + if Exhausted(e) then 1 else 0
    {
      match e {
        case ApiError(status, _) =>
          if status != TOO_MANY_REQUESTS { return; }
        case TwirpError(Twirp(exhausted)) =>
          if !exhausted { return; }
        case TwirpError(HttpError(status)) =>
          if status != BAD_GATEWAY { return; }
        case _ => return;
      }
      tripped := true;
      callbacks := callbacks + 1;
    }

    method CheckResult<T>(r: Result<T, Error>)
      modifies this
      ensures tripped == (old(tripped) || (r.Err? && Exhausted(r.error)))
      ensures callbacks == old(callbacks) + if r.Err? && Exhausted(r.error) then 1 else 0
    {
      if r.Err? {
        CheckErr(r.error);
      }
    }
  }

  // ----- reading chunks -----

  /** A byte source that hands out what is left in pieces of any positive size, or fails. */
  class ByteStream {
    var rest: seq<Byte>
    var failed: bool

    constructor (data: seq<Byte>)
      ensures rest == data && !failed
    {
      rest, failed := data, false;
    }

    /** Reads into buf from `len` on; a result of zero means the end of the stream. */
    method ReadBuf(buf: array<Byte>, len: nat) returns (r: Result<nat, Error>)
      requires len < buf.Length
      modifies this, buf
      ensures failed == (old(failed) || r.Err?)
      ensures r.Ok? ==> r.value <= |old(rest)| && rest == old(rest)[r.value..] && len + r.value <= buf.Length
      ensures r.Ok? ==> buf[..len + r.value] == old(buf[..len]) + old(rest)[..r.value]
      ensures r.Ok? ==> (r.value == 0 <==> old(rest) == [])
      ensures r.Err? ==> r.error == IoError && rest == old(rest)
    {
      var fails: bool := *;
      if fails {
        failed := true;
        return Err(IoError);
      }
      if rest == [] {
        return Ok(0);
      }
      var n: nat :| 0 < n <= buf.Length - len && n <= |rest|;
      forall i | 0 <= i < n {
        buf[len + i] := rest[i];
      }
      rest := rest[n..];
      r := Ok(n);
    }
  }

  /** Greedy reading: however short the single reads are, the chunk holds as many bytes as fit, or all that is left. */
  method ReadChunk(stream: ByteStream, chunk: array<Byte>) returns (r: Result<nat, Error>)
    modifies stream, chunk
    ensures r.Ok? ==> r.value == Min(chunk.Length, |old(stream.rest)|)
    ensures r.Ok? ==> chunk[..r.value] == old(stream.rest)[..r.value] && stream.rest == old(stream.rest)[r.value..]
    ensures stream.failed == (old(stream.failed) || r.Err?)
    ensures r.Err? ==> r.error == IoError && |stream.rest| <= |old(stream.rest)|
    ensures r.Err? ==> stream.rest == old(stream.rest)[|old(stream.rest)| - |stream.rest|..]
  {
    var len := 0;
    while len < chunk.Length
      invariant len <= chunk.Length && len <= |old(stream.rest)|
      invariant chunk[..len] == old(stream.rest)[..len]
      invariant stream.rest == old(stream.rest)[len..] && stream.failed == old(stream.failed)
      decreases chunk.Length - len
    {
      var read := stream.ReadBuf(chunk, len);
      if read.Err? {
        return read;
      }
      if read.value == 0 {
        break;
      }
      assert old(stream.rest)[..len] + old(stream.rest)[len..][..read.value] == old(stream.rest)[..len + read.value];
      len := len + read.value;
    }
    r := Ok(len);
  }

  // ----- the V2 append upload -----

  datatype Request = CreateBlob | Append(body: seq<Byte>) | Seal | Finalize(size: nat)

  datatype Blob = Blob(content: seq<Byte>, sealed: bool, finalized: Option<nat>)

  const EMPTY_BLOB := Blob([], false, None)

  function Receive(b: Blob, q: Request): Blob {
    match q
    case CreateBlob => EMPTY_BLOB
    case Append(body) => b.(content := b.content + body)
    case Seal => b.(sealed := true)
    case Finalize(size) => b.(finalized := Some(size))
  }

  function ErrorOf(r: Result<(), Error>): Option<Error> { if r.Err? then Some(r.error) else None }

  predicate AllAccepted(answers: seq<Option<Error>>) {
    forall k :: 0 <= k < |answers| ==> answers[k].None?
  }

  /** Every result has its cause: Ok if every request was accepted and the stream did not fail, and else the one failure
      there was, of the stream or of the last request. */
  predicate Explained(r: Result<nat, Error>, answers: seq<Option<Error>>, streamFailed: bool) {
    match r
    case Ok(_) => AllAccepted(answers) && !streamFailed
    case Err(e) =>
      if streamFailed then e == IoError && AllAccepted(answers)
      else answers != [] && answers[|answers| - 1] == Some(e) && AllAccepted(answers[..|answers| - 1])
  }

  /** A signed upload URL. `answers` holds the failures, None for a success. An error answer does not say whether the
      request was carried out. */
  class AppendBlob {
    var requests: seq<Request>
    var answers: seq<Option<Error>>
    var blob: Blob

    constructor ()
      ensures requests == [] && answers == [] && blob == EMPTY_BLOB
    {
      requests, answers, blob := [], [], EMPTY_BLOB;
    }

    method Send(q: Request) returns (r: Result<(), Error>)
      modifies this
      ensures requests == old(requests) + [q] && answers == old(answers) + [ErrorOf(r)]
      ensures r.Ok? ==> blob == Receive(old(blob), q)
      ensures blob == old(blob) || blob == Receive(old(blob), q)
    {
      requests := requests + [q];
      var answered: bool, arrives: bool, error: Error := *, *, *;
      r := if answered then Ok(()) else Err(error);
      answers := answers + [ErrorOf(r)];
      if r.Ok? || arrives {
        blob := Receive(blob, q);
      }
    }
  }

  function Appends(cs: seq<seq<Byte>>): (qs: seq<Request>)
    ensures |qs| == |cs|
  {
    seq(|cs|, k requires 0 <= k < |cs| => Append(cs[k]))
  }

  /** The whole conversation that uploads `data`. */
  function Conversation(data: seq<Byte>): seq<Request> {
    [CreateBlob] + Appends(Chunks(data, CHUNK_SIZE)) + [Seal, Finalize(|data|)]
  }

  /** cs has been sent and `rest` is still to be read. */
  predicate Progress(data: seq<Byte>, cs: seq<seq<Byte>>, rest: seq<Byte>) {
    && Chunks(data, CHUNK_SIZE) == cs + Chunks(rest, CHUNK_SIZE)
    && data == Flatten(cs) + rest
  }

  lemma AppendsSnoc(cs: seq<seq<Byte>>, c: seq<Byte>)
    ensures Appends(cs + [c]) == Appends(cs) + [Append(c)]
  {
  }

  lemma ProgressStep(data: seq<Byte>, cs: seq<seq<Byte>>, rest: seq<Byte>, n: nat)
    requires Progress(data, cs, rest) && rest != [] && n == Min(CHUNK_SIZE, |rest|)
    ensures Progress(data, cs + [rest[..n]], rest[n..])
    ensures Flatten(cs + [rest[..n]]) == Flatten(cs) + rest[..n]
  {
    var chunk, left := rest[..n], rest[n..];
    FlattenSnoc(cs, chunk);
    assert Chunks(rest, CHUNK_SIZE) == [chunk] + Chunks(left, CHUNK_SIZE);
    Associate(cs, [chunk], Chunks(left, CHUNK_SIZE));
    assert rest == chunk + left;
    Associate(Flatten(cs), chunk, left);
  }

  lemma AppendsPrefix(cs: seq<seq<Byte>>, more: seq<seq<Byte>>)
    ensures Appends(cs + more) == Appends(cs) + Appends(more)
  {
  }

  lemma ProgressPrefix(data: seq<Byte>, cs: seq<seq<Byte>>, rest: seq<Byte>)
    requires Progress(data, cs, rest)
    ensures [CreateBlob] + Appends(cs) <= Conversation(data)
  {
    var more := Chunks(rest, CHUNK_SIZE);
    AppendsPrefix(cs, more);
    var end := [Seal, Finalize(|data|)];
    assert [CreateBlob] + (Appends(cs) + Appends(more)) + end == ([CreateBlob] + Appends(cs)) + (Appends(more) + end);
  }

  lemma ProgressDone(data: seq<Byte>, cs: seq<seq<Byte>>)
    requires Progress(data, cs, [])
    ensures [CreateBlob] + Appends(cs) + [Seal, Finalize(|data|)] == Conversation(data)
    ensures Flatten(cs) == data
  {
    assert Chunks([], CHUNK_SIZE) == [];
    assert cs + [] == cs;
  }

  /** The append loop, between the create and the seal request. */
  method AppendChunks(breaker: CircuitBreaker, target: AppendBlob, stream: ByteStream) returns (r: Result<nat, Error>)
    requires !breaker.tripped
    requires target.requests == [CreateBlob] && target.answers == [None] && target.blob == EMPTY_BLOB && !stream.failed
    modifies breaker, target, stream
    ensures target.blob.finalized.None?
    ensures |target.requests| > 0 && target.requests <= Conversation(old(stream.rest))
    ensures r.Ok? ==> r.value == |old(stream.rest)| && target.blob == Blob(old(stream.rest), false, None)
    ensures r.Ok? ==> target.requests + [Seal, Finalize(r.value)] == Conversation(old(stream.rest))
    ensures Explained(r, target.answers, stream.failed)
    ensures breaker.tripped == (r.Err? && Exhausted(r.error))
    ensures r.Err? && Exhausted(r.error) ==> |target.requests| > 1
  {
    ghost var data := stream.rest;
    ghost var cs: seq<seq<Byte>> := [];
    var offset := 0;
    while true
      invariant !breaker.tripped && !stream.failed && AllAccepted(target.answers)
      invariant Progress(data, cs, stream.rest)
      invariant offset == |Flatten(cs)|
      invariant target.requests == [CreateBlob] + Appends(cs)
      invariant target.blob == Blob(Flatten(cs), false, None)
      decreases |stream.rest|
    {
      var buf := new Byte[CHUNK_SIZE];
      ProgressPrefix(data, cs, stream.rest);
      ghost var rest := stream.rest;
      var read := ReadChunk(stream, buf);
      if read.Err? {
        return Err(read.error);
      }
      if read.value == 0 {
        break;
      }
      ProgressStep(data, cs, rest, read.value);
      AppendsSnoc(cs, rest[..read.value]);
      var appended := target.Send(Append(buf[..read.value]));
      cs := cs + [rest[..read.value]];
      ProgressPrefix(data, cs, stream.rest);
      if appended.Err? {
        breaker.CheckErr(appended.error);
        return Err(appended.error);
      }
      offset := offset + read.value;
    }
    ProgressDone(data, cs);
    r := Ok(offset);
  }

  /** Uploads a stream by appending its chunks in order, and fails only for the failure there was. Whatever fails, the
      requests sent are a prefix of the full conversation, and the blob is finalized only when it holds the whole
      stream. The create request is the one whose answer the breaker never sees. */
  method UploadV2(breaker: CircuitBreaker, target: AppendBlob, stream: ByteStream) returns (r: Result<nat, Error>)
    requires target.requests == [] && target.answers == [] && target.blob == EMPTY_BLOB && !stream.failed
    modifies breaker, target, stream
    ensures old(breaker.tripped) ==> r == Err(CircuitBreakerTripped) && target.requests == []
    ensures !old(breaker.tripped) ==> Explained(r, target.answers, stream.failed)
    ensures target.requests <= Conversation(old(stream.rest))
    ensures r.Ok? ==> r.value == |old(stream.rest)| && target.requests == Conversation(old(stream.rest))
    ensures r.Ok? ==> target.blob == Blob(old(stream.rest), true, Some(|old(stream.rest)|))
    ensures target.blob.finalized.Some? ==> target.blob == Blob(old(stream.rest), true, Some(|old(stream.rest)|))
                                            && target.requests == Conversation(old(stream.rest))
    ensures breaker.tripped == (old(breaker.tripped) || (r.Err? && Exhausted(r.error) && |target.requests| > 1))
  {
    if breaker.tripped {
      return Err(CircuitBreakerTripped);
    }
    var created := target.Send(CreateBlob);
    if created.Err? {
      return Err(created.error);
    }
    r := AppendChunks(breaker, target, stream);
    if r.Err? {
      return;
    }
    var offset := r.value;
    var sealed := target.Send(Seal);
    assert target.requests + [Finalize(offset)] == Conversation(old(stream.rest));
    if sealed.Err? {
      breaker.CheckErr(sealed.error);
      return Err(sealed.error);
    }
    var finalized := target.Send(Finalize(offset));
    if finalized.Err? {
      breaker.CheckErr(finalized.error);
      return Err(finalized.error);
    }
    r := Ok(offset);
  }

  /** A stream of N bytes takes exactly ceil(N / CHUNK_SIZE) append requests, the k-th carrying the k-th tile. */
  lemma SequentialSendsCeilManyChunks(data: seq<Byte>)
    ensures |Conversation(data)| == (|data| + CHUNK_SIZE - 1) / CHUNK_SIZE + 3 && CHUNK_SIZE == 33554432
    ensures forall k :: 0 <= k < |Conversation(data)| - 3 ==>
              Conversation(data)[k + 1] == Append(Tile(data, CHUNK_SIZE, k)) && Tile(data, CHUNK_SIZE, k) != []
  {
    ChunksTile(data, CHUNK_SIZE);
    var cs := Chunks(data, CHUNK_SIZE);
    forall k | 0 <= k < |cs|
      ensures Conversation(data)[k + 1] == Append(Tile(data, CHUNK_SIZE, k)) && Tile(data, CHUNK_SIZE, k) != []
    {
      assert cs[k] == Tile(data, CHUNK_SIZE, k);
      assert (k + 1) * CHUNK_SIZE == k * CHUNK_SIZE + CHUNK_SIZE;
    }
  }

  /** The two upload paths agree: when a parallel upload of a stream has returned Ok, the chunks its tasks sent are, in
      order, the append requests of the sequential conversation for that stream, with the same size at the end, and the
      committed blob is the content that conversation leaves. */
  lemma BothPathsAgree(steps: seq<Step>, i: nat)
    requires Valid(INIT, steps) && i < |Exec(INIT, steps).uploads| && i < |Exec(INIT, steps).server|
    requires Exec(INIT, steps).uploads[i].phase.Returned? && Exec(INIT, steps).uploads[i].phase.result.Ok?
    ensures var u := Exec(INIT, steps).uploads[i];
            Conversation(u.stream)
            == [CreateBlob] + Appends(UploadSafety.ChunksOf(u.tasks)) + [Seal, Finalize(u.phase.result.value)]
    ensures var u := Exec(INIT, steps).uploads[i];
            Exec(INIT, steps).server[i].blob == Some(ReceiveAll(EMPTY_BLOB, Conversation(u.stream)).content)
  {
    UploadSafety.ParallelUploadIsSequential(steps, i);
    ConversationContent(EMPTY_BLOB, Exec(INIT, steps).uploads[i].stream);
  }

  /** Carried out in full, the conversation leaves the sealed stream, finalized with its size, whatever was there. */
  lemma ConversationContent(b: Blob, data: seq<Byte>)
    ensures ReceiveAll(b, Conversation(data)) == Blob(data, true, Some(|data|))
  {
    var cs := Chunks(data, CHUNK_SIZE);
    var end := [Seal, Finalize(|data|)];
    assert Conversation(data)[1..] == Appends(cs) + end;
    AppendsContent(EMPTY_BLOB, cs, end);
    FlattenChunks(data, CHUNK_SIZE);
    assert [] + Flatten(cs) == data;
    assert end[1..] == [Finalize(|data|)] && end[1..][1..] == [];
    assert ReceiveAll(Blob(data, true, None), end[1..]) == Blob(data, true, Some(|data|));
    assert ReceiveAll(Blob(data, false, None), end) == Blob(data, true, Some(|data|));
  }

  /** What a whole list of requests does to the blob. */
  function ReceiveAll(b: Blob, qs: seq<Request>): Blob
    decreases |qs|
  {
    if qs == [] then b else ReceiveAll(Receive(b, qs[0]), qs[1..])
  }

  lemma {:induction false} AppendsContent(b: Blob, cs: seq<seq<Byte>>, more: seq<Request>)
    ensures ReceiveAll(b, Appends(cs) + more) == ReceiveAll(b.(content := b.content + Flatten(cs)), more)
    decreases |cs|
  {
    if cs == [] {
      assert Appends(cs) + more == more;
      assert b.content + [] == b.content;
    } else {
      var b' := b.(content := b.content + cs[0]);
      assert (Appends(cs) + more)[1..] == Appends(cs[1..]) + more;
      AppendsContent(b', cs[1..], more);
      assert b.content + (cs[0] + Flatten(cs[1..])) == (b.content + cs[0]) + Flatten(cs[1..]);
    }
  }

  // ----- reserving a key -----

  const MAX_ATTEMPTS: nat := 5
  const NONCE_LENGTH: nat := 4

  predicate Alphanumeric(c: char) {
    'a' <= c <= 'z' || 'A' <= c <= 'Z' || '0' <= c <= '9'
  }

  predicate Nonce(n: string) {
    |n| == NONCE_LENGTH && forall i :: 0 <= i < |n| ==> Alphanumeric(n[i])
  }

  predicate Suffixed(base: string, full: string) {
    |full| == |base| + 1 + NONCE_LENGTH && full[..|base| + 1] == base + "-" && Nonce(full[|base| + 1..])
  }

  lemma AddSuffix(base: string, nonce: string)
    requires Nonce(nonce)
    ensures Suffixed(base, base + "-" + nonce)
  {
    var full := base + "-" + nonce;
    assert full[..|base| + 1] == base + "-";
    assert full[|base| + 1..] == nonce;
  }

  /** The random generator: whatever it draws is on record. */
  class Random {
    var drawn: seq<string>

    constructor ()
      ensures drawn == []
    {
      drawn := [];
    }

    method Draw() returns (nonce: string)
      modifies this
      ensures Nonce(nonce) && drawn == old(drawn) + [nonce]
    {
      assert Nonce("0000");
      nonce :| Nonce(nonce);
      drawn := drawn + [nonce];
    }
  }

  datatype Attempt = Attempt(key: string, answer: Result<string, Error>)

  /** The reservation side of the service: a key can be created once. In the second protocol version a refusal comes as
      "not ok" or as a Twirp error, never as a structured API error. */
  class Reservations {
    const v2: bool
    var keys: set<string>
    var log: seq<Attempt>

    constructor (v2: bool)
      ensures this.v2 == v2 && keys == {} && log == []
    {
      this.v2, keys, log := v2, {}, [];
    }

    method Create(key: string) returns (r: Result<string, Error>)
      modifies this
      ensures log == old(log) + [Attempt(key, r)]
      ensures r.Ok? ==> r.value == key && key !in old(keys) && keys == old(keys) + {key}
      ensures r.Err? ==> keys == old(keys) || keys == old(keys) + {key}
      ensures Collision(r) ==> key in old(keys)
      ensures v2 ==> !Collision(r)
    {
      var accepts: bool, arrives: bool, error: Error := *, *, *;
      if v2 && error.ApiError? {
        error := ApiErrorNotOk;
      }
      if accepts && key !in keys {
        r := Ok(key);
      } else if Collision(Err(error)) && key !in keys {
        r := Err(RequestError);
      } else {
        r := Err(error);
      }
      log := log + [Attempt(key, r)];
      if r.Ok? || arrives {
        keys := keys + {key};
      }
    }
  }

  method ReserveCache(breaker: CircuitBreaker, service: Reservations, key: string) returns (r: Result<string, Error>)
    modifies breaker, service
    ensures old(breaker.tripped) ==> r == Err(CircuitBreakerTripped) && service.log == old(service.log)
                                     && service.keys == old(service.keys)
    ensures !old(breaker.tripped) ==> service.log == old(service.log) + [Attempt(key, r)]
    ensures r.Ok? ==> r.value == key && key !in old(service.keys) && service.keys == old(service.keys) + {key}
    ensures old(service.keys) <= service.keys <= old(service.keys) + {key}
    ensures Collision(r) ==> key in old(service.keys) && !service.v2
    ensures breaker.tripped == (old(breaker.tripped) || (r.Err? && Exhausted(r.error)))
  {
    if breaker.tripped {
      return Err(CircuitBreakerTripped);
    }
    r := service.Create(key);
    breaker.CheckResult(r);
  }

  /** What a run of attempts looks like: every attempt but the last met an existing key. */
  predicate Retried(base: string, attempts: seq<Attempt>) {
    && |attempts| <= MAX_ATTEMPTS
    && (forall k :: 0 <= k < |attempts| ==> Suffixed(base, attempts[k].key))
    && (forall k :: 0 <= k < |attempts| - 1 ==> Collision(attempts[k].answer))
  }

  function Outcome(attempts: seq<Attempt>): Result<string, Error>
    requires attempts != []
  {
    var last := attempts[|attempts| - 1].answer;
    if !Collision(last) then last
    else if |attempts| == MAX_ATTEMPTS then Err(TooManyCollisions)
    else Err(CircuitBreakerTripped)
  }

  /** Tries one fresh suffix after the other while the answer is that the key exists, five times at most, asking the
      breaker before each attempt. The outcome is that of the last attempt, except that a fifth collision becomes
      TooManyCollisions, and a collision that itself reports exhaustion stops the retries; the second protocol version
      never retries. */
  method AllocateWithRandomSuffix(breaker: CircuitBreaker, service: Reservations, random: Random, base: string)
      returns (r: Result<string, Error>, ghost attempts: seq<Attempt>)
    modifies breaker, service, random
    ensures service.log == old(service.log) + attempts
    ensures Retried(base, attempts) && |attempts| <= 5
    ensures old(random.drawn) <= random.drawn && |attempts| <= |random.drawn| - |old(random.drawn)|
    ensures forall k :: 0 <= k < |attempts| ==> attempts[k].key == base + "-" + random.drawn[|old(random.drawn)| + k]
    ensures old(breaker.tripped) ==> attempts == [] && r == Err(CircuitBreakerTripped)
    ensures !old(breaker.tripped) ==> attempts != [] && r == Outcome(attempts)
    ensures attempts != [] && Collision(attempts[|attempts| - 1].answer) && |attempts| < 5 ==>
              Exhausted(attempts[|attempts| - 1].answer.error)
    ensures |attempts| == 5 && Collision(attempts[4].answer) ==> r == Err(TooManyCollisions)
    ensures breaker.tripped
            == (old(breaker.tripped)
                || (attempts != [] && var last := attempts[|attempts| - 1].answer; last.Err? && Exhausted(last.error)))
    ensures service.v2 ==> |attempts| <= 1
    ensures r.Ok? ==> Suffixed(base, r.value) && r.value !in old(service.keys) && r.value in service.keys
    ensures r.Ok? ==> attempts != [] && attempts[|attempts| - 1].key == r.value
  {
    attempts := [];
    for i := 0 to MAX_ATTEMPTS
      invariant |attempts| == i && |random.drawn| == |old(random.drawn)| + i && old(random.drawn) <= random.drawn
      invariant forall k :: 0 <= k < i ==> attempts[k].key == base + "-" + random.drawn[|old(random.drawn)| + k]
      invariant service.log == old(service.log) + attempts
      invariant forall k :: 0 <= k < |attempts| ==> Suffixed(base, attempts[k].key) && Collision(attempts[k].answer)
      invariant i > 0 ==> !service.v2 && !old(breaker.tripped)
      invariant old(service.keys) <= service.keys
      invariant breaker.tripped == (old(breaker.tripped) || (i > 0 && Exhausted(attempts[i - 1].answer.error)))
    {
      var nonce := random.Draw();
      var full := base + "-" + nonce;
      AddSuffix(base, nonce);
      ghost var open := !breaker.tripped;
      r := ReserveCache(breaker, service, full);
      if open {
        attempts := attempts + [Attempt(full, r)];
      }
      if !Collision(r) {
        return;
      }
    }
    r := Err(TooManyCollisions);
  }
}
