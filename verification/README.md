# Magic Nix Cache: a verified model

The daemon uploads store paths to the GitHub Actions cache in chunks, answers narinfo and NAR lookups from that cache
behind a negative cache, stops using the backend once it is rate limited, drains its upload queue at shutdown, and keeps
its FlakeHub token fresh. This project models those protocols and proves what they keep, for every input, every
interleaving and every failure of the stream, the backend, the file system and the random generator.

`dafny verify dfyconfig.toml` checks everything.

## How it is organised

| file | what it holds |
|---|---|
| `Chunking.dfy` | greedy chunking of a byte stream and the arithmetic of the k-th chunk |
| `UploadEngine.dfy`, `UploadSafety.dfy`, `UploadLiveness.dfy`, `UploadOutcomes.dfy` | V1 uploads as a step machine: many calls, one task per chunk, four permits, one breaker, a server that may lose, delay or refuse anything |
| `Api.dfy` | errors and the circuit breaker, the chunk reader over a buffer, the V2 append upload, reservation with random suffixes |
| `Keys.dfy`, `BinaryCache.dfy` | string keys and prefix lookup; the HTTP handlers and `upload_path`, one request at a time |
| `CacheProtocol.dfy`, `CacheProtocolProofs.dfy`, `CacheProtocolResults.dfy`, `CacheProtocolOutcomes.dfy` | the same handlers and uploads interleaved at every backend call, lock and counter; staleness of the negative cache; what is served, counted and stopped by the breaker; how every lookup and upload ends and why |
| `WorkerQueue.dfy`, `WorkerQueueProofs.dfy`, `WorkerQueueResults.dfy` | producers, the channel, the worker and concurrent shutdowns as a step machine |
| `Workflow.dfy` | the enqueue loop, the worker's loop, and a workflow from start to finish, in order |
| `InodePolling.dfy`, `Netrc.dfy` | the two token refresh workers |
| `Manifest.dfy`, `Narinfo.dfy` | the manifest serializer as an object, the narinfo record, a reader for its format, and the round trip |

A step machine is a state, a set of labelled steps with `Enabled` and `Do`, and runs as sequences of steps (`Valid`,
`Exec`). Theorems about runs quantify over every valid sequence of steps from `INIT`, so over every interleaving. Code that
changes things step by step in one task is a class with methods; what the outside world answers is a nondeterministic
choice inside a method body.

## Where the code does not do what one might expect

The lemmas named here show it happening, or say exactly when the code does meet the property, mostly both.

- The negative cache is not disjoint from what is committed (`RaceLeavesStaleHash`); `StalenessIsExact` says in exactly
  which states a hash is in both. One request at a time, `PutNarinfo`, `PutNar` and `UploadPath` say exactly when disjointness survives.
- A failed upload may have been committed: the answer to the commit request can be lost
  (`LostAnswerLeavesStaleHash`). `StalenessIsExact` and the handlers count this case separately.
- A NAR may be put under any path, so a narinfo lookup can return a NAR, and a hash can become stale with no race and no
  failure (`ForeignPutLeavesStaleHash`). `InfoLookupOfAnyPath`, `NarLookupOfAnyPath` and `AnyLookup` say exactly which
  lookups return which entries (`ForeignPathsAreNotExact` has examples).
- A shutdown call whose client goes away while it waits for the worker lets a later one return early
  (`DropLetsNextReturnEarly`, `EarlyReturnIsExact`).
- An enqueue call that runs into a shutdown is answered Ok although its paths lie behind the shutdown message and are never
  handled (`AcknowledgedPathIsLost`); `AcknowledgedIsComplete` and `AcknowledgedBeforeShutdown` say when an acknowledged
  call is complete.
- Reading the token before recording the inode can leave a stale token that polling never notices until the next
  replacement (`PollingAgrees`, `StaleStartIsNotNoticed`, `NextRotationRepairs`); a file that comes back under an inode the
  worker knows does the same (`HarmlessIsExact`).
- Replacing the old token in the netrc also hits it inside other words (`RewriteHitsHost`, `RewriteIsExact`).
- Maps print no newline between entries, so exactly the maps of one entry read back (`MapReadsBackIfSingle`,
  `MapsPrintAlike`).
- A newline inside a value forges a field, and the list of one empty reference prints like the empty list
  (`ForgedFields`); `NarInfoRoundTrip` says exactly which records read back.
- `to_string` panics for a store path that is not UTF-8 and for no other reason (`NarInfoIsFlat`, `ToString`).
- The module comment of `nix_manifest/mod.rs` announces a deserializer; the code has only the serializer, and the reader
  here is a specification.

## Model

| member | source | states |
|---|---|---|
| Chunking.ChunksTile | gha-cache/src/api.rs:399-468 | a stream of N bytes is cut into ceil(N/C) chunks, chunk k being bytes kC up to min((k+1)C, N) |
| Chunking.TilingIsChunks | gha-cache/src/api.rs:399-468 | any list of pieces with those bounds that reaches the end is the greedy chunking |
| Chunking.FlattenChunks | gha-cache/src/api.rs:523-558 | the chunks in order are the stream |
| Api.ByteStream.ReadBuf | gha-cache/src/util.rs:14-14 | one read moves any positive number of bytes from the stream to the buffer's free space, or fails; zero means the end |
| Api.ReadChunk | gha-cache/src/util.rs:9-22 | however short the reads, the chunk holds min(capacity, what is left) bytes, exactly those next in the stream; an error only loses a prefix |
| UploadSafety.ParallelUploadIsSequential | gha-cache/src/api.rs:395-499 | for every interleaving, short reads and failures: if V1 upload_file returns Ok(n), n is the stream length, the tasks sent the greedy chunks, and the committed blob is the stream byte for byte |
| UploadSafety.CommitOnlyAfterAllChunks | gha-cache/src/api.rs:399-498 | a commit is sent only when every spawned chunk succeeded and with the sum of their lengths; a blob is always the whole stream; a call that failed earlier never commits |
| UploadSafety.CommittedEntriesAreFrozen | gha-cache/src/api.rs:399-475 | no later step, of detached tasks or other calls, changes a committed entry |
| UploadSafety.TaskKeepsInv | gha-cache/src/api.rs:426-464 | each step of a task, with its inclusive byte range, keeps the server's bytes equal to the stream's and leaves committed entries alone |
| UploadLiveness.PermitsAreConserved | gha-cache/src/api.rs:426-463 | free permits plus PATCHes in flight is always four, over all uploads, detached tasks and tasks that exit early |
| UploadLiveness.WaitingIsNeverStuck | gha-cache/src/api.rs:427-430 | a task waiting for a permit always leaves a task step enabled |
| UploadLiveness.AllUploadsFinish | gha-cache/src/api.rs:385-499 | without new calls every run is bounded, and one that cannot continue has returned from all calls, finished all tasks and freed all permits |
| UploadLiveness.TrippedGateHolds | gha-cache/src/api.rs:391-393 | once tripped, always tripped, and a call that had not passed the gate never spawns a task, commits or changes its entry |
| UploadLiveness.TripsExactlyOnRateLimit | gha-cache/src/api.rs:447-497 | a run is tripped, or a task is about to trip it, exactly if a PATCH or commit was answered as rate limited; send errors and other answers never trip |
| UploadOutcomes.ResultHasItsCause | gha-cache/src/api.rs:391-498 | in every run a call returns each result exactly if its cause has happened: entering a tripped engine, a read error, a failed task at the join, a commit not sent or not answered with success, or a commit answered with success, then with the stream's length |
| UploadOutcomes.TaskEndHasItsCause | gha-cache/src/api.rs:433-462 | a finished chunk task has failed exactly if its PATCH was not sent or was answered with an error, and succeeded exactly if it was answered with success |
| UploadOutcomes.UploadCanSucceed | gha-cache/src/api.rs:385-498 | from every reachable untripped state a call at its gate can go on to return Ok with its stream committed, whatever other calls hold |
| UploadOutcomes.DetachedTaskArrivesLate | gha-cache/src/api.rs:401-463 | for every stream longer than a chunk, a run in which a read error returns the call and the detached task's bytes arrive afterwards, uncommitted |
| UploadOutcomes.AnythingMayFail | gha-cache/src/api.rs:401-495 | every read, PATCH and commit under way may fail, be lost or arrive late |
| Api.CircuitBreaker.CheckErr | gha-cache/src/api.rs:825-852 | the flag is set, and the callback called, exactly for an API error with status 429, Twirp resource exhaustion and a Twirp HTTP error 502; it is never reset |
| Api.CircuitBreaker.CheckResult | gha-cache/src/api.rs:815-823 | the same for a result, successes being ignored |
| Api.AppendChunks | gha-cache/src/api.rs:523-558 | the append loop sends a prefix of the full conversation, stops at the first failure and returns it, on success has sent all chunks in order, and trips the breaker exactly on an exhausted append |
| Api.UploadV2 | gha-cache/src/api.rs:500-599 | the requests are always a prefix of create, chunks, seal, finalize; behind an open gate the result is Ok exactly if every request was accepted and the stream did not fail, and else the error of the one that did; the blob is finalized only with the whole stream; the breaker never sees the create answer |
| Api.SequentialSendsCeilManyChunks | gha-cache/src/api.rs:508-588 | the conversation has ceil(N/CHUNK_SIZE) appends, the k-th carrying the k-th non-empty tile |
| Api.ConversationContent | gha-cache/src/api.rs:508-588 | carried out in full it leaves the sealed stream with its size, whatever the blob held |
| Api.BothPathsAgree | gha-cache/src/api.rs:395-599 | a successful parallel upload sent the sequential conversation's append requests and size, and left the same content |
| Api.ReserveCache | gha-cache/src/api.rs:680-737 | behind a tripped breaker nothing is sent; otherwise one attempt, a fresh key on success, and a trip exactly on exhaustion |
| Api.CollisionIsExact | gha-cache/src/api.rs:363-371 | an answer counts as a collision exactly if it is a structured API error, of any status, whose message contains "Cache already exists" |
| Api.AllocateWithRandomSuffix | gha-cache/src/api.rs:352-382 | at most five attempts, each with the next suffix drawn, all but the last colliding; the outcome and the breaker are determined by the attempts; a fifth collision gives up; V2 never retries; a success is a key that was free |
| Keys.SplitOnce | magic-nix-cache/src/binary_cache.rs:38-44 | the first component is dot-free and the parts with the dot between them give the path; it fails exactly for dot-free paths |
| Keys.InfoLookupIsExact | gha-cache/src/api.rs:352-382 | a narinfo lookup for h matches a stored narinfo key of h' exactly if h = h', whatever the suffix |
| Keys.NarLookupIsExact | gha-cache/src/api.rs:352-382 | the same for NAR keys |
| Keys.KindsNeverMix | gha-cache/src/api.rs:352-382 | narinfo lookups never match NAR keys, nor the other way round |
| Keys.InfoLookupOfAnyPath | magic-nix-cache/src/binary_cache.rs:135-155 | a narinfo lookup matches a NAR put under an arbitrary path exactly if that path starts with the narinfo's name |
| Keys.NarLookupOfAnyPath | magic-nix-cache/src/binary_cache.rs:114-155 | a lookup for a NAR of the daemon matches a NAR put under an arbitrary path exactly if that path starts with the NAR's name |
| Keys.AnyLookupOfEntry | magic-nix-cache/src/binary_cache.rs:114-155 | a lookup for any request matches an entry exactly if the request is the beginning of the path it was put under, or that path and the beginning of its suffix |
| Keys.AnyLookup | gha-cache/src/api.rs:352-382 | whatever the suffix drawn, a request can match an entry put under a path exactly if it is the beginning of that path, or the path with a dash and at most four letters or digits |
| Keys.ForeignPathsAreNotExact | magic-nix-cache/src/binary_cache.rs:114-145 | concrete paths for which a lookup returns another path's entry |
| BinaryCache.NarinfoHash | magic-nix-cache/src/binary_cache.rs:38-48 | a path is accepted exactly if it is a dot-free hash followed by ".narinfo" |
| BinaryCache.Daemon.GetFileUrl | gha-cache/src/api.rs:604-673 | behind a tripped breaker an error and no request; otherwise one lookup whose answer is the result, a stored key with the prefix asked for or None exactly if there is none, and which trips exactly on exhaustion |
| BinaryCache.Daemon.GetNarinfo | magic-nix-cache/src/binary_cache.rs:34-75 | whom it asks (the backend once, unless the path is malformed, the hash negative or the breaker tripped), what it replies in each case with the upstream URL spelled out, and its effect on negative cache and counters; disjointness is kept |
| BinaryCache.Daemon.PutNarinfo | magic-nix-cache/src/binary_cache.rs:77-112 | one put under a fresh suffixed key; on success the entry, the hash removed, the counter raised, and on failure only possibly the entry; disjointness is lost exactly by a failed put whose entry was stored while its hash was negative |
| BinaryCache.Daemon.GetNar | magic-nix-cache/src/binary_cache.rs:114-133 | one lookup for the path as given, whose answer decides: redirect to a stored key, the upstream's nar/ URL or not found, or the error; each counter counts its case |
| BinaryCache.Daemon.PutNar | magic-nix-cache/src/binary_cache.rs:135-155 | one put under the path as given with a suffix; disjointness is lost exactly if the path starts like the narinfo of a negative hash |
| BinaryCache.Daemon.UploadPath | magic-nix-cache/src/gha.rs:163-219 | the NAR is put once, and after its success only the narinfo once; what is stored, counted and removed follows from which of them succeeded; disjointness is lost exactly if the narinfo of a negative hash was stored although its upload failed |
| CacheProtocolProofs.StalenessIsExact | magic-nix-cache/src/binary_cache.rs:51-74 | in every reachable state a hash is both negative and committed if and only if a lookup asked before the first commit and inserted after it, or the insert came before the first commit, with no remove since; in the second case an uploader is between commit and remove, or its commit was reported as failed, or a NAR was put under the narinfo's name |
| CacheProtocolProofs.RaceLeavesStaleHash | magic-nix-cache/src/binary_cache.rs:62-70 | a run in which everything succeeds and finishes and a committed hash stays in the negative cache |
| CacheProtocolProofs.LostAnswerLeavesStaleHash | magic-nix-cache/src/binary_cache.rs:97-109 | a run without any race in which a put that was stored but answered with an error leaves its hash in the negative cache |
| CacheProtocolProofs.ForeignPutLeavesStaleHash | magic-nix-cache/src/binary_cache.rs:135-155 | a run without any race or failure in which a NAR put under "h.narinfo" leaves h in the negative cache |
| CacheProtocolResults.NarinfoHasItsNar | magic-nix-cache/src/gha.rs:170-206 | in every reachable state a narinfo written by the daemon has a URL "nar/" followed by the NAR's name, and an entry for that name is committed |
| CacheProtocolResults.NarinfoCanBeFollowed | magic-nix-cache/src/binary_cache.rs:114-133 | in every run, once such a narinfo is committed, a NAR lookup for the path in its URL that has not been answered yet ends in a redirect to a stored entry under that path, unless the breaker trips or its own request fails |
| CacheProtocolResults.OnlyItsNarIsServed | magic-nix-cache/src/binary_cache.rs:114-133 | a NAR lookup for a name the daemon writes is redirected only to that NAR or to one put under a path starting with the name, never to another store path's NAR nor a narinfo |
| CacheProtocolResults.OnlyCommittedIsServed | magic-nix-cache/src/binary_cache.rs:62-67 | a narinfo lookup is redirected only to a committed entry, put there as the narinfo of its hash or as a NAR under a path starting with the narinfo's name |
| CacheProtocolResults.NothingNewAfterTrip | gha-cache/src/api.rs:605-683 | from a tripped state the flag stays, and every lookup, reservation or upload request under way at the end was the same one under way at the trip |
| CacheProtocolResults.TripBeforeNarinfoPreventsIt | magic-nix-cache/src/gha.rs:175-204 | after a trip before the narinfo upload passes its gate, in particular during the NAR upload, no state of any run has that upload's narinfo among its commits |
| CacheProtocolResults.LookupAccounting | magic-nix-cache/src/binary_cache.rs:51-74 | in every interleaving served, hits, misses and errors add up to the finished lookups, each counter counts its own kind, and sent upstream is hits plus misses plus lookups between their two increments |
| CacheProtocolResults.AcceptedIsFound | magic-nix-cache/src/gha.rs:197-211 | in every reachable state a lookup for the hash of an accepted narinfo upload finds an entry |
| CacheProtocolResults.CommittedIsNeverMissed | magic-nix-cache/src/binary_cache.rs:51-74 | in every run, once a lookup for a hash finds an entry, one not answered yet never misses nor inserts the hash: it is served, stopped by the negative cache as it stood, or failed |
| CacheProtocolOutcomes.LookupFateHasItsCause | magic-nix-cache/src/binary_cache.rs:51-74 | in every run a lookup is on its way to an upstream hit exactly if its hash was negative when it looked, to a redirect or a miss exactly if the backend gave that answer, to a failure exactly if the breaker was tripped or its request failed |
| CacheProtocolOutcomes.NegativeGoesUpstream | magic-nix-cache/src/binary_cache.rs:51-60 | from every state an undisturbed lookup of a negative hash ends as an upstream hit, asks nothing and changes only its two counters |
| CacheProtocolOutcomes.StoredIsServed | magic-nix-cache/src/binary_cache.rs:62-67 | from every untripped state an undisturbed lookup of a hash that is not negative can be served any stored entry under the narinfo's name, and changes only its counter |
| CacheProtocolOutcomes.MissingGoesUpstream | magic-nix-cache/src/binary_cache.rs:62-74 | one for which nothing is stored ends as an upstream miss with the hash negative |
| CacheProtocolOutcomes.GuardExcludes | magic-nix-cache/src/binary_cache.rs:69-74 | while a lookup stands between its insert and its reply, nobody else looks into, inserts into or removes from the negative cache |
| CacheProtocolOutcomes.NarLookupFateHasItsCause | magic-nix-cache/src/binary_cache.rs:114-133 | the same causes for NAR lookups |
| CacheProtocolOutcomes.NarLookupIsAnswered | magic-nix-cache/src/binary_cache.rs:114-133 | an untripped breaker lets a NAR lookup through to whatever the backend has |
| CacheProtocolOutcomes.UploadEndHasItsCause | magic-nix-cache/src/gha.rs:163-219 | in every run an upload has succeeded exactly if it removed its hash or was a NAR put answered with success, stopped exactly at a tripped gate or a failed reservation, and failed exactly if an upload was answered with an error |
| CacheProtocolOutcomes.StorePathIsUploaded | magic-nix-cache/src/gha.rs:163-219 | from every untripped state an undisturbed upload_path stores NAR and narinfo under their names, the narinfo with the NAR's URL, and takes the hash out of the negative cache |
| CacheProtocolOutcomes.InfoIsStored | magic-nix-cache/src/binary_cache.rs:95-109 | the same for the narinfo alone, a client's without URL |
| CacheProtocolOutcomes.TrippedHasItsCause | gha-cache/src/api.rs:825-852 | the breaker is tripped exactly if something tripped it |
| CacheProtocolOutcomes.AnythingMayFail | magic-nix-cache/src/gha.rs:170-206 | every lookup, reservation and upload under way may fail, and an upload may arrive after it was reported as failed |
| WorkerQueueProofs.ShutdownProtocol | magic-nix-cache/src/gha.rs:78-89 | over any concurrent and dropped shutdowns at most one shutdown message, its send finds the receiver alive, and every call returns only after the worker has ended unless one was dropped while waiting for it |
| WorkerQueueProofs.EarlyReturnIsExact | magic-nix-cache/src/gha.rs:78-89 | while the worker has not ended, a later call can return early exactly if a call has been dropped while waiting for the worker |
| WorkerQueueProofs.DropLetsNextReturnEarly | magic-nix-cache/src/gha.rs:78-89 | a run from the start in which a waiting call is dropped and the next returns Ok with the worker not even having received the shutdown message |
| WorkerQueueProofs.DrainIsExact | magic-nix-cache/src/gha.rs:117-161 | when the worker has ended it stopped at the shutdown message and there is a k such that done is the set of the first k paths, each attempted at its first occurrence only, and every later request was skipped after a trip |
| WorkerQueueResults.UploadedIsWhatWasSentInTime | magic-nix-cache/src/gha.rs:91-114 | without failures or trip the uploaded paths are exactly those sent ahead of the shutdown message |
| WorkerQueueResults.UploadsHaveTheirCause | magic-nix-cache/src/gha.rs:130-157 | in every run a path is uploaded exactly if an upload of it ended well, and an upload has failed exactly if one ended badly |
| WorkerQueueResults.RefusalHasItsCause | magic-nix-cache/src/gha.rs:107-111 | a call returns an error exactly if it has something to send when the worker has ended |
| WorkerQueueResults.AcknowledgedIsComplete | magic-nix-cache/src/gha.rs:91-114 | when the worker has ended without failures or trip, a call that returned Ok has all its paths uploaded exactly if those it sent behind the shutdown message were sent ahead of it by others |
| WorkerQueueResults.AcknowledgedBeforeShutdown | magic-nix-cache/src/gha.rs:91-114 | a call that returned Ok before any shutdown message has all its paths uploaded at the end, in every continuation without failures or trip |
| WorkerQueueResults.AcknowledgedPathIsLost | magic-nix-cache/src/gha.rs:91-114 | a run in which nothing fails, trips or is dropped, all calls return Ok and an enqueued path is never handled |
| WorkerQueueResults.FinishedWorkflowIsClosed | magic-nix-cache/src/api.rs:55-100 | after the only workflow_finish returned Ok, without failures, trip or a call dropped while waiting, its whole batch is uploaded, and closed batches sent in time make the uploaded set closed under references |
| WorkerQueueResults.AllCallsReturn | magic-nix-cache/src/gha.rs:78-114 | without new calls every run is bounded, and one that cannot continue has returned from every enqueue and shutdown, those dropped by their clients apart |
| Workflow.Session.WorkflowStart | magic-nix-cache/src/api.rs:32-52 | records the listed paths and their number and replies with it; without store diffing, or if the store cannot be read, nothing changes |
| Workflow.Session.EnqueuePaths | magic-nix-cache/src/gha.rs:91-114 | appends one upload request for each path of the closure, in order, after what was queued; fails exactly if there is one to send and the worker is gone |
| Workflow.Session.Handle | magic-nix-cache/src/gha.rs:130-157 | one upload request keeps the worker on an exact drain: attempted at its first occurrence, nothing done later or behind a trip |
| Workflow.Session.Receive | magic-nix-cache/src/gha.rs:126-160 | one turn of the loop either keeps the drain exact or, at the shutdown message, completes it, whatever trips the breaker meanwhile |
| Workflow.Session.Worker | magic-nix-cache/src/gha.rs:117-161 | for any channel contents the loop stops at the first shutdown message, and what it attempted is exactly each path of the first k requests ahead of it, once, in the order of their first requests, with k less than all only behind a trip |
| Workflow.Session.ShutDown | magic-nix-cache/src/gha.rs:78-89 | the first call drains the queue, attempting the distinct paths of the first k requests, and all unless the breaker tripped; later calls change nothing |
| Workflow.AttemptedOnce | magic-nix-cache/src/gha.rs:137-157 | paths attempted that way are attempted once each, and each is either uploaded or failed |
| Workflow.DrainedClosure | magic-nix-cache/src/gha.rs:91-161 | a full drain without failures uploads what was queued and the closure, and keeps closedness under references |
| Workflow.Session.DiffStore | magic-nix-cache/src/api.rs:60-67 | every path the store has now and had not at the start, each once |
| Workflow.Session.WorkflowFinish | magic-nix-cache/src/api.rs:55-100 | counts are of the two sets and their difference; each path is attempted at most once; it fails exactly if the store cannot be read, a new path is no store path, the closure cannot be computed, or there is something to send after a shutdown; only what was queued or is in the closure of the difference is uploaded, and all of it without failures or trip, closed under references if the queue was |
| InodePolling.PollingAgrees | magic-nix-cache/src/flakehub.rs:124-135 | over all runs of harmless changes of the file, reused inodes and edits in place included, recorded inode equal to the file's implies the API client has the file's token, exactly if the startup token is that of the file whose inode was recorded |
| InodePolling.HarmlessIsExact | magic-nix-cache/src/flakehub.rs:426-476 | a change is harmless, putting no other token under the recorded inode or one with a token on its way, exactly if the agreement survives it until the next change, whatever the worker does |
| InodePolling.StaleStartIsNotNoticed | magic-nix-cache/src/flakehub.rs:438-443 | with the recorded inode still the file's, polling changes nothing until a replacement |
| InodePolling.NextRotationRepairs | magic-nix-cache/src/flakehub.rs:426-476 | from any idle state a replacement restores the agreement for all that follows |
| InodePolling.UndisturbedPollCatchesUp | magic-nix-cache/src/flakehub.rs:429-468 | a poll that nothing disturbs sets the file's token and records its inode |
| InodePolling.FailedPollChangesNothing | magic-nix-cache/src/flakehub.rs:429-468 | a poll that fails at any step leaves token and record as they were, however the file changes meanwhile |
| InodePolling.ReplacementDuringPoll | magic-nix-cache/src/flakehub.rs:429-468 | a file replaced between the stat and the read gives its token but not its inode, so that the next poll looks again |
| Netrc.ReplaceFilled | magic-nix-cache/src/flakehub.rs:398-398 | replacing in a filled file puts the new token in every hole and in every occurrence inside a fixed word |
| Netrc.RewriteIsExact | magic-nix-cache/src/flakehub.rs:395-398 | the rewritten file is the template filled with the new token exactly if the old one occurs in no fixed word, or equals the new one |
| Netrc.RewriteHitsHost | magic-nix-cache/src/flakehub.rs:398-398 | a concrete file in which the rewrite also changes a host name |
| Netrc.StartupEntryFits | magic-nix-cache/src/flakehub.rs:50-85 | the entry appended at startup keeps the file a filled template with the token in one more place |
| Netrc.FileFollowsToken | magic-nix-cache/src/flakehub.rs:330-410 | over any refreshes failing at any step the file is the template filled with the worker's token, apart from the moment between rename and return, and the API client has that token until one is refused |
| Netrc.TokenIsLastAdopted | magic-nix-cache/src/flakehub.rs:330-410 | over all runs the worker's token is the one fetched in the last refresh that was adopted, and the API client's that of the last one it accepted, or the startup token if there was none |
| Netrc.UndisturbedRefreshSucceeds | magic-nix-cache/src/flakehub.rs:330-410 | from every reachable idle state a refresh with any good token puts it into the file, the worker and the API client |
| Netrc.FailedRefreshChangesNothing | magic-nix-cache/src/flakehub.rs:343-349 | a refresh that fails at any step leaves the worker idle with file and tokens as they were |
| Netrc.StopsExactlyOnRefusal | magic-nix-cache/src/flakehub.rs:335-335 | the worker stops exactly when the API client refuses a token |
| Manifest.Serializer.Serialize | magic-nix-cache/src/narinfo/nix_manifest/serializer.rs:28-209 | the output grows by the outcome's text, also on failure; flag and result are the outcome's |
| Manifest.Serializer.SerializeField | magic-nix-cache/src/narinfo/nix_manifest/serializer.rs:306-315 | writes "key: value" and a newline, or what precedes the failure |
| Manifest.Serializer.SerializeEntry | magic-nix-cache/src/narinfo/nix_manifest/serializer.rs:281-294 | writes "key: value" without a newline, or what precedes the failure |
| Manifest.AcceptedIsFlat | magic-nix-cache/src/narinfo/nix_manifest/serializer.rs:28-209 | serialization succeeds exactly on scalars, or one struct or map of scalars, in any transparent wrappers |
| Manifest.DecimalIsCanonical | magic-nix-cache/src/narinfo/nix_manifest/serializer.rs:77-81 | an unsigned number prints as the digits of its value with no leading zero |
| Manifest.SignedDecimalIsCanonical | magic-nix-cache/src/narinfo/nix_manifest/serializer.rs:59-63 | a signed number prints as that with a minus sign exactly if it is negative |
| Manifest.ScalarsAcceptedInside | magic-nix-cache/src/narinfo/nix_manifest/serializer.rs:187-194 | inside a map or struct exactly the scalars are accepted |
| Narinfo.StructRoundTrip | magic-nix-cache/src/narinfo/nix_manifest/serializer.rs:302-320 | reading the lines of a printed struct of newline-free scalars gives back its keys and texts in order |
| Narinfo.MapReadsBackIfSingle | magic-nix-cache/src/narinfo/nix_manifest/serializer.rs:277-300 | a map of printable entries reads back exactly if it has one entry; an empty one prints an unreadable line, a longer one reads as one pair |
| Narinfo.MapsPrintAlike | magic-nix-cache/src/narinfo/nix_manifest/serializer.rs:277-300 | two different maps with the same output |
| Narinfo.NarInfoIsFlat | magic-nix-cache/src/narinfo/mod.rs:54-146 | a narinfo is in the accepted grammar exactly if its store path is UTF-8 |
| Narinfo.NarInfoPrintsItsLines | magic-nix-cache/src/narinfo/mod.rs:54-168 | a narinfo with a UTF-8 path prints exactly its present fields under their names, a line each, in the order of the record |
| Narinfo.ToString | magic-nix-cache/src/narinfo/nix_manifest/mod.rs:56-66 | the `expect` fires exactly for a store path that is not UTF-8; otherwise the lines of the narinfo are returned, and for a well-formed one read back as those lines |
| Narinfo.CompressionRoundTrip | magic-nix-cache/src/narinfo/mod.rs:171-179 | the names of the compressions can be told apart |
| Narinfo.JoinRoundTrip | magic-nix-cache/src/narinfo/nix_manifest/mod.rs:54-54 | splitting the blank-separated list recovers the items exactly if they are blank-free and it is not the list of one empty item |
| Narinfo.ReaderYieldsWellFormed | magic-nix-cache/src/narinfo/nix_manifest/serializer.rs:302-320 | whatever the text, only records with a UTF-8 path, newline-free values and separable references are ever read |
| Narinfo.NarInfoRoundTrip | magic-nix-cache/src/narinfo/mod.rs:54-168 | reading the printed narinfo recovers every field, the absent optionals, the sizes and the references exactly if the path is UTF-8, the values newline-free, the references free of newlines and blanks and not one empty item |
| Narinfo.PrinterIsInjective | magic-nix-cache/src/narinfo/mod.rs:163-168 | two such narinfos that print alike are equal |
| Narinfo.ForgedFields | magic-nix-cache/src/narinfo/nix_manifest/serializer.rs:306-315 | a newline in a value prints like another field, and the one empty reference like none |
| Narinfo.UploadedNarInfoReadsBack | magic-nix-cache/src/gha.rs:222-255 | what the worker uploads reads back with the NAR's URL, zstd, the path's own data, and no other optional field |

## Left out

- HTTP, TLS, Twirp, JSON and URL building: the backend is an abstract store; its answers are chosen freely.
- SHA-256, base32, zstd and the Nix store: hashes are strings, the compressed NAR is a byte stream, and the closure is any function that contains its arguments and is closed under references.
- `main.rs`, `pbh.rs`, `env.rs`, `error.rs`, `github.rs`, `telemetry.rs` and the directory listing: plumbing; the post-build hook is one more producer of enqueue calls.
- FlakeHub push sessions, netrc parsing and the request for a new token: library code that is not part of this model.
- Keys in `CacheProtocol.dfy` may be reserved more than once: uniqueness is proved for `Api.AllocateWithRandomSuffix` and none of the protocol's results needs it.
- CacheProtocolProofs.StalenessIsExact: a daemon on another machine that shares the backend is an uploader that never takes its last step; so "between commit and remove" includes an upload that will never remove the hash from this negative cache.
- Requests dropped when a client goes away, as steps of their own: a dropped lookup or upload is one whose later steps never come, which runs without those steps cover; only a shutdown that waits for the worker gives something up, and `WorkerQueue.dfy` has that step.
- A comma in a request path, which the first protocol version's lookup would send as two keys.
- A daemon without the GitHub Actions cache: its handlers never reach the protocols modelled here.
- Cache eviction by GitHub, wall-clock sleeps, request statistics, logging, and panics of the worker.
- The overflow of file sizes beyond 64 bits and of counters: sizes and counters are unbounded.
- The text of floating-point numbers: a float value carries its printed text.
- CacheProtocolResults.NothingNewAfterTrip: the two consecutive gate reads of a lookup are one step, because the flag never resets and nothing happens between them.
- CacheProtocolResults.NarinfoHasItsNar: only narinfos the daemon wrote itself; a client may put any text as a narinfo.
- Workflow.Session.WorkflowFinish: one request at a time, the worker running only in the shutdown; concurrent producers, workers and shutdowns are in `WorkerQueue.dfy`. Waiting for FlakeHub, cancelling the server and reading back the log file, which come after, are not part of it, nor are their failures.
- Netrc.FileFollowsToken: tokens are assumed to occur in no fixed word of the file, the condition `RewriteIsExact` shows to be needed.
