# Verified model of the chat server

This project models the state machines and wire codecs of a chat server (a C++ server on an event-loop
library, MySQL and Redis, with a C++ client and a Go load generator) and proves what they keep over whole
runs. One module is one file. Classes carry the fields that the server's classes update in place; each of
their methods is proved against a step function, and the theorems are about all runs of those steps.

## What is modelled

* **Wire formats.** `Bytes` (big-endian integers), `FrameCodec` (length-prefixed framing, the server's and
  the client's incremental reader, fed arbitrary chunks), `TlvCodec`, `MessageWrapper` (24-byte header and
  additive checksum). Widths are explicit: 16-, 32- and 64-bit fields, sums and casts modulo 2^32, and the
  signed reading of the frame header.
* **Sessions.** `RedisSessions` (a hash with optional fields and a time to live per token) and `SqlSessions`
  (a row with `revoked` and `expired_at`) behind one interface; `SessionRefinement` relates them over runs of
  whole operations; `Revocation` interleaves token logins, logouts and session creations at the level of single Redis
  commands, each of which may fail; `LoginService` is the service on top.
* **Worker pool and connection pool.** `ThreadPool` has one step per critical section, notification, spurious
  wake-up or task end; `ConnectionPool` has separate steps for the pop under the mutex and, outside it, the ping
  (which closes a stale handle) and the reconnection, and the retrying client `verifyUser`.
* **Messages.** `Messages` holds the `messages` table and the calls that work on it in several statements;
  `RoomSequence` is about room numbers under any interleaving of stores, `RecallHistory` about recalls under any
  interleaving of fetch, clock check and update; `OfflineQueue` is the offline queue.
* **Memory against tables.** `SessionManager` (online map, friend sets, open requests), `OnlineMap` (when the
  map can be trusted and is complete, and what a broadcast sends), `FriendRepo`, `FriendCache`, `OpenRequests` and
  `FriendHandlers` (the `friendships` table, its two mirrors in memory, and the handlers), `Rooms`,
  `UndisturbedRooms` and `RoomService` (room tables, room memory, the two room handlers).
* **Load generator.** `Benchmark`: split of the requests, latency slots, in-place sort, percentiles.

## Atomic or interleaved

| theorems | granularity |
|---|---|
| `FrameCodec`, `OnlineMap`, `OfflineQueue` | one event at a time, in any order |
| `SessionRefinement` | whole repository operations, all commands succeeding |
| `Revocation` | any interleaving of single Redis commands, any of which may fail |
| `ThreadPool`, `ConnectionPool` | any interleaving of critical sections, and of the steps outside them |
| `RoomSequence`, `RecallHistory` | any interleaving of single SQL statements, including stores and recalls together; reads of the highest number and inserts may fail |
| `FriendCache`, `OpenRequests` | any interleaving of single SQL statements and memory steps, each statement may fail |
| `FriendHandlers` | handlers whose steps follow one another undisturbed, with every outcome of their statements |
| `Rooms` | any interleaving of single statements and memory steps, each statement may fail |
| `UndisturbedRooms` | handlers whose steps follow one another undisturbed, with every outcome of their statements |

## What holds only under a condition

Where a promise fails in general, the code is kept as it is and the exact condition is proved.

* Redis and MySQL sessions are looked up alike after every step exactly when no token is created for a second
  user (unless the session is born dead, with a time to live that is not positive) and `revokeAllSessions` is never
  called for a user with a valid session. The Redis version of `revokeAllSessions` clears only the routing keys, so
  after a `logout` the user's other tokens stay valid there (`RevokeAllDiffers`).
* A key with a node, no user and no time to live exists exactly when a token login writes the node after the
  session has gone (`OrphanIffRaceLost`; `OrphanArises` is such a run). It does not log anybody in, and it never
  expires (`OrphanStays`).
* A created session is dead once its time to live has passed exactly when its EXPIRE succeeded, or the key had an
  earlier time to live that has run out: `createSession` does not look at the reply, and a session whose EXPIRE
  failed is valid for ever (`EndlessSession`).
* The online map is sound after every step exactly when every login continuation runs on a connection that is
  still up and not listed for another user.
* The online map lists everybody who is there exactly when a connection that goes down or logs out was its user's last.
* No stored friend is ever missing in memory exactly when no removal's memory step erases a pair that the table
  still links, or links again, and that no other handler in flight carries; and no user's first login fails to
  read friends that are not known yet. A failing DELETE breaks it, since the handler changes memory whatever the store
  answers (`FailedRemovalLosesFriend`), and so does overtaking (`InterleavingLosesFriend`).
* Friend memory is never stale exactly when no acceptance or login adds a pair that is not stored, and no rejection
  takes back the only accepted row of a pair in memory, unless a removal of the pair is in flight.
* An open request is never forgotten exactly when no answer's memory step erases the key of a request that is open
  and that no other handler in flight carries, and no user's first login fails to read requests that are not kept
  yet. An answer can erase such a key when its own UPDATE failed (`FailedAnswerForgets`), when it is overtaken by a
  removal and a new request (`OvertakenAnswerForgets`), and when keys coincide because of a colon (`ColonForgets`).
* For undisturbed friend handlers these conditions become rules on single requests and the outcomes of their
  statements: `TrackedIffHarmless`, `ExactIffSafe` and, for colon-free uids, `RememberedIffSettles`. When all
  statements succeed, no stored friend is missing, no open request is forgotten if uids are colon-free, and the
  rule for answers is left.
* Every member held in room memory is stored exactly when each owner's insert succeeds, or a join of the same user
  is served before the creation reaches memory: `createRoom` does not look at the outcome of that insert
  (`OwnerHeldNotStored`). For undisturbed handlers memory and table agree exactly when no owner's insert fails.
* No stored member of a room created since the start is ever lost to memory exactly when every join's memory step
  finds the room in memory (or another call in flight carries the same member); a join can overtake the memory step
  of the creation (`JoinCanOvertake`).
* Offline delivery is exactly once, in a run where every fetch that returned something is marked once and no message
  is queued twice, exactly when between such a fetch and its mark nothing is added or fetched for the user. A mark
  loses what was added since the last fetch, a second fetch repeats the batch.
* The connection pool can still serve somebody exactly while fewer handles than its size have been dropped by
  `verifyUser` or lost in a failed reconnection.
* All tasks have finished when all workers have exited exactly when no task was pushed after the last exit. Pushes between `stop_` and that
  exit are served.
* A number of a room is used by at most `k` messages when at most `k` stores for that room are in flight, and
  `k` is attained. A failing read of the highest number spoils the bound for number 1 only, and never leaves a gap.
* Latency slots of different workers are disjoint exactly when the split is even or gives nobody more than one request.
* TLV lists round-trip exactly when every length field equals the size of its value, frames exactly up to 65536
  bytes, wrapped bodies exactly below 2^32 bytes. An altered body of the same length is rejected exactly when the
  byte sums differ modulo 2^32: one changed byte always shows, two exchanged bytes never do.

## Where code and documentation disagree

The code is followed in each case.

* DESIGN.md (line 181) has messages to an offline user written to `offline_messages`. `handleChatMessage` only fetches
  the message it has just stored (src/chat_server.cc:246-251), and nothing in the server calls
  `addOfflineMessage`; the queue is modelled at repository level.
* DESIGN.md (lines 65 and 234) keeps the session under `session:{token}` as a string; the code uses a hash.
* DESIGN.md (lines 222-235 and 269-280) writes sessions to both stores and revokes all of a user's tokens in MySQL. The service
  holds one session repository, and the Redis one keeps the other tokens.

## Model

| member | source | states |
|---|---|---|
| Bytes.DecodeEncode | src/protocol/tlv_codec.cc:85-94 | a number that fits the width is recovered from its big-endian bytes |
| Bytes.EncodeDecode | src/protocol/tlv_codec.cc:73-83 | every byte string is the encoding of the number it reads as |
| Bytes.Layouts | src/protocol/tlv_codec.cc:85-94 | 16-, 32- and 64-bit numbers go over the wire most significant byte first, written out digit by digit |
| FrameCodec.Parse | src/codec.cc:9-31 | every stream is a maximal sequence of legal frames followed by a rest from which no frame can be taken |
| FrameCodec.ParsedUnique | src/codec.cc:9-31 | that decomposition is unique |
| FrameCodec.ChunkIndependent | src/codec.cc:5-32 | for any split of a stream into calls, the payloads delivered and the bytes left buffered are those of a single call |
| FrameCodec.DeliversMaximalPrefix | src/codec.cc:5-32 | payloads and buffer after any chunks on a fresh connection are exactly the maximal legal frame prefix of all bytes received, and its rest |
| FrameCodec.PoisonedForever | src/codec.cc:14-19 | after a header outside 0..65536 nothing is ever delivered or consumed again, and each later chunk shuts down once more |
| FrameCodec.BadHeaderIff | src/codec.cc:12-14 | a header is refused if and only if its four bytes, read without sign, exceed 65536; negative lengths are among these |
| FrameCodec.ShutDownIffBad | src/codec.cc:14-19 | for any chunking, a connection has been shut down if and only if an illegal header follows the legal frames of all bytes received |
| FrameCodec.SentArrivesIffSmall | src/codec.cc:51-61 | for any payloads framed one after another and any chunking of the stream, exactly these are delivered and nothing is left over if and only if each has at most 65536 bytes |
| FrameCodec.LegalFrame | client/chat_client.cc:20-30 | the header a sender prepends is read back as the payload's size, whatever follows |
| FrameCodec.FrameLayout | src/codec.cc:56-59 | a frame is four length bytes, most significant first, then the payload |
| FrameCodec.ServerReader.OnMessage | src/codec.cc:5-32 | one call delivers the maximal frame prefix of buffer plus chunk and keeps the rest |
| FrameCodec.ClientReader.OnMessage | client/chat_client.cc:170-188 | the client's loop has the same specification, so both readers deliver the same payloads from the same stream |
| TlvCodec.DecodeInvertsEncode | src/protocol/tlv_codec.cc:6-39 | decoding the encoding of truthful TLVs followed by any incomplete tail gives back the TLVs |
| TlvCodec.DecodeIsMaximal | src/protocol/tlv_codec.cc:18-39 | for every input, the re-encoded result is a prefix of it, all results are truthful, and what follows holds no complete TLV |
| TlvCodec.RoundTripIffConsistent | src/protocol/tlv_codec.cc:6-39 | a list survives the round trip if and only if every length field equals the value's size |
| TlvCodec.SingleRoundTrip | src/protocol/tlv_codec.cc:41-63 | a single value survives if and only if its size fits 32 bits |
| TlvCodec.TlvLayout | src/protocol/tlv_codec.cc:9-13 | a TLV is two type bytes, four length bytes, then the value |
| TlvCodec.Encode | src/protocol/tlv_codec.cc:6-16 | the loop computes the recursive encoding that the round-trip lemmas are about |
| TlvCodec.Decode | src/protocol/tlv_codec.cc:18-39 | the offset loop computes the recursive decoding |
| TlvCodec.EncodeSingle | src/protocol/tlv_codec.cc:41-49 | a single value is the list encoding of one TLV with the size cut to 32 bits |
| TlvCodec.DecodeSingle | src/protocol/tlv_codec.cc:51-63 | it succeeds if and only if list decoding finds something, and gives its first element; a failure overwrites type and length but not the value |
| MessageWrapper.HeaderRead | src/protocol/tlv_codec.cc:73-94 | a written header is read back field by field |
| MessageWrapper.HeaderWritten | src/protocol/tlv_codec.cc:73-94 | re-encoding a header read from any 24 bytes gives those bytes |
| MessageWrapper.WrappedLayout | src/protocol/tlv_codec.cc:85-108 | a wrapped message is the bytes CHAT, version 1, command, body size, checksum and sequence number, most significant bytes first, then the body |
| MessageWrapper.ByteSumLaws | src/protocol/tlv_codec.cc:65-71 | the sum is 0 for no bytes, the byte for one, and additive, which leaves no other function |
| MessageWrapper.UnwrapInvertsWrap | src/protocol/tlv_codec.cc:96-129 | unwrapping, behind any tail, recovers command, sequence number and body if and only if the body is shorter than 2^32 |
| MessageWrapper.AcceptedIsCanonical | src/protocol/tlv_codec.cc:110-129 | an accepted input starts with its re-encoded header and its body, with truthful magic, length and checksum |
| MessageWrapper.TamperedBody | src/protocol/tlv_codec.cc:65-71 | a body replaced by one of the same length is rejected if and only if the byte sums differ modulo 2^32 |
| MessageWrapper.SingleByteDetected | src/protocol/tlv_codec.cc:124-126 | one changed body byte is always rejected |
| MessageWrapper.SwapUndetected | src/protocol/tlv_codec.cc:65-71 | two exchanged body bytes are never noticed |
| MessageWrapper.ComputeChecksum | src/protocol/tlv_codec.cc:65-71 | the wrapping loop computes the exact byte sum modulo 2^32 |
| MessageWrapper.Wrap | src/protocol/tlv_codec.cc:96-108 | its output is the wrapped form that `UnwrapInvertsWrap` inverts |
| MessageWrapper.Unwrap | src/protocol/tlv_codec.cc:110-129 | it accepts exactly the inputs that `Open` accepts, with the same header and body; failures leave the caller's records as the code does |
| RedisSessions.RedisSessionRepo.CreateSession | src/repository/redis_session_repo.cc:5-34 | for every outcome of the four commands, the hash, its time to live and the routing keys; once the fields are written the token is valid even if the rest fails; without a connection nothing changes |
| RedisSessions.LivesExactly | src/repository/redis_session_repo.cc:12-21 | a created session is found, with its user and node, for exactly its time to live |
| RedisSessions.RedisSessionRepo.GetSessionByToken | src/repository/redis_session_repo.cc:36-58 | a session is found exactly when there is a reply and the live hash has a uid; a missing node reads as empty |
| RedisSessions.RedisSessionRepo.RevokeAllSessions | src/repository/redis_session_repo.cc:72-92 | the user's routing keys go as far as the commands succeed, every session stays |
| SqlSessions.MySQLSessionRepo.CreateSession | src/repository/mysql_session_repo.cc:12-26 | insert, or renewal of the existing row, which keeps its uid |
| SqlSessions.MySQLSessionRepo.GetSessionByToken | src/repository/mysql_session_repo.cc:28-55 | only an unrevoked, unexpired row is found |
| SqlSessions.MySQLSessionRepo.RevokeSession | src/repository/mysql_session_repo.cc:57-66 | the token's row is marked, no other row changes |
| SqlSessions.MySQLSessionRepo.UpdateSessionNode | src/repository/mysql_session_repo.cc:83-92 | an existing row moves, a missing one is not created |
| SessionRefinement.StepAgreesIffAdmissible | src/repository/redis_session_repo.cc:5-108 | from refining stores, one operation keeps all lookups equal if and only if it neither re-owns a token nor revokes all of a user with a valid session |
| SessionRefinement.RedisLookupAfter | src/repository/redis_session_repo.cc:5-108 | for every operation and token, what the Redis store finds afterwards in terms of what it found before |
| SessionRefinement.SqlLookupAfter | src/repository/mysql_session_repo.cc:12-92 | the same for the MySQL store, which gives a renewed token to its first user and revokes all sessions of a user |
| SessionRefinement.OwnerIsKept | src/repository/mysql_session_repo.cc:17-21 | over any run, a token's row neither vanishes nor changes hands |
| SessionRefinement.RedisRefinesSql | src/repository/mysql_session_repo.cc:12-92 | over a whole run, with expiry, re-creation and node updates of dead tokens, lookups agree after every step if and only if every step is admissible |
| SessionRefinement.SameLookups | src/repository/redis_session_repo.cc:5-70 | from empty stores, every run that gives each token one owner and never revokes all is looked up alike throughout |
| SessionRefinement.RevokeAllDiffers | src/service/login_service.cc:84-88 | after a logout, the user's other token is valid in Redis and revoked in MySQL |
| Revocation.OnlyCreationRevives | src/repository/redis_session_repo.cc:10-16 | a dead token is revived by a command if and only if it is the successful first write of a creation of that token |
| Revocation.GrantedIffAlive | src/service/login_service.cc:52-57 | a login of a token is granted if and only if its lookup gets a reply while the token is alive |
| Revocation.RevocationIsPermanent | src/service/login_service.cc:49-88 | after the DEL of a logout, without a new creation, no lookup of the token ever succeeds, under any interleaving and any command failures |
| Revocation.StaysDead | src/repository/redis_session_repo.cc:36-58 | a dead token that nobody creates stays dead and is granted no further login |
| Revocation.OrphanIffRaceLost | src/repository/redis_session_repo.cc:98-108 | a key without user and time to live comes into being if and only if the step is a successful node update of a login whose session has gone |
| Revocation.NoOrphanIffNoLostRace | src/service/login_service.cc:49-60 | over a whole run such a key never exists if and only if no login ever loses that race |
| Revocation.OrphanArises | src/service/login_service.cc:49-88 | from an empty store, a creation, a token login and an overtaking logout leave such a key |
| Revocation.OrphanStays | src/repository/redis_session_repo.cc:98-108 | such a key survives any run until the token is logged out or created again |
| Revocation.DiesIffExpired | src/repository/redis_session_repo.cc:18-21 | a session that nobody ends, creates or renews is dead at the end of a run if and only if it has a time to live and that has run out |
| Revocation.CreatedDiesIffExpirySet | src/repository/redis_session_repo.cc:12-21 | after its time to live a created session is dead if and only if the EXPIRE succeeded or an earlier time to live of the key has run out |
| Revocation.CreationStartsWithoutExpiry | src/repository/redis_session_repo.cc:12-16 | the first write makes the token valid, keeps the time to live of a live key and starts a dead one without any |
| Revocation.EndlessSession | src/repository/redis_session_repo.cc:18-21 | from an empty store, a created session whose EXPIRE failed is valid after any time |
| Revocation.LogoutAlone | src/repository/redis_session_repo.cc:60-92 | undisturbed, the four commands of a logout add up to the two repository operations, for all their outcomes |
| Revocation.CreateAlone | src/repository/redis_session_repo.cc:5-34 | undisturbed, the four commands of a creation add up to the repository operation, for all their outcomes |
| Revocation.LoginAlone | src/service/login_service.cc:49-60 | undisturbed, a token login writes the node if and only if its lookup got a reply and found the session and the write succeeds |
| LoginService.LoginService.Login | src/service/login_service.cc:14-47 | granted if and only if the user is verified and known and there is a connection; the token then looks up the user and node exactly if the fields were written; a refusal changes nothing |
| LoginService.LoginService.LoginWithToken | src/service/login_service.cc:49-77 | granted if and only if the token is valid and its user known; a valid session is moved, if the write succeeds, even when the login is refused |
| LoginService.LoginService.Logout | src/service/login_service.cc:84-88 | always answered true; the token is dead exactly if the DEL went through (or it was dead), and the lookup of every other token is unchanged |
| ThreadPool.FifoAndNoLoss | src/thread_pool.h:36-62 | in every run, the tasks started and then those queued are the tasks given to `enqueue`, read off the run, in order; each of them is finished once, in the hands of one worker, or queued |
| ThreadPool.EnqueuedIsPushed | src/thread_pool.h:36-42 | the recorded history of a run is the list of the tasks it was given |
| ThreadPool.QueuedTaskCanStart | src/thread_pool.h:50-62 | while a worker is left, the next queued task can be started within two steps, before and after stop |
| ThreadPool.NoLostWakeup | src/thread_pool.h:36-56 | with a task queued and a worker asleep, a worker is awake or a notification is pending; with no notification pending, some worker is awake or running unless all have exited |
| ThreadPool.DrainedIffAttended | src/thread_pool.h:25-62 | when all workers have exited, every task given to `enqueue` has finished if and only if no task was pushed after the last exit |
| ThreadPool.InTimeIsDrained | src/thread_pool.h:25-62 | for callers that push before stop or from a running task, every task given to `enqueue` has finished when all workers have exited |
| ThreadPool.StepKeepsValid | src/thread_pool.h:36-62 | every step keeps FIFO conservation, the cover of queued tasks by awake workers and notifications, and that nobody sleeps through stop |
| ThreadPool.ShutdownStep | src/thread_pool.h:25-34 | after stop and notify_all no worker sleeps, and every step other than a push decreases 3 * queue + worker weights + pending notifications |
| ThreadPool.ShutdownProgress | src/thread_pool.h:50-62 | until all workers have exited, one of them can take a step |
| ThreadPool.ShutdownTerminates | src/thread_pool.h:25-34 | without further pushes a shutdown has bounded length, and can only stop with all workers exited |
| ThreadPool.WorkerPool.constructor | src/thread_pool.h:14-23 | the pool starts with the requested workers, else the platform's hint, else four |
| ThreadPool.WorkerPool.WorkTurn | src/thread_pool.h:50-62 | one turn of the worker loop is the step `Work`: wait, exit, take the front task, or return |
| ThreadPool.WorkerPool.Notify | src/thread_pool.h:41 | one notification wakes a single waiting worker, or nobody |
| ConnectionPool.ConservedAndExclusive | src/db.cc:165-200 | in every interleaving of pops, pings, reconnections, returns and drops, idle + out + dropped + failed equals the pool's size, the active count equals out + dropped, and no live handle is in two places |
| ConnectionPool.StepConserves | src/db.cc:165-200 | every single step keeps both balances |
| ConnectionPool.StepExclusive | src/db.cc:175-200 | every single step keeps all handles apart, whatever closed address a reconnection yields |
| ConnectionPool.ServesIffNotExhausted | src/db.cc:168-191 | some continuation hands out a connection if and only if dropped and failed handles do not add up to the size |
| ConnectionPool.UsedInTurn | src/db.cc:175-176 | successive callers get the idle connections in the order of the queue |
| ConnectionPool.VerifyUserLosses | src/repository/mysql_user_repo.cc:44-75 | a call drops one handle if and only if it got a connection and its first query failed; nothing but that and failed reconnections leaves the idle queue |
| ConnectionPool.VerifyUserAnswers | src/repository/mysql_user_repo.cc:44-75 | the answer is yes if and only if a query that got through found the user: the first one, or the second after the first failed and another connection was to be had |
| ConnectionPool.ReuseIsPossible | src/db.cc:182-183 | reconnections that yield the address of the handle just closed, at both tries, are among the outcomes covered |
| ConnectionPool.CrossedIsPossible | src/db.cc:180-188 | so are two callers that come back with the address of each other's closed handle |
| ConnectionPool.MySQLPool.Init | src/db.cc:11-39 | on success all connections are idle; on failure the pool keeps those made before the first failed slot |
| ConnectionPool.MySQLPool.GetConnection | src/db.cc:165-191 | undisturbed it is the pop, the ping and, after a failed ping, the reconnection; the caller holds what it is given and nothing when it is given nothing |
| ConnectionPool.MySQLPool.ReturnConnection | src/db.cc:193-200 | the handle goes to the back of the idle queue |
| ConnectionPool.MySQLUserRepo.VerifyUser | src/repository/mysql_user_repo.cc:44-75 | the retry loop leaves the pool as `Verified` says and answers yes if and only if a query that got through found the user, for all outcomes of pings and queries and all reconnections that yield no handle in use elsewhere |
| Messages.MySQLMessageRepo.StoreMessage | src/repository/mysql_message_repo.cc:12-62 | for every outcome of the queries, undisturbed it is the read followed by the insert: one row with the room's next number (1 after a failed read) is appended, or nothing but an id is used up |
| Messages.MySQLMessageRepo.GetMessage | src/repository/mysql_message_repo.cc:64-94 | the row with the id, if there is one |
| Messages.MySQLMessageRepo.RecallMessage | src/repository/mysql_message_repo.cc:96-109 | exactly the row with the id and the sender is marked; the answer tells whether a row changed |
| Messages.ChatService.RecallMessage | src/service/chat_service.cc:24-64 | the row is marked if and only if it is found, is the caller's, is at most 120 seconds old and the update is served; each refusal has its reason |
| RoomSequence.NumbersHaveNoGap | src/repository/mysql_message_repo.cc:30-62 | under any interleaving, and even when reads of the maximum fail, the numbers stored for a room are exactly 1..max |
| RoomSequence.DuplicatesBounded | src/repository/mysql_message_repo.cc:30-62 | with at most k stores of the room in flight, no number is used by more than k rows; number 1 needs the reads to succeed |
| RoomSequence.DuplicateBoundAttained | src/repository/mysql_message_repo.cc:30-62 | for every k there is a run within the bound in which k rows share a number |
| RoomSequence.OneAtATimeInOrder | src/repository/mysql_message_repo.cc:30-62 | stored one at a time, each message of a room is numbered by its place among those of the room, 1, 2, ... in id order |
| RecallHistory.RecallsAreJustified | src/service/chat_service.cc:24-64 | under any interleaving and any clock, a recalled message had a recall by its own sender whose clock check came at most 120 seconds after its creation |
| RecallHistory.RecalledIffUpdated | src/repository/mysql_message_repo.cc:96-109 | a step turns a message from not recalled to recalled if and only if it is the update of a call that has passed its check for this message and its sender |
| RecallHistory.PassedIffChecked | src/service/chat_service.cc:41-53 | a clock check is on record if and only if it was made by this caller at this time, within 120 seconds of the message fetched |
| RecallHistory.RecallAlone | src/service/chat_service.cc:24-64 | undisturbed, the three steps of a recall mark a message if and only if it has the given id, is the caller's and is at most 120 seconds old, and touch no other |
| RecallHistory.RecallWindow | src/service/chat_service.cc:49 | from the start, a message recalled by its sender t seconds after it was stored is recalled if and only if t <= 120 |
| RecallHistory.RunExtends | src/repository/mysql_message_repo.cc:96-109 | rows never vanish, a recalled row stays recalled, and sender, content, room, number and creation time never change |
| RecallHistory.StepValid | src/service/chat_service.cc:28-60 | every single step keeps ids increasing and all recalls, done or about to be done, justified |
| OfflineQueue.ExactlyOnceIffDisciplined | src/chat_server.cc:420-439 | in every run where each non-empty fetch is marked once, nothing else is marked and no message is queued twice, delivery is exactly once and in order if and only if nothing is added or fetched for the user between a non-empty fetch and its mark |
| OfflineQueue.ExactlyOnceFifo | src/chat_server.cc:420-439 | at every point of a disciplined run, also with a mark still due or a message queued twice, the batches sent, then what is still open, are the adds in order |
| OfflineQueue.AddBeforeMarkIsLost | src/repository/mysql_message_repo.cc:161-171 | in a window from fetch to mark that holds adds alone, the mark loses messages if and only if one of the adds was for the user |
| OfflineQueue.FetchTwiceRepeats | src/repository/mysql_message_repo.cc:123-171 | two fetches right before a mark repeat messages if and only if the batch was not empty |
| OfflineQueue.OfflineRepo.AddOfflineMessage | src/repository/mysql_message_repo.cc:111-121 | a row is appended exactly when user and message exist |
| OfflineQueue.OfflineRepo.GetUndeliveredMessages | src/repository/mysql_message_repo.cc:123-159 | the loop returns the user's undelivered messages in id order |
| SessionManager.SessionManager.OnConnection | src/session_manager.cc:5-8 | a connection comes up; nobody is listed and no context is set |
| SessionManager.SessionManager.OnDisconnection | src/session_manager.cc:10-26 | the entry of the context's user goes, whichever connection it names |
| SessionManager.SessionManager.Authenticate | src/session_manager.cc:28-41 | the user is listed under the connection and the context names the user; an older entry of the connection stays |
| SessionManager.SessionManager.Deauthenticate | src/session_manager.cc:43-58 | the entry of the context's user goes and the context is emptied |
| SessionManager.SessionManager.AddFriendship | src/session_manager.cc:98-102 | each of the two gains the other, also when both are the same |
| SessionManager.SessionManager.RemoveFriendship | src/session_manager.cc:104-108 | each of the two loses the other |
| SessionManager.SessionManager.AddPendingRequest | src/session_manager.cc:117-120 | the joined key is remembered |
| SessionManager.SessionManager.RemovePendingRequest | src/session_manager.cc:122-125 | the joined key is forgotten |
| SessionManager.SessionManager.SendToMembers | src/chat_server.cc:252-267 | a connection gets exactly one copy per member listed under it |
| OnlineMap.StepSoundIffClean | src/session_manager.cc:10-58 | from a sound map, one event leaves it sound if and only if it is not a login on a closed connection or one listed for another user |
| OnlineMap.SoundIffCleanLogins | src/session_manager.cc:10-58 | the map is sound after every step of a run if and only if every login was clean |
| OnlineMap.FreshConnectionIsClean | src/chat_server.cc:97-99 | a login on a connection that is up and unauthenticated, or already the user's, is clean |
| OnlineMap.ConnectedIsUp | src/session_manager.cc:5-26 | a connection counts as up exactly when its last connect or disconnect event was a connect |
| OnlineMap.LateLoginLingers | src/chat_server.cc:93-99 | a login continuation that runs after the disconnection leaves the user listed under a dead connection until the user logs in again |
| OnlineMap.StepCompleteIffLast | src/session_manager.cc:10-58 | from a complete map, one event leaves everybody who is there listed if and only if it is not the end of a connection whose user is on another one |
| OnlineMap.CompleteIffLast | src/session_manager.cc:10-58 | nobody who is there is ever missing from the map in a run if and only if users only ever leave their last connection |
| OnlineMap.OneCopyEach | src/chat_server.cc:485-498 | with a sound map a broadcast or recall sends a connection one copy if its user is a member listed under it, else none |
| OnlineMap.PresentMembersAreReached | src/chat_server.cc:252-267 | with a sound and complete map every member who is there gets its copy on a connection of its own |
| FriendRepo.MySQLFriendRepo.AddFriendRequest | src/repository/mysql_friend_repo.cc:12-23 | if served, an open row is inserted unless the pair has a row or a user is unknown, and the answer is true either way; else nothing changes and it is false |
| FriendRepo.MySQLFriendRepo.RespondFriendRequest | src/repository/mysql_friend_repo.cc:25-48 | if served, the pair's row is updated whatever its status, and an acceptance adds the reverse row if there is none; a failure of that second statement is not reported |
| FriendRepo.MySQLFriendRepo.RemoveFriends | src/repository/mysql_friend_repo.cc:50-61 | if served, both rows of the pair go and no others; else nothing changes and the answer is false |
| FriendCache.RequestLifeCycle | src/repository/mysql_friend_repo.cc:12-61 | a first request is stored with status 0 and a repeated one changes nothing; answers give status 1 or 2; a removal deletes both rows of the pair |
| FriendCache.StaysRejectedIff | src/repository/mysql_friend_repo.cc:17-32 | one step of any handler ends a rejection if and only if it removes the pair or accepts the request |
| FriendCache.RejectionLasts | src/repository/mysql_friend_repo.cc:17-32 | over any interleaved run without these, a rejected request keeps status 2 and is never open again |
| FriendCache.RejectedCannotAskAgain | src/repository/mysql_friend_repo.cc:17-18 | asking again after a rejection leaves the row with status 2 |
| FriendCache.AcceptanceLinks | src/repository/mysql_friend_repo.cc:40-44 | an acceptance that gets through puts each user on the other's friend list, and keeps the status of a reverse row that is there |
| FriendCache.PendingListed | src/repository/mysql_friend_repo.cc:96-115 | the query for open requests lists exactly the requesters of rows with status 0 |
| FriendCache.TrackedIffTimely | src/chat_server.cc:85-399 | over any interleaved run in which statements may fail, every stored link of a user who has logged in, or whose login has read its friends, is in memory or carried by a handler in flight after every step, if and only if no removal's memory step erases a watched pair that is linked and not carried, and no first login misses friends that are not known |
| FriendCache.SoundIffFresh | src/chat_server.cc:85-399 | over any interleaved run, memory is symmetric and holds only pairs that are stored or about to be removed after every step, if and only if every rejection, acceptance and login is fresh |
| FriendCache.QuietListsAgree | src/chat_server.cc:405-418 | after timely and fresh steps, with no handler in flight, the list in memory of a user who has logged in is exactly the stored one |
| FriendCache.TimelyTracks | src/chat_server.cc:374-399 | one timely step keeps every stored link of a watched user in memory or carried |
| FriendCache.FreshStaysSound | src/chat_server.cc:340-372 | one fresh step keeps memory symmetric and free of stale pairs |
| FriendCache.ListedIffLinked | src/repository/mysql_friend_repo.cc:63-94 | the two-direction query lists exactly the users with an accepted row in either direction |
| OpenRequests.RememberedIffCareful | src/chat_server.cc:314-372 | over any interleaved run in which statements may fail, every open request to a user who is heeded is in memory or carried after every step, if and only if every answer's memory step and every login's read is careful |
| OpenRequests.CarefulRemembers | src/chat_server.cc:351-356 | one careful step forgets no open request |
| OpenRequests.ColonFreeCareful | src/session_manager.cc:122-125 | among users without colons an answer is careful if and only if its own request is not open again, or is carried by another handler |
| OpenRequests.KeyInjective | src/session_manager.cc:117-130 | joined keys tell pairs apart when requesters hold no colon |
| OpenRequests.OvertakenAnswerForgets | src/chat_server.cc:348-356 | without any colon, an answer overtaken by a removal and a new request makes the server forget the new one |
| FriendHandlers.TrackedIffHarmless | src/chat_server.cc:374-399 | with undisturbed handlers and any outcomes, no stored friend is missing in memory after any request of a run if and only if no DELETE fails on a stored pair of a user who has logged in, and no first login fails to read friends that are not known |
| FriendHandlers.TableFriendsAreCached | src/chat_server.cc:131-155 | then every stored friend of a user who has logged in since the start is in memory |
| FriendHandlers.SuccessIsHarmless | src/chat_server.cc:314-399 | runs in which every statement succeeds meet that condition |
| FriendHandlers.AnswerSoundIffSafe | src/chat_server.cc:340-372 | an undisturbed answer, for all outcomes of its two statements, leaves memory a symmetric part of the table if and only if it is safe |
| FriendHandlers.ExactIffSafe | src/chat_server.cc:314-399 | with undisturbed handlers and any outcomes, memory is a symmetric part of the table after every request of a run if and only if every answer is safe |
| FriendHandlers.SentListIsStoredList | src/chat_server.cc:405-418 | under both conditions, the list sent to a user who has logged in equals the stored friend list |
| FriendHandlers.OpenAnswersAreSafe | src/repository/mysql_friend_repo.cc:25-48 | answers to rows with status 0 are safe when their UPDATE succeeds, and rejections even when it fails |
| FriendHandlers.RejectionAfterAcceptance | src/repository/mysql_friend_repo.cc:30-44 | an acceptance followed by a rejection can leave in memory a friend that the table has lost |
| FriendHandlers.FailedRemovalLosesFriend | src/chat_server.cc:381-386 | a removal whose DELETE fails takes a stored friend out of memory |
| FriendHandlers.InterleavingLosesFriend | src/chat_server.cc:348-387 | when memory steps overtake each other, memory can miss a stored friend |
| FriendHandlers.RememberedIffSettles | src/chat_server.cc:340-356 | with undisturbed handlers, colon-free uids and any outcomes, no open request is forgotten after any request of a run if and only if no UPDATE of an answer fails on an open request of a user who has logged in, and no first login fails to read requests that are not kept |
| FriendHandlers.OpenRequestsAreRemembered | src/chat_server.cc:441-452 | then every open row addressed to a user who has logged in is in memory |
| FriendHandlers.SuccessSettles | src/chat_server.cc:314-399 | runs in which every statement succeeds meet that condition |
| FriendHandlers.ColonForgets | src/session_manager.cc:122-125 | with a colon in a requester's uid, an undisturbed and successful rejection of another pair makes the server forget an open request |
| FriendHandlers.FailedAnswerForgets | src/chat_server.cc:348-356 | an answer whose UPDATE fails leaves the request open and makes the server forget it |
| FriendHandlers.FriendHandlers.ReadLogin | src/service/login_service.cc:42-43 | the two reads of a login, which give an empty list when they fail, are its first two steps and give the loop part its note |
| FriendHandlers.FriendHandlers.FinishLogin | src/chat_server.cc:134-155 | the two loops over friends and requesters are the memory step of the login |
| FriendHandlers.FriendHandlers.StoreFriendRequest | src/chat_server.cc:321-322 | the worker part is the request's first step, whether or not the insert succeeds |
| FriendHandlers.FriendHandlers.FinishFriendRequest | src/chat_server.cc:325-326 | the loop part is the request's memory step, also after a failure or for an unknown target |
| FriendHandlers.FriendHandlers.StoreFriendResponse | src/chat_server.cc:348-349 | the worker part is the answer's one or two statements, for all their outcomes |
| FriendHandlers.FriendHandlers.FinishFriendResponse | src/chat_server.cc:352-356 | the loop part is the answer's memory step, also after a failure |
| FriendHandlers.FriendHandlers.StoreFriendRemove | src/chat_server.cc:381-382 | the worker part is the removal's first step, whether or not the delete succeeds |
| FriendHandlers.FriendHandlers.FinishFriendRemove | src/chat_server.cc:385-386 | the loop part is the removal's memory step, also after a failure |
| Rooms.OneCreation | src/service/room_service.cc:3-24 | under any interleaving and any failures no name is created twice, despite check-then-insert |
| Rooms.RoomsAreCreated | src/repository/mysql_room_repo.cc:12-26 | in every run the rooms in the table are those of the start and those whose creation succeeded since |
| Rooms.BackedIffServed | src/service/room_service.cc:19-23 | under any interleaving, every member held in memory is stored after every step if and only if each owner's insert succeeds, or a join of the same user is served before it or between it and the creation's memory step |
| Rooms.BackedMembers | src/repository/mysql_room_repo.cc:80-90 | in every interleaved run in which inserts succeed, every member held in memory is stored |
| Rooms.TrackedIffTimely | src/chat_server.cc:272-312 | under any interleaving, every stored member of a room created since the start is in memory or on its way after every step, if and only if each join's memory step finds the room or leaves another call in flight for the same member |
| Rooms.QuietMembersAgree | src/chat_server.cc:272-312 | after timely joins and served owners, with no handler in flight, memory equals the table for every room created since the start |
| UndisturbedRooms.AgreeIffOwnersInserted | src/chat_server.cc:272-312 | with undisturbed handlers and any outcomes, memory equals the table for every room created since the start, after every request of a run, if and only if no owner's insert fails after its room's |
| UndisturbedRooms.AtomicMembersAgree | src/room_manager.cc:3-20 | then memory equals the table for every room created since the start |
| UndisturbedRooms.OwnerHeldNotStored | src/service/room_service.cc:19-23 | an undisturbed creation whose owner's insert fails leaves the owner held and not stored |
| UndisturbedRooms.JoinCanOvertake | src/chat_server.cc:282-310 | a join that overtakes the creation's memory step is stored and never held |
| UndisturbedRooms.HandleEffect | src/chat_server.cc:272-312 | the steps of one undisturbed handler add up to one change of table and memory, or to none, for all outcomes |
| RoomService.MySQLRoomRepo.CreateRoom | src/repository/mysql_room_repo.cc:12-26 | if served, a free name gets a new id; a taken name, an unknown creator or a failure gets 0 and changes nothing |
| RoomService.MySQLRoomRepo.GetRoomByName | src/repository/mysql_room_repo.cc:28-50 | the id of the name, if the call is served and the name taken |
| RoomService.MySQLRoomRepo.AddRoomMember | src/repository/mysql_room_repo.cc:80-90 | the pair is stored once; a violated foreign key is a success without effect, a failure changes nothing |
| RoomService.RoomManager.CreateRoom | src/room_manager.cc:3-10 | a new name holds its creator alone, a known name is left alone |
| RoomService.RoomManager.JoinRoom | src/room_manager.cc:12-20 | a known room gains the member, an unknown one is not entered |
| RoomService.RoomService.CreateRoom | src/service/room_service.cc:3-24 | done if and only if the name was free, the creator registered and the insert served; the new room's only stored member is its creator, or nobody when that insert fails |
| RoomService.RoomService.JoinRoom | src/service/room_service.cc:26-42 | done if and only if the room is found and the insert served, and then only the membership is added |
| RoomService.RoomHandlers.StoreCreateRoom | src/chat_server.cc:279-280 | the worker part is the check and the two inserts of the create handler, for all their outcomes, and leaves its memory step in flight |
| RoomService.RoomHandlers.FinishCreateRoom | src/chat_server.cc:283-288 | the loop part is the create handler's memory step |
| RoomService.RoomHandlers.StoreJoinRoom | src/chat_server.cc:300-301 | the worker part is the lookup and the insert of the join handler, for all their outcomes, and leaves its memory step in flight |
| RoomService.RoomHandlers.FinishJoinRoom | src/chat_server.cc:304-309 | the loop part is the join handler's memory step |
| Benchmark.RegisterRanges | benchmark/main.go:349-362 | the ranges are consecutive from 0 to total, and sizes differ by at most one |
| Benchmark.SlotInside | benchmark/main.go:169 | every slot idx*n+i lies below total |
| Benchmark.SlotsDisjointIffEven | benchmark/main.go:379-397 | slots of different workers are disjoint if and only if total%c = 0 or total/c = 0 |
| Benchmark.Overlap | benchmark/main.go:245 | an uneven split makes two workers share a slot |
| Benchmark.SiftDown | benchmark/main.go:277-283 | the inner loop extends the sorted prefix by one and permutes the samples |
| Benchmark.InsertionSort | benchmark/main.go:276-284 | the samples end up sorted, and are a permutation of what they were |
| Benchmark.Totals | benchmark/main.go:258-265 | the first loop computes the sum and the number of the positive latencies |
| Benchmark.SumLaws | benchmark/main.go:258-265 | the sum is 0 for no samples, the sample for one, and additive |
| Benchmark.Record | benchmark/main.go:270-275 | the second loop keeps the positive latencies in order |
| Benchmark.RecordedIsFiltered | benchmark/main.go:270-275 | every positive latency is kept as often as it occurs, nothing else is |
| Benchmark.CountsOfPermutation | benchmark/main.go:276-284 | rank counts do not depend on the order of the samples |
| Benchmark.CountsAreSizes | benchmark/main.go:286-289 | the counts in that condition are the numbers of indices with a smaller, or not greater, sample |
| Benchmark.SortedPercentile | benchmark/main.go:286-289 | the index len*p/100 is in range; at most p percent of the samples are below the value found there, and more than p percent are at most it |
| Benchmark.PercentileUnique | benchmark/main.go:286-289 | that rank condition determines the value |
| Benchmark.PrintStats | benchmark/main.go:258-294 | the average is the mean of the positive latencies rounded down, the four values are their percentiles, in increasing order |

## Left out

- The event-loop library (loops, TCP, its buffer and its own thread pool), hiredis, the MySQL engine and protobuf are not part of this model: buffers are byte sequences, payload parsing is opaque, each SQL or Redis command is one atomic step.
- SQL text, escaping, SHA2, token generation and date parsing: tokens and times are values, clocks count whole seconds, and a key is gone once its time to live has elapsed.
- The callbacks that run inside the frame loops (`envelopeCallback_`, the client's message handling): a delivered payload is recorded, not interpreted.
- SqlSessions.MySQLSessionRepo.GetSessionByToken: returns uid, token and node; the other columns are not modelled.
- SessionRefinement.RedisRefinesSql: compares uid, token and node; the extra columns that only MySQL returns are not modelled.
- LoginService.LoginService.Login: does not model the profile, friends, requests and offline messages copied into the result; friends and requests are in `FriendCache`, the offline queue in `OfflineQueue`.
- ConnectionPool.MySQLPool.GetConnection: the one-second wait is an immediate answer that no connection is idle; `conns_` and the destructor are not modelled.
- ConnectionPool.MySQLUserRepo.VerifyUser: does not model the `last_login` update, whose outcome the code ignores.
- SessionManager.SessionManager.SendToMembers: the order of the members is left open, and each lookup sees the same online map.
- FriendRepo.MySQLFriendRepo.AddFriendRequest: does not model the message text of a request.
- FriendHandlers.FriendHandlers.StoreFriendRequest: the query whether the target exists is served; a failing one has the effect of a failing insert. The messages pushed to other users are not modelled.
- FriendHandlers.FriendHandlers.FinishLogin: covers friends and requests; the online map is in `OnlineMap`.
- RoomService.MySQLRoomRepo.GetRoomByName: gives the id; creator and type of a room are not modelled.
- RoomService.MySQLRoomRepo.AddRoomMember: the role of a member is not modelled.
- Benchmark.PrintStats: rates, rounding to microseconds and printing are not modelled.
- The joining of the worker threads at the end of the destructor.
- Collation: the tables are utf8mb4 with a default collation that compares names, uids and tokens without case, while memory and the model compare them exactly. Joining "R" after creating "r" stores a member that memory never gets, even with undisturbed handlers.
- Rows of unordered queries and friend lists are sets, so the order in which a list is sent is not captured.
- References returned after a lock is released (`getFriends`, `getRoomMembers`) are snapshots.
- Leaving a room, user registration, online counts, and the one-branch checks of the handlers would only add easy members.
- `RedisCache`, `RedisPool`, `RedisPubSub`, menus, scripts, generated protobuf code and the network side of the load generator.
