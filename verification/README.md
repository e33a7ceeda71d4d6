# LiveCollab delivery, log, presence and codec model

LiveCollab is a collaborative editor served by several backends that share one
Redis instance. This project models the parts of it in which correctness is a
matter of interleaving, and proves what clients may rely on.

| file | what it holds |
|---|---|
| `DocumentLog.dfy` | the room's keys and its event stream, changed only by the apply-operation script; runs of that script |
| `StreamReads.dfy` | what XRANGE, XREAD and XREVRANGE return |
| `RoomCache.dfy` | a backend's in-memory room: cache of the log, or the document itself when there is no store |
| `CacheRuns.dfy` | that cache in every run: interleaved three-GET reads, scripts, replies and events |
| `ClientDelivery.dfy` | one socket: buffering during replay, the drain, the switch to live delivery |
| `ReplaySession.dfy` | the calls on one socket in any order, with no trust in the log or the broadcaster |
| `Resume.dfy` | `EventsAfterSequence` and `resumeClient` while other goroutines and backends keep going |
| `RoomFanout.dfy` | the client list, the broadcast loop and the watcher's loop over client objects |
| `Handoff.dfy` | the whole delivery protocol of a room as a step relation |
| `HandoffInvariant.dfy`, `HandoffSteps.dfy`, `HandoffSockets.dfy` | its inductive invariant and the preservation lemmas |
| `DeliveryTheorems.dfy`, `CatchUp.dfy`, `ResumeProgress.dfy`, `ChainedResumes.dfy` | what the protocol guarantees in every run |
| `Presence.dfy`, `PresenceRuns.dfy` | the presence scripts and what every run of them keeps |
| `PresenceDelivery.dfy`, `PresenceFrames.dfy`, `PresenceWatch.dfy` | presence snapshots on their way to sockets, as a step relation with what every frame lists, and as the watcher's loop |
| `Heartbeat.dfy` | the rate-limited renewal of one connection |
| `Bytes.dfy`, `Utf8.dfy`, `Resp.dfy`, `JsAccumulator.dfy` | the Redis serialization protocol: Go writer and reader, JavaScript accumulator with its lenient headers and its text decoding |
| `PresenceReducer.dfy` | the browser's presence reducer |
| `Basics.dfy` | shared facts on sequences and sets |

Code that changes state is a class or a method with loops, and its contract ties
the new state to a function of the old one; the protocol proofs are about those
same functions. `ContentDelivered`, for instance, is what the method
`Client.WriteContentUpdate` does and also what a broadcast step of the protocol does.

## Assumptions

- Each Redis command or script is one atomic step. Stream IDs strictly increase
  and are modelled by their rank, with 0 for `0-0`. Redis time never goes back;
  in `Heartbeat.dfy` the backend's clock and Redis's clock agree and the loop
  starts when the join runs; the silence bound is about activities that are
  handled when they are observed and renewals that the store answers
  (`BelievedRenewalHolds` is about all others).
- A room is created once, while its stream is still empty
  (`RecreateKeepsInvariantIff` says that this is exactly what creation needs).
- The stream is not trimmed, except in `Resume.dfy` when `trims` holds.
- A failed socket write is permanent for that socket: a socket accepts `limit`
  frames, for any `limit`, and nothing afterwards.
- Integers stay in the range that Lua prints exactly; in `Resp.dfy` lengths and
  integers are int64 values, as in Go.
- In `JsAccumulator.dfy` JavaScript's `Number` is any function that reads plain
  and negated decimals as such and finds no number in a text that begins with a
  dollar sign or is the letter x (`NumbersExist` gives one); sums of a position
  and a length are exact.
- One room. Hydrating a room and starting its watcher is one step: before the
  watcher of a room exists no handler has got past `GetRoom`, so nothing can
  advance the cached sequence or register a client in between.
- A backend that starts late is one whose watcher has not moved yet: document
  watchers are created with the room, presence watchers start at cursor zero.

## Findings

- `RedisStore.GetSnapshot` is three GETs, so a read may be disturbed by commits
  in between, even the one that hydrates a room (`DisturbedRunExists` runs into
  a room with content of version 0, version 1 and sequence 1). The sequence in
  it is always current, so delivery is unaffected. In every run the cached room
  is right if and only if what it last took over was a script's reply, a stream
  event, or a read with no commit between its second and third GET and none
  between the first and second but such as ended with the content the first one
  got (`CacheAgreesIff`). A wrong cache is repaired by exactly two kinds of
  step: an event with a higher sequence, or a right snapshot that is not older;
  the event of the cached sequence itself is dropped by the guard (`RepairedIff`).
- The test server's parser accepts any header that JavaScript's `Number` accepts.
  A negative length can make a payload end before the buffer begins, and
  `subarray` then counts from the end of what happens to have arrived: the same
  bytes give different commands when cut differently (`CutMatters`: a length of
  -13 followed by a PING). Cutting a stream after some bytes makes no difference
  to any continuation if and only if no command in them is of that kind
  (`CutIsHarmlessIff`); plain length headers always are fine
  (`PlainStreamIsTame`).
- A length header that is no number leaves the position undefined, and the
  handler recognises the same command forever (`NoNumberHangs`; `HangsIff` says
  exactly when a command consumes nothing).
- The test server decodes payloads as UTF-8: arguments arrive as they were sent
  exactly when they are valid UTF-8 (`ArgumentsSurviveIff`).
- A membership cannot be lost if and only if the socket is never silent for
  longer than its lease less one heartbeat, for every timing (`SilenceBoundIff`);
  with a lease of three heartbeats that is two heartbeats.
- A simple string or error reply survives the reader exactly when it holds no
  line feed (`SimpleTextIff`); bulk strings survive whatever they hold.

## Model

| member | source | states |
|---|---|---|
| DocumentLog.RoomKeys.constructor | backend/redis_store.go:152-154 | missing keys read as empty content, version 0 and sequence 0 |
| DocumentLog.RoomKeys.CreateRoom | backend/redis_store.go:103-116 | counters and content are reset, the stream is not |
| DocumentLog.RoomKeys.Eval | backend/redis_store.go:151-173 | the script, command by command, is the specification function: refusal changes nothing; acceptance sets content, bumps version and sequence and appends one entry holding the operation |
| DocumentLog.RecreateKeepsInvariantIff | backend/redis_store.go:103-110 | room creation resets content and counters but not the stream, which keeps log and counters in agreement exactly when the stream is empty |
| DocumentLog.ApplyKeepsLogInvariant | backend/redis_store.go:151-173 | one script call keeps version = sequence = stream length, increasing IDs, contiguous numbering and content = last entry, and only appends |
| DocumentLog.LogInvariantOnRuns | backend/redis_store.go:151-173 | the same in every state of every run of calls from any backends |
| DocumentLog.LogGrows | backend/redis_store.go:161-171 | later logs extend earlier ones; the version never decreases |
| DocumentLog.AcceptedUpdateIsNeverLost | backend/redis_store.go:161-172 | an acknowledged operation is in every later log, unaltered, at its version; under `reject` that version directly follows its base |
| DocumentLog.SameBaseIsStaleAfterwards | backend/redis_store.go:157-160 | after an up-to-date operation is accepted, a later one with the same base is stale, and refused under `reject` |
| DocumentLog.RetryAcceptedAtMostOnce | backend/redis_store.go:157-160 | among any retries with one base under `reject`, mixed with any other calls, at most one is accepted |
| DocumentLog.RefusalReportsCurrentState | backend/redis_store.go:157-160 | accepted iff the policy accepts or the base is current; a refusal changes nothing and reports current content and sequence |
| DocumentLog.ReplyDescribesCall | backend/redis_store.go:151-173 | in every run each reply tells whether the log grew and at which stream ID, the base it was given, the log lengths before and after, and what the document then holds |
| StreamReads.RangeMembers | backend/redis_store.go:289 | an XRANGE returns exactly the entries within its exclusive start and inclusive end |
| StreamReads.XRangeIsSlice | backend/redis_store.go:289 | with increasing IDs a page is the slice after the start position, cut at the count and at the boundary |
| StreamReads.XReadIsSlice | backend/redis_store.go:258-278 | a stream read after the cursor is the next slice of the log |
| StreamReads.PageShrinksRange | backend/redis_store.go:312-313 | after a nonempty page strictly fewer entries lie between the next exclusive start and the boundary |
| StreamReads.RangeIgnoresAppends | backend/redis_store.go:312-313 | entries appended beyond the boundary, or trimmed, never add to the range still to be read |
| ClientDelivery.Client.constructor | backend/ws.go:48 | a new client is live, at sequence 0, with nothing buffered |
| ClientDelivery.Client.BeginReplay | backend/client.go:31-35 | enters replay mode at the cursor; nothing buffered earlier is left over |
| ClientDelivery.Client.WriteJSON | backend/client.go:79-83 | a frame is appended iff the socket still works, and the result says which |
| ClientDelivery.Client.WriteContentUpdate | backend/client.go:37-52 | drops old sequences, buffers during replay, otherwise writes and advances; a failed write changes nothing |
| ClientDelivery.Client.PendingAbove | backend/client.go:61-67 | the sorted slice is the ascending enumeration of the buffered sequences above the last one written |
| ClientDelivery.Client.WriteBuffered | backend/client.go:68-75 | the loop writes the buffered messages in order and leaves replay mode iff all were written |
| ClientDelivery.Client.FinishReplay | backend/client.go:54-77 | the handoff equals its specification; it succeeds iff replay mode was left, and fails only on a broken socket |
| ReplaySession.DrainedEffect | backend/client.go:68-75 | a drain writes exactly the first n buffered messages, n limited only by the socket, and switches to live iff n is all |
| ReplaySession.CompletedEffect | backend/client.go:54-77 | a handoff appends the completion frame and a prefix of the buffered updates above the boundary, and says what state is left |
| ReplaySession.CompletedExtends | backend/client.go:54-77 | a handoff only appends, and on a working socket announces itself |
| ReplaySession.ServeKeepsOrder | backend/client.go:37-77 | every single call on a socket keeps the ordering invariant |
| ReplaySession.LatestIsBuffered | backend/client.go:37-52 | during replay nothing broadcast is written, and of several updates with one sequence the buffer holds the last |
| ReplaySession.WireOrder | backend/client.go:31-77 | for any broadcasts, duplicated or reordered, before, during or after replay of any log, content updates on one socket strictly ascend |
| Resume.RoomStream.XRangeCommand | backend/redis_store.go:289-296 | a page of the stream as it is then, after any appends and trims; a nonempty page leaves less to read |
| Resume.RoomStream.ReadAfterStreamID | backend/redis_store.go:258-278 | nothing, or the next 100 entries after the cursor of a log that may have grown |
| Resume.RoomStream.ReplayBoundaryCommand | backend/redis_store.go:243-256 | the final entry of the stream as it is then, or the zero event |
| Resume.LiveTraffic | backend/room.go:73-88 | whatever is broadcast to a replaying socket adds no update to its wire |
| Resume.VisitPage | backend/redis_store.go:300-311 | over any page: exactly the entries above the cursor that continue the run are visited and written, each frame telling its entry field by field; a gap is reported only when the page does not fit, a write error only on a broken socket |
| Resume.NextPage | backend/redis_store.go:289-313 | one round of the page loop: a store error iff the command failed, a gap iff the page is empty or does not fit, else the page is visited in full and the range to the boundary shrinks |
| Resume.VisitRound | backend/redis_store.go:288-313 | the same with the bookkeeping of what has been visited so far |
| Resume.EventsAfterSequence | backend/redis_store.go:282-316 | ends; for any stream contents visits, and writes, a contiguous run from the cursor, and a nil return means all of it up to the boundary; an error of the store iff a command failed; nothing above the cursor is left out, and with answering commands and a working socket a full run is always returned in full, however many pages it takes, under concurrent appends |
| Resume.BeginResume | backend/ws.go:168-182 | the boundary is the last entry of the stream when it is read; the cursor is refused iff it lies beyond it; otherwise the start frame is written |
| Resume.Complete | backend/ws.go:212-220 | the handoff after a replayed run writes the completion frame and then exactly the updates buffered above the boundary; success means live delivery |
| Resume.HandOver | backend/ws.go:212-220 | the same after any further traffic to the replaying socket |
| Resume.ReplayAndHandOver | backend/ws.go:184-220 | page loop and handoff together: success on every undamaged log that answers |
| Resume.ResumeClient | backend/ws.go:164-240 | refused iff the cursor lies beyond the boundary, a store error iff a command failed; updates ascend and begin with the replayed run; success means that the start frame came before every update, the completion frame with the right count directly after the run, what was buffered above the boundary after that, and that the socket is live; on an undamaged log with answering commands and a working socket it succeeds with exactly the missed entries, none included |
| RoomCache.Room.constructor | backend/manager.go:100-107 | a hydrated room equals the snapshot it was loaded from |
| RoomCache.Room.ApplyDistributedEvent | backend/room.go:146-157 | an event is taken over iff its sequence is higher than the cached one |
| RoomCache.Room.ApplySnapshot | backend/room.go:159-168 | only a snapshot with a lower sequence is dropped |
| RoomCache.Room.ApplyLocalContentUpdate | backend/room.go:111-144 | the local update equals its specification: refusal, stale marking, version and sequence |
| RoomCache.Room.ApplyOperation | backend/room.go:90-105 | with a store: the script's effect and reply, which is cached; on an error the cache is unchanged and the script may or may not have run |
| RoomCache.ReplyRefreshesCache | backend/room.go:90-105 | an answered operation, accepted or refused, brings a cache that is not ahead of the store to its content, version and sequence |
| RoomCache.Room.GetSnapshot | backend/room.go:199-210 | returns the cache after merging a store snapshot, or the cache alone when the store has none or fails |
| RoomCache.LocalRoomRefinesScript | backend/room.go:111-144 | from equal states any updates under any policies give the same state and the same answers but for the stream ID as the script; stale iff the base is not the predecessor version |
| RoomCache.ReadSnapshot | backend/redis_store.go:118-149 | content, version and sequence of a three-GET read come from log positions k1 <= k2 <= k3; without a commit in between they agree |
| CacheRuns.Merged | backend/room.go:159-168 | an arriving snapshot is taken over as `applySnapshot` does, or hydrates the room |
| CacheRuns.DocBetween | backend/redis_store.go:161-172 | between two times the log grows iff a commit ran, and the content is what was written last |
| CacheRuns.ReadAgreesIff | backend/redis_store.go:127-148 | a completed three-GET read agrees with the log, then and ever after, iff no commit ran between its second and third GET and those between the first and second, if any, ended with the content already read |
| CacheRuns.CacheAgreesIff | backend/room.go:90-168 | in every run, with reads, replies and events interleaved and delayed, the cached room is right iff it last took over a reply, an event or an undisturbed read |
| CacheRuns.CacheAgreement | backend/room.go:146-168 | if no read of the run is disturbed, the cache always equals the log entry at the cached sequence |
| CacheRuns.CachePositions | backend/redis_store.go:127-148 | disturbed or not, cached content, version and sequence are those of log positions k1 <= k2 <= k3 |
| CacheRuns.CacheNeverGoesBack | backend/room.go:146-168 | in every run the cached sequence never decreases |
| CacheRuns.RepairedIff | backend/room.go:146-168 | a wrong cache is right after a step iff that was an event with a higher sequence or the arrival of a right snapshot that is not older |
| CacheRuns.DisturbedRunExists | backend/manager.go:88-107 | a concrete run hydrates a room with mixed content, version and sequence |
| RoomFanout.RoomHub.constructor | backend/manager.go:100-107 | a room starts without clients |
| RoomFanout.RoomHub.AddClient | backend/room.go:37-44 | appends the client; the local revision moves iff there is no store |
| RoomFanout.RoomHub.RemoveClient | backend/room.go:177-191 | filters the client out; the local revision moves iff there is no store and the client was listed |
| RoomFanout.RoomHub.BroadcastJSON | backend/room.go:73-88 | every client is offered the frame exactly once, content updates through the delivery guard iff there is a store |
| RoomFanout.RoomHub.ConsumeBatch | backend/manager.go:165-195 | over one batch, room and clients get exactly the events above the startup boundary, in order |
| RoomFanout.RoomHub.WatchOnce | backend/manager.go:159-195 | an answered read moves the cursor a full batch further, or to the end of the log, over a slice that was delivered in full; a failed one moves nothing |
| RoomFanout.RoomHub.WatchRoom | backend/manager.go:146-197 | for any rounds, errors and commits, every client has been offered the log above the startup boundary up to the cursor, once and in order, and every answered read takes the cursor a batch further |
| RoomFanout.DeliveredInTwo | backend/manager.go:165-195 | batching does not matter |
| RoomFanout.LiveClientGetsTheLog | backend/manager.go:165-195 | for a live working client that offering writes exactly those log entries, field by field |
| RoomFanout.RoomFollowsTheLog | backend/manager.go:165-170 | the cached room then agrees with the log where the watcher has arrived |
| RoomFanout.RoomTakesTheHighest | backend/room.go:146-157 | on any events in any order the room takes over content, version and sequence of the first one with the highest sequence, iff that is new |
| RoomFanout.WithoutStoreAllIsWritten | backend/room.go:73-88 | without a store every client gets every frame as it was broadcast |
| RoomFanout.NoticesAreNotHeldBack | backend/room.go:73-88 | with one, frames without a content update reach every client in order, replaying or not |
| HandoffSteps.CommitStep | backend/redis_store.go:161-172 | a commit anywhere keeps the protocol invariant |
| HandoffSteps.TakeEventStep | backend/manager.go:165-170 | taking an event and caching it keeps the invariant |
| HandoffSteps.CopyClientsStep | backend/room.go:57-63 | copying the client list for a broadcast keeps the invariant |
| HandoffSteps.SendNextStep | backend/room.go:73-88 | handing a broadcast to the next listed client, replaying or live, keeps the invariant |
| HandoffSteps.RestartStep | backend/manager.go:84-113 | losing a backend with its memory keeps the invariant |
| HandoffSockets.RegisterStep | backend/ws.go:48-92 | registration in replay or live mode, at any moment of a broadcast, keeps the invariant |
| HandoffSockets.CaptureBoundaryStep | backend/ws.go:168-182 | capturing the boundary after registration keeps the invariant |
| HandoffSockets.ReadPageStep | backend/redis_store.go:288-299 | reading a page of the growing log keeps the invariant |
| HandoffSockets.VisitEntryStep | backend/redis_store.go:300-313 | skipping or writing one replayed entry keeps the invariant |
| HandoffSockets.BufferClosesTheGap | backend/client.go:60-76 | at the handoff the buffered sequences above the boundary are boundary + 1, + 2, ... up to the watcher's progress |
| HandoffSockets.FinishReplayStep | backend/client.go:54-77 | the handoff keeps the invariant |
| HandoffSockets.LeaveRoomStep | backend/ws.go:71 | leaving the client list, with a broadcast to the copied list still under way, keeps the invariant |
| HandoffSockets.CloseConnectionStep | backend/ws.go:89 | the later closing of the connection keeps the invariant |
| DeliveryTheorems.StepKeepsInv | backend/ws.go:164-222 | every step of the protocol keeps the invariant |
| DeliveryTheorems.InvariantHolds | backend/ws.go:164-222 | the invariant holds in every state of every run |
| DeliveryTheorems.CommitOf | backend/redis_store.go:161-171 | every log entry holds what one commit of the run brought, at the version that commit made |
| DeliveryTheorems.HandoffExactness | backend/client.go:31-77 | in every interleaving a socket resumed at cursor c has written exactly the log entries c + 1, c + 2, ..., each frame telling content, author, operation, client, version, sequence and stream ID of its entry and of the commit of the run that made it |
| DeliveryTheorems.LiveSocketIsCurrent | backend/client.go:60-76 | once live on a working socket it has everything fanned out to it, and the whole log when the watcher has caught up |
| DeliveryTheorems.ReplayNeverGaps | backend/redis_store.go:297-306 | on an undamaged log no page below the boundary is empty and no entry is a gap, in any run |
| DeliveryTheorems.NothingFallsBetween | backend/manager.go:132-171 | the startup skip point never exceeds a replay boundary, and the buffer above the boundary has no hole up to the watcher's progress |
| DeliveryTheorems.FreshJoin | backend/ws.go:112-122 | a socket told a state at sequence t has every fanned-out entry above t exactly once, each frame telling the entry and its commit field by field, even if the snapshot read failed |
| DeliveryTheorems.FreshJoinFromFrame | backend/ws.go:112-122 | the room_state frame of a fresh join states the room as read earlier, and every fanned-out entry above the sequence in that frame arrives exactly once |
| DeliveryTheorems.FreshCanBeTold | backend/ws.go:112-122 | a fresh socket can always be told content, version and sequence of its backend's room |
| DeliveryTheorems.WatcherNeverPassesCache | backend/manager.go:165-170 | the events a watcher has taken never pass the sequence its backend would state |
| DeliveryTheorems.FanOutIsTheLog | backend/manager.go:146-197 | whatever the batching and however far the cache is ahead, a watcher broadcasts exactly the entries above its startup boundary, once, in order |
| DeliveryTheorems.NothingOldIsBroadcast | backend/manager.go:132-171 | the startup boundary of a watcher is the sequence that hydrated its room, and nothing at or below it is ever broadcast |
| CatchUp.WatcherMakesProgress | backend/manager.go:152-196 | a watcher that has not caught up can take its next step, and that step shrinks its backlog |
| CatchUp.WatcherCatchesUp | backend/manager.go:146-197 | left alone, a watcher catches up with the log in finitely many steps, moving no socket in its stage |
| CatchUp.CaughtUpIsComplete | backend/client.go:37-77 | when its watcher has caught up, a live working socket has exactly the log after its starting point |
| CatchUp.EveryLiveSocketCatchesUp | backend/manager.go:146-197 | from every reachable state the watcher alone brings each live socket that does not break to the complete log after its cursor, or, for a fresh one, after a point at or below the stated sequence |
| ResumeProgress.FinishIsLive | backend/client.go:54-77 | on a socket with room for the buffered updates the handoff always ends live |
| ResumeProgress.ResumeCanFinish | backend/ws.go:164-222 | from every reachable state a resuming socket with its cursor in the log and room for the frames still to come reaches live delivery by its own steps, at any page size, with every update up to the boundary |
| ResumeProgress.ReplayStartsIff | backend/ws.go:172-174 | the captured boundary starts a replay iff the cursor is not beyond the log |
| ResumeProgress.StartFrameTellsTheLog | backend/ws.go:176-182 | the start frame tells the cursor and the length of the log, as latest sequence and as version |
| ChainedResumes.StepExtendsWire | backend/client.go:37-77 | no step takes back a frame, changes a cursor or shortens the log |
| ChainedResumes.ChainIsContiguous | backend/ws.go:105-110 | over any chain of resumed connections to any backends, with drops, failed resumes and restarts, what the user received is one contiguous log segment, each frame telling its entry and the commit that made it field by field |
| Presence.PresenceKeys.constructor | backend/redis_presence.go:33 | an empty registry at revision 0 |
| Presence.PresenceKeys.JoinScript | backend/redis_presence.go:29-39 | a new connection gets record, lease, revision and notification; a repeated one changes nothing |
| Presence.PresenceKeys.LeaveScript | backend/redis_presence.go:41-51 | record and lease are removed; notified iff the record was there |
| Presence.PresenceKeys.RenewScript | backend/redis_presence.go:53-66 | succeeds iff listed and unexpired; never shortens a lease |
| Presence.PresenceKeys.PruneScript | backend/redis_presence.go:71-89 | the loop removes exactly the members without a live lease, then every expired lease, and notifies once iff a member went |
| PresenceRuns.RegistryOnRuns | backend/redis_presence.go:29-95 | in every run records and leases have the same keys and the revision is the length of the stream 1, 2, 3, ... |
| PresenceRuns.RecordsComeFromJoins | backend/redis_presence.go:29-66 | in every run each listed record is, unaltered, the participant of the join that put it there, listed ever since; its lease is that join's and its timely renewals' |
| PresenceRuns.Conservation | backend/redis_presence.go:29-95 | joins = leaves + pruned + current members; revision = joins + leaves + pruning batches |
| PresenceRuns.RevisionDeterminesRecords | backend/redis_presence.go:29-95 | states of a run with equal revisions have equal records |
| PresenceRuns.RenewalIffListed | backend/redis_presence.go:53-66 | a renewal succeeds iff a snapshot at that moment lists the connection, and never revives one |
| PresenceRuns.LeaseNeverShortens | backend/redis_presence.go:60-64 | while held a lease never shortens; only a leave, or a prune after it ran out, removes the member |
| PresenceRuns.LeaseEnds | backend/redis_presence.go:53-80 | a connection not joined again nor renewed before its deadline is in no snapshot from the deadline on, however often a late renewal is tried |
| PresenceRuns.LeaseHolds | backend/redis_presence.go:71-80 | before its deadline a member that does not leave is listed by every snapshot |
| PresenceRuns.SortedSnapshotIsUnique | backend/presence.go:68-70 | sorted snapshots of the same records are identical |
| PresenceRuns.GetPresence | backend/redis_presence.go:168-195 | the snapshot is the pruned registry's revision and exactly its records, ascending by connection |
| PresenceDelivery.StepKeepsInv | backend/presence.go:108-145 | every step of scripts, watcher and joining clients keeps the presence invariant |
| PresenceDelivery.Convergence | backend/presence.go:108-145 | once the watcher has consumed everything, the last presence frame of every fully joined working client is the current membership |
| PresenceDelivery.PresenceSettles | backend/presence.go:108-145 | from every reachable state every run of the watcher alone is finite, and when it can go no further the last presence frame of every fully joined working client is the current membership |
| PresenceDelivery.FramesAscend | backend/presence.go:41-55 | presence revisions on one socket strictly increase |
| PresenceDelivery.WatcherStepLowersBound | backend/presence.go:108-145 | every watcher step, at any time and page size, lowers a bound made of unread notifications, members that could still be pruned and the rest of the turn |
| PresenceDelivery.WatcherCanStepIff | backend/presence.go:108-145 | the watcher can step iff something is left to consume |
| PresenceDelivery.WatcherComesToRest | backend/presence.go:108-145 | every run of the watcher alone, at any nondecreasing times, is no longer than the bound, and one that cannot go on has consumed everything |
| PresenceFrames.FramesListTheLiving | backend/redis_presence.go:68-95 | in every run each presence frame was loaded earlier in it and lists exactly the members that held a lease at that moment, as registered |
| PresenceFrames.BatchIsAPage | backend/redis_presence.go:201-229 | a batch of notifications is at most a page, and a shorter one reaches the last |
| PresenceWatch.PresenceSocket.WritePresence | backend/presence.go:43-55 | writes iff newer than the last revision sent; a failed write changes nothing |
| PresenceWatch.BroadcastPresenceSnapshot | backend/presence.go:72-80 | every listed socket gets exactly the guarded write of that snapshot, once even if listed twice, and so is at its revision or past it, or broken |
| PresenceWatch.Turn | backend/presence.go:118-131 | a batch, one snapshot, one broadcast: the cursor moves over a page of notifications, every socket is offered the pruned registry, and either a member was pruned or no notification was added |
| PresenceWatch.WatchPresence | backend/presence.go:108-145 | the loop ends, at any page size and clock, with the current membership on every working socket |
| Heartbeat.WithDefaults | backend/presence_lease.go:22-36 | positive settings are kept, others become 10, 30 and 5 seconds, and the lease is raised to three heartbeats |
| Heartbeat.ConnectionHeartbeat.constructor | backend/presence_lease.go:57-60 | the loop starts with the present time as its last renewal |
| Heartbeat.ConnectionHeartbeat.OnActivity | backend/presence_lease.go:72-90 | old activity closes, recent renewal rate-limits, otherwise renews; a refusal or an error closes |
| Heartbeat.ClosesIff | backend/presence_lease.go:72-90 | the loop ends iff an activity is handled a lease late or a due renewal is not confirmed; the registry is renewed as by the script exactly when one is due and the request got through; an ended loop never renews |
| Heartbeat.StepKeepsAlive | backend/presence_lease.go:72-90 | with silences within the lease less one heartbeat, any activity or script keeps the lease ahead of the clock |
| Heartbeat.LosingRun | backend/presence_lease.go:77-79 | for any longer silence, and every timing, a run loses its lease: one activity is rate-limited away and the next comes too late |
| Heartbeat.SilenceBoundIff | backend/presence_lease.go:22-90 | for every setting a membership can never be lost iff silences stay within the lease less one heartbeat |
| Heartbeat.MembershipNeverExpires | backend/presence_lease.go:57-90 | with silences of at most two heartbeats, renewals are under three apart, none is refused and every snapshot lists the connection |
| Heartbeat.BelievedRenewalHolds | backend/presence_lease.go:60-90 | in every history of late activities, failing or lost renewals and other scripts, a connection that still is a member holds its lease from the last renewal the loop believes in, and an ended loop stays as it is |
| Bytes.ParseOfDecimal | backend/redis_client.go:65 | formatting and parsing are inverse on int64 |
| Bytes.ParseIntIff | backend/redis_client.go:65 | a text parses to n iff it is digits of that value, with a sign or without, and n an int64 |
| Bytes.ReadLineOf | backend/redis_client.go:105-111 | a line without a line feed is read back exactly, and what follows is left |
| Bytes.ReadLineSplits | backend/redis_client.go:105-111 | what is read as a line was one, ended by a line feed with or without a carriage return |
| Resp.WriteCommand | backend/redis_client.go:36-46 | the written bytes are the command's encoding |
| Resp.Reader.ReadRESPLine | backend/redis_client.go:105-111 | consumes up to the line feed and drops one carriage return before it |
| Resp.Reader.ReadRESP | backend/redis_client.go:48-103 | the imperative reader yields the recursive specification's outcome and leaves exactly its rest |
| Resp.Reader.ReadArray | backend/redis_client.go:91-99 | the element loop reads exactly the announced items |
| Resp.EncodingIsRead | backend/redis_client.go:48-103 | every encoding of every reply is read as that reply, both null forms and simple strings included, to any depth, and the following bytes are left |
| Resp.ReadIsEncoding | backend/redis_client.go:48-103 | and nothing else is: what the reader takes from any input is an encoding of its answer |
| Resp.CutOffIsIncomplete | backend/redis_client.go:48-111 | a reply cut off anywhere is reported as incomplete, never taken for another one |
| Resp.ReadOfLine | backend/redis_client.go:48-63 | an error line becomes that error, an unknown prefix and a bad number are refused |
| Resp.ReadOfNumberLine | backend/redis_client.go:64-99 | a length of -1 is null for bulk strings and arrays alike, one below is a run-time failure, and a payload is the announced bytes and two more |
| Resp.FirstErrorDecides | backend/redis_client.go:91-99 | in an array the first element that is no reply decides the outcome |
| Resp.ReadInvertsReply | backend/redis_client.go:48-103 | reading inverts what a server sends for nulls, integers, bulk strings and arrays of them to any depth, and leaves the following bytes untouched |
| Resp.ReadInvertsCommand | backend/redis_client.go:36-103 | the reader inverts the writer on arbitrary byte strings |
| Resp.KnownBytes | backend/redis_client.go:36-46 | both nulls, an empty array, an integer and the command GET k, byte by byte |
| Resp.SimpleTextIff | backend/redis_client.go:60-63 | a simple string or an error message is read back iff it holds no line feed |
| Utf8.DecodeOfEncode | correctness-tests/test-redis-server.js:64 | decoding inverts encoding for every text of Unicode scalars |
| Utf8.ReencodesIff | correctness-tests/test-redis-server.js:64 | bytes survive decoding and encoding iff they are valid UTF-8 |
| Utf8.IllFormedIsReplaced | correctness-tests/test-redis-server.js:64 | where no scalar is encoded one U+FFFD stands for the longest beginning of an encoding, or for one byte |
| JsAccumulator.TryParseCommand | correctness-tests/test-redis-server.js:48-68 | the parser equals the recursive specification on every buffer, with negative, fractional and undefined headers and `subarray` counting from the end |
| JsAccumulator.ParseArguments | correctness-tests/test-redis-server.js:56-66 | so does its argument loop |
| JsAccumulator.Accumulator.OnData | correctness-tests/test-redis-server.js:256-271 | a chunk is appended and every complete command handed on, or the handler hangs exactly when a command consumes nothing |
| JsAccumulator.RecognisedIff | correctness-tests/test-redis-server.js:48-68 | with whole headers exactly these bytes are a command: a star, the count, the first line end, then per argument a dollar sign, its length, the first line end, its bytes and two more; everything else is incomplete |
| JsAccumulator.ParseIsStable | correctness-tests/test-redis-server.js:48-68 | what has been recognised stays recognised and ends at the same place when bytes arrive; its payloads stay the same if it is tame |
| JsAccumulator.CommandIsSettledIff | correctness-tests/test-redis-server.js:48-68 | a recognised command stays the same under all continuations iff its last payload does not end before the buffer begins |
| JsAccumulator.HangsIff | correctness-tests/test-redis-server.js:258-261 | exactly when a command consumes no byte |
| JsAccumulator.CutIsHarmlessIff | correctness-tests/test-redis-server.js:256-261 | a cut after given bytes makes no difference to any continuation iff every command in them is tame |
| JsAccumulator.ChunkingDoesNotMatter | correctness-tests/test-redis-server.js:256-261 | every chunking of a tame stream gives the same commands and the same unread rest |
| JsAccumulator.PlainStreamIsTame | correctness-tests/test-redis-server.js:48-68 | a stream whose length headers are all plain numbers from zero up is tame and never hangs the handler |
| JsAccumulator.CutMatters | correctness-tests/test-redis-server.js:48-68 | a concrete stream that gives different commands whole and cut in two |
| JsAccumulator.NoNumberHangs | correctness-tests/test-redis-server.js:256-261 | after a length header that is no number the handler hangs, whatever follows |
| JsAccumulator.ParseInvertsWriter | correctness-tests/test-redis-server.js:48-68 | the parser finds exactly the payloads the backend's writer wrote, of any bytes, and consumes exactly its bytes |
| JsAccumulator.ArgumentsSurviveIff | correctness-tests/test-redis-server.js:64 | decoded, they are the arguments that were written iff those are valid UTF-8 |
| JsAccumulator.CommandsSurviveChunking | correctness-tests/test-redis-server.js:256-261 | commands written by the backend and cut anywhere arrive, decoded as UTF-8, all of them, in order, with nothing left over |
| PresenceReducer.ApplyPresenceMessage | frontend/src/presence.ts:19-41 | for any JSON value: the newer well-formed membership, or the present state |
| PresenceReducer.CarriesIff | frontend/src/presence.ts:19-41 | a message carries a membership iff it is a presence update with a safe nonnegative revision and a list of members on distinct nonempty connections |
| PresenceReducer.BackendFrameIff | backend/presence.go:11-27 | a backend's newer frame is taken over, record for record, iff its connections are distinct and nonempty; client IDs and names may repeat |
| PresenceReducer.FoldIsFirstOfHighest | frontend/src/presence.ts:19-41 | folding any messages gives the first well-formed message of the highest revision, or the initial state |
| PresenceReducer.OrderDoesNotMatter | frontend/src/presence.ts:19-41 | when equal revisions carry equal memberships, reordering and repeating messages does not change the result |

## Left out

- Connections and serving: TCP dialing, HTTP routes, the WebSocket upgrade, CORS, configuration, clients without a connection.
- Telemetry, tracing, logging and trace files, which do not touch protocol state.
- The React pages and the `room_state` handling in them, which overwrites the sequence unconditionally.
- The scenario runners, and the test server's own XRANGE paging and presence scripts; of its reply encoder only the text it produces is modelled (`Resp.ReplyText`).
- Room discovery by SCAN and the sweep loop; a sweep is a prune script at some time, which every presence run may contain.
- Goroutines and mutexes as such: each critical section is one step or one call, and steps interleave freely.
- JSON encoding, generated room, span and connection identifiers, field names and parse errors of stream entries: entries and records are values.
- Order of broadcasts without a store, which leave the room lock before they are sent, and local presence snapshots.
- Order between `room_state` and `content_update` frames, which the code does not fix.
- Ping write failures and read deadlines, which close the connection earlier than the heartbeat loop would.
- The artificial delay in front of Redis commands.
- JsAccumulator.TryParseCommand: does not model infinite headers (`Infinity`, or a numeral too large for a double), which can keep the argument loop itself from ending.
- RoomFanout.RoomHub.WatchRoom: the client list is fixed and nobody else updates the cached room or the clients between its rounds; `Handoff.dfy` has these interleavings.
- Frames without a content update that are written between two drained updates of one handoff; they do not touch the updates.
- Resp.Reader.ReadRESP: does not model memory limits on very large announced lengths, nor values of the remaining types of newer protocol versions, which the code refuses as well.
- PresenceRuns.GetPresence: places each record in order while reading the values, where the code sorts the slice afterwards.
- ClientDelivery.Client.PendingAbove: sorts by insertion where the code calls the library sort.
