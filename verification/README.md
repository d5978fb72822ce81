# The stateful protocols of the voice-room server

The server keeps its state in several stores, each with a simple in-memory form and a Redis or Postgres form
that must agree with it, and steps over them with use cases. This project models those stores and use cases and
proves what they keep over whole runs. The files come in groups:

- Presence: `PresenceSpec` is the reference, one map with expiry. `PresenceScripts` and `RedisPresence` are the
  three Redis structures, `MemoryPresence` the nested maps, `PresenceRuns` their agreement over runs,
  `PresenceInterleaving` the scripts of many processes interleaved, `PatchRaces` what becomes of the fields then,
  `Heartbeats` the heartbeat.
- Sessions: `TokenStore` is the token service over expiring keys, `Revocation` its tombstones against expiry,
  `RefreshChain` the use cases over it, `MemoryTokens` and `MemoryChain` the in-memory service. `Challenges` and
  `Logins` are the one-time codes that open a session.
- The trust ladder: `Relationships` holds the rules and the in-memory repository, `PostgresRelationships` the
  two-statement transition, `Connections` the use cases, `Consent` and `NoWedge` what holds over runs,
  `Contention` what holds when use cases interleave, `Ladder` exactly when each use case is carried out, and that
  behind an open conversation lies a meeting.
- The stage: `Speaking` holds the use cases, `StageRules` exactly when each is carried out and what it changes,
  `SpeakingRuns` what holds over runs, `SpeakingExact` that the log says
  exactly who may speak and who is muted, `SpeakingRaces` exactly what survives when use cases overlap,
  `SpeakingRaceRuns` runs in which it does not.
- Rooms: `Memberships` is the durable record and the evidence of a meeting, `Schedules` the recurring rooms,
  `MemoryRooms` and `PostgresRooms` the repositories and the scheduled sweep, `Departures` and `DepartureRaces`
  leaving.
- `RateLimits`, and `Paging` with `MemoryMessages`.

Code that changes things in place is a class here, each of whose methods is proved to compute a function of the
old state; what the code promises is proved about those functions. Clock readings are arguments in milliseconds.
A run is a sequence of calls with their readings. In the sequential runs a use case is one step; in the
interleaved ones each port call, script or SQL statement is one, with any number of threads in between.
Time to live, limits and lifetimes are parameters; constants are those of the source.

## Where the code and its comments part

- Every change of a relationship is meant to be an edge of the transition table
  (`apps/server/src/domain/entities/Relationship.ts:60-73`). Asking again while a request is pending passes the
  rule (`apps/server/src/domain/rules/trustLadder.ts:288-298`) and commits a change the table does not list;
  it also turns the direction of the request around: `Contention.AskingBackTurnsRequest`.
  `Contention.EdgesExceptAskingAgain` says that this is the only exception.
- The limiters are documented to let through up to twice the limit across a boundary. It is one less, because
  the earlier window was opened by a check before the stretch: `RateLimits.AtMostOneWindowMore`.
- The HEXISTS guard of the heartbeat script never fires, since every number is true in Lua. It is not needed
  while the structures are linked, and leaves a ghost when they are not:
  `PresenceInterleaving.RejoinDuringCleanupLeavesAGhost`.
- Revocation is final only if access tokens do not outlive refresh tokens, which the configuration does not
  enforce: `Revocation.RevocationIsFinalIffOrdered`.
- The rule that nobody publishes without a grant, the cap on speakers, and consent by the other side hold of
  sequential runs. Interleaved, each can fail, because a use case writes what it decided on an earlier look. When
  exactly is said by `SpeakingRaces.WriteGoesWrongIff`, `SpeakingRaces.CapHoldsIff` and
  `Contention.ConsentSurvivesIff`, each beside runs in which it does. The cap needs no overlapping approvals to
  fail: `SpeakingRaceRuns.ReconnectionOverflows`. Revocation of everything and the credit for a session fail in the
  same way: `Revocation.LoginInsideRevokeAll`, `DepartureRaces.CreditIsFairIff`.
- Patches of presence in Redis are said not to meet in practice, each field having one writer
  (`apps/server/src/adapters/redis/RedisPresenceStore.ts:413-417`). But a patch writes back all fields, so patches
  of different fields undo each other, a raised hand a mute for one: `PatchRaces.RaisedHandUndoesMute`, and
  exactly when, `PatchRaces.NothingIsLostIff`.
- The evidence that two users have met, on which messaging rests, is exact while the clock advances between any
  two acts. In general it is exact if and only if `Memberships.EvidenceIsExactIff` says so.
- An approval of a listener who is muted or restricted stores the role before it refuses the credential
  (`apps/server/src/app/speaking/ApproveSpeaker.ts:80-98`), on a branch meant to be unreachable: the place on the
  stage is taken all the same. `SpeakingRuns.ApprovalTakesAPlace` says exactly when, and
  `SpeakingRuns.MutedListenerTakesAPlace` is such a run.

## Model

| member | source | states |
|---|---|---|
| PresenceRuns.RedisRefinesMemory | apps/server/src/adapters/redis/RedisPresenceStore.ts:62-433 | for every sequence of calls with a clock that never goes back, the hash, the sets and the sorted set answer every call, a sweep apart, exactly as the one map with expiry does; sweeps change no later answer |
| PresenceRuns.AnswersAgree | apps/server/src/adapters/memory/MemoryPresenceStore.ts:34-171 | the same from any two states that agree on who is live, which is what the induction over runs needs |
| PresenceRuns.StepRefines | apps/server/src/adapters/redis/RedisPresenceStore.ts:159-401 | one call on the three structures is that call on the map they stand for, up to entries that have lapsed |
| PresenceRuns.StepRespectsLive | apps/server/src/adapters/memory/MemoryPresenceStore.ts:34-171 | no call can tell apart two maps with the same live members, nor drive them apart |
| PresenceRuns.SweepLeavesTheLive | apps/server/src/adapters/memory/MemoryPresenceStore.ts:149-161 | the reference sweep leaves exactly who is live |
| PresenceScripts.ParsesBackIffBare | apps/server/src/adapters/redis/RedisPresenceStore.ts:146-157 | splitting an index member undoes the join exactly when the room id holds no bar |
| PresenceScripts.SetOnlineRefines | apps/server/src/adapters/redis/RedisPresenceStore.ts:62-80 | the script keeps the three structures linked and reports an arrival exactly when the reference map does |
| PresenceScripts.SetOfflineRefines | apps/server/src/adapters/redis/RedisPresenceStore.ts:84-89 | the script keeps the links and removes the member from the map they stand for |
| PresenceScripts.HeartbeatRefines | apps/server/src/adapters/redis/RedisPresenceStore.ts:98-112 | a heartbeat moves the deadline of a live member only; the HEXISTS guard, which never fires, is not needed for it because the links imply the fields |
| PresenceScripts.PatchRefines | apps/server/src/adapters/redis/RedisPresenceStore.ts:423-432 | writing fields back keeps the links and changes one entry of the map, never its clock |
| PresenceScripts.ReapRefines | apps/server/src/adapters/redis/RedisPresenceStore.ts:120-129 | claiming a batch and forgetting its fields removes lapsed entries of the batch from the map, and nothing else |
| PresenceScripts.ForgetStaleRefines | apps/server/src/adapters/redis/RedisPresenceStore.ts:300-309 | dropping the rooms found stale changes nothing anybody can see |
| PresenceScripts.ReadsRefine | apps/server/src/adapters/redis/RedisPresenceStore.ts:219-311 | reading a member, a room or the rooms of a user gives what the reference map gives |
| PresenceScripts.CountRefines | apps/server/src/adapters/redis/RedisPresenceStore.ts:337-359 | counting the live deadlines, and the distinct users and rooms among them, counts the live entries of the map |
| PresenceSpec.HandQueuesAgree | apps/server/src/adapters/redis/RedisPresenceStore.ts:330-335 | two queues of raised hands for one room can differ only within a group of equal times |
| PresenceSpec.OldestHandsFirst | apps/server/src/adapters/memory/MemoryPresenceStore.ts:122-127 | of two hands in a queue the first was never raised after the second |
| PresenceRuns.HandsUpAreQueued | apps/server/src/adapters/redis/RedisPresenceStore.ts:330-335 | the queue holds exactly the members with a hand up |
| PresenceScripts.SetOfflineEffects | apps/server/src/adapters/redis/RedisPresenceStore.ts:84-89 | going offline takes the member out of all three structures, and nobody else out of any |
| PresenceScripts.ForgetStaleEffects | apps/server/src/adapters/redis/RedisPresenceStore.ts:300-309 | the rooms found stale leave the set of that user, and no other room of anybody does |
| PresenceScripts.BatchIsBounded | apps/server/src/adapters/redis/RedisPresenceStore.ts:120-129 | a sweep claims at most 500, and all that are overdue if they are no more |
| RedisPresence.RedisPresenceStore.SetOnline | apps/server/src/adapters/redis/RedisPresenceStore.ts:159-190 | the new presence and the answer are those of the reference operation |
| RedisPresence.RedisPresenceStore.SetOffline | apps/server/src/adapters/redis/RedisPresenceStore.ts:192-202 | the member is gone and nobody else is |
| RedisPresence.RedisPresenceStore.Heartbeat | apps/server/src/adapters/redis/RedisPresenceStore.ts:204-217 | refreshed exactly when the member is live |
| RedisPresence.RedisPresenceStore.GetMember | apps/server/src/adapters/redis/RedisPresenceStore.ts:256-275 | the live entry, if there is one |
| RedisPresence.RedisPresenceStore.GetRoomMembers | apps/server/src/adapters/redis/RedisPresenceStore.ts:219-254 | each live member of the room once |
| RedisPresence.RedisPresenceStore.GetRoomsForUser | apps/server/src/adapters/redis/RedisPresenceStore.ts:284-311 | the live rooms of a user, while exactly those found stale leave the set, unseen |
| RedisPresence.RedisPresenceStore.Patch | apps/server/src/adapters/redis/RedisPresenceStore.ts:423-432 | one entry is changed, and kept its clock |
| RedisPresence.RedisPresenceStore.GetRaisedHands | apps/server/src/adapters/redis/RedisPresenceStore.ts:330-335 | the hands that are up, each once, none before one raised earlier |
| RedisPresence.RedisPresenceStore.CountLive | apps/server/src/adapters/redis/RedisPresenceStore.ts:337-359 | the numbers of live entries, users and rooms |
| RedisPresence.RedisPresenceStore.ReapExpired | apps/server/src/adapters/redis/RedisPresenceStore.ts:361-401 | what it reports are distinct members whose deadline had passed, oldest first and at most 500, and presence loses exactly those |
| MemoryPresence.MemoryPresenceStore.SetOnline | apps/server/src/adapters/memory/MemoryPresenceStore.ts:47-63 | presence is the reference operation on the flattened nested maps |
| MemoryPresence.MemoryPresenceStore.SetOffline | apps/server/src/adapters/memory/MemoryPresenceStore.ts:65-67 | the member is gone |
| MemoryPresence.MemoryPresenceStore.Heartbeat | apps/server/src/adapters/memory/MemoryPresenceStore.ts:69-79 | refreshed exactly when live |
| MemoryPresence.MemoryPresenceStore.GetMember | apps/server/src/adapters/memory/MemoryPresenceStore.ts:87-90 | the live entry, if there is one |
| MemoryPresence.MemoryPresenceStore.GetRoomMembers | apps/server/src/adapters/memory/MemoryPresenceStore.ts:81-85 | the live members of the room |
| MemoryPresence.MemoryPresenceStore.GetRoomsForUser | apps/server/src/adapters/memory/MemoryPresenceStore.ts:96-103 | the rooms where the user is live, found by a scan |
| MemoryPresence.MemoryPresenceStore.Patch | apps/server/src/adapters/memory/MemoryPresenceStore.ts:163-171 | one entry is changed |
| MemoryPresence.MemoryPresenceStore.GetRaisedHands | apps/server/src/adapters/memory/MemoryPresenceStore.ts:122-127 | the hands that are up, each once, none before one raised earlier |
| MemoryPresence.MemoryPresenceStore.CountLive | apps/server/src/adapters/memory/MemoryPresenceStore.ts:129-147 | the numbers of live entries, users and rooms |
| MemoryPresence.MemoryPresenceStore.ReapExpired | apps/server/src/adapters/memory/MemoryPresenceStore.ts:149-161 | every lapsed entry is removed and reported, room by room |
| Heartbeats.Execute | apps/server/src/app/rooms/Heartbeat.ts:56-90 | refreshed are exactly the rooms where the user was live, stale are exactly those of the first twenty claimed where the user was not; a claim never creates presence, and nobody else moves |
| PresenceInterleaving.ArrivalsAreClaimedOnce | apps/server/src/adapters/redis/RedisPresenceStore.ts:361-432 | with any number of reapers and other processes between any two commands, each arrival is claimed at most once, and not before a time to live after its last sign of life |
| PresenceInterleaving.LapsedStaysUnseen | apps/server/src/adapters/redis/RedisPresenceStore.ts:98-129 | a lapsed member is missed by every read at every later instant, whatever heartbeats, write-backs and sweeps do, until admitted again |
| PresenceInterleaving.FieldsSurvive | apps/server/src/adapters/redis/RedisPresenceStore.ts:300-401 | when nobody is admitted while a clean-up of theirs is waiting, every live deadline keeps its fields and its place in the set of rooms |
| PresenceInterleaving.AdmissionIsSafeIffUnhurried | apps/server/src/adapters/redis/RedisPresenceStore.ts:361-388 | that condition is exact: an admission is safe from every clean-up that may still run if and only if none of the member was waiting |
| PresenceInterleaving.RejoinDuringCleanupLeavesAGhost | apps/server/src/adapters/redis/RedisPresenceStore.ts:361-388 | a run in which a member who comes back during the clean-up is counted and refreshed and yet read by nobody |
| PresenceInterleaving.StepsAreScripts | apps/server/src/adapters/redis/RedisPresenceStore.ts:62-112 | admissions, departures, heartbeats and write-backs of the runs are the scripts |
| PresenceInterleaving.ArrivalsAreReported | apps/server/src/adapters/redis/RedisPresenceStore.ts:62-80 | the arrivals that are numbered are exactly those the script reports |
| PresenceInterleaving.ClaimedAndForgotten | apps/server/src/adapters/redis/RedisPresenceStore.ts:361-388 | a claim and its clean-up with nothing in between are a sweep of that member, and nothing is left waiting |
| PresenceInterleaving.FoundAndDropped | apps/server/src/adapters/redis/RedisPresenceStore.ts:300-309 | a room found stale and dropped with nothing in between leaves the set of that user, and nothing else changes |
| PatchRaces.NothingIsLostIff | apps/server/src/adapters/redis/RedisPresenceStore.ts:423-432 | over every run of patches that read and write back in separate commands, admissions and clean-ups, no change is lost or undone if and only if every write-back finds the fields there and, besides what it sets itself, as it read them |
| PatchRaces.RaisedHandUndoesMute | apps/server/src/adapters/redis/RedisPresenceStore.ts:423-432 | a run: a hand is raised while the host mutes, and the mute is gone |
| PatchRaces.AtOnceIsPatch | apps/server/src/adapters/redis/RedisPresenceStore.ts:423-432 | with nothing in between, reading and writing back is the patch of the store |
| Revocation.RevocationIsFinalIffOrdered | apps/server/src/adapters/auth/JwtTokenService.ts:99-249 | no credential issued before a revocation of its session or user is accepted again, in any run and after any expiry, if and only if the access lifetime is at most the refresh lifetime |
| Revocation.NothingRevives | apps/server/src/adapters/auth/JwtTokenService.ts:127-249 | with ordered lifetimes no run revives a credential |
| Revocation.LongAccessRevives | apps/server/src/config.ts:128-133 | with a longer access lifetime, which the configuration allows, a run does |
| Revocation.RevocationKills | apps/server/src/adapters/auth/JwtTokenService.ts:227-249 | a revocation marks every unexpired credential it is aimed at for at least as long as that credential lives |
| Revocation.StepKeepsCovered | apps/server/src/adapters/auth/JwtTokenService.ts:99-249 | every unexpired credential is found through its user or already marked, after every operation |
| Revocation.RefreshAcrossRevocationRevivesSession | apps/server/src/app/auth/RefreshSession.ts:38-78 | such a run: a login, the rotation, the revocation, the issuing a moment later, and the new token is accepted when the tombstone has gone |
| Revocation.TokenOutlivesRevocationIff | apps/server/src/app/auth/RefreshSession.ts:38-78 | a refresh token issued after a revocation of its session, with nothing in between, is accepted from the end of the tombstone to its own expiry, so at some later instant if and only if the clock moved between the two and refresh tokens live at all |
| Revocation.AccessOutlivesRevocationIff | apps/server/src/adapters/auth/JwtTokenService.ts:99-125 | an access token issued after the revocation is accepted exactly once the tombstone has ended and until its exp |
| Revocation.LoginInsideRevokeAll | apps/server/src/adapters/auth/JwtTokenService.ts:234-249 | in every run, a credential of the user that is still good when the second step runs stays accepted at a later instant if and only if its session was not in the index as the first step read it |
| Revocation.EscapesRevokeAllIffNotSeen | apps/server/src/adapters/auth/JwtTokenService.ts:234-249 | and for any index read; revoking everything once more reaches nothing, for the index is gone |
| Revocation.LoginInsideRevokeAllEscapes | apps/server/src/adapters/auth/JwtTokenService.ts:234-249 | such a run: a login between reading and dropping the index leaves a session no second revocation of everything reaches |
| RefreshChain.SessionsAreChains | apps/server/src/app/auth/RefreshSession.ts:37-86 | in every run each refresh token is exchanged at most once, each session has at most one unspent token, and no refresh token of a killed session is accepted at any later time, nor an access token if these live no longer |
| RefreshChain.StepKeepsChain | apps/server/src/adapters/memory/MemoryTokenService.ts:93-139 | every use case keeps the chain |
| RefreshChain.RefreshSession.Execute | apps/server/src/app/auth/RefreshSession.ts:37-86 | the store and the answer after a refresh, for a missing, a suspended and an active account |
| RefreshChain.NextIsRefreshed | apps/server/src/app/auth/RefreshSession.ts:37-86 | the runs above go through the stores this use case leaves |
| RefreshChain.RefreshedAnswers | apps/server/src/app/auth/RefreshSession.ts:37-86 | a refresh succeeds exactly for an active account whose token is unused, unexpired and of an unmarked session, and for the user and session of that token |
| MemoryTokens.SpentIsAnswered | apps/server/src/app/auth/RefreshSession.ts:37-86 | the tokens that the runs count as spent are exactly those answered |
| TokenStore.RevokeEffects | apps/server/src/adapters/auth/JwtTokenService.ts:227-232 | a revocation marks its session until a refresh lifetime from now, and nothing else |
| TokenStore.RevokeAllEffects | apps/server/src/adapters/auth/JwtTokenService.ts:234-249 | revoking everything marks each session the index still knows until a refresh lifetime from now, and forgets the index, and nothing else |
| TokenStore.AccessAnswers | apps/server/src/adapters/auth/JwtTokenService.ts:99-173 | an access token is good until the second of its issue plus the access lifetime, unless its session is marked |
| TokenStore.JwtTokenService.IssueAccessToken | apps/server/src/adapters/auth/JwtTokenService.ts:99-125 | claims in whole seconds, and the session in the index of its user for a refresh lifetime |
| TokenStore.JwtTokenService.VerifyAccessToken | apps/server/src/adapters/auth/JwtTokenService.ts:127-173 | accepted exactly before exp and without a live tombstone |
| TokenStore.JwtTokenService.IssueRefreshToken | apps/server/src/adapters/auth/JwtTokenService.ts:175-196 | an unused record that expires with the refresh lifetime |
| TokenStore.JwtTokenService.RotateRefreshToken | apps/server/src/adapters/auth/JwtTokenService.ts:198-225 | the first use wins, a second one kills the session, an expired record is no record |
| TokenStore.JwtTokenService.RevokeOne | apps/server/src/adapters/auth/JwtTokenService.ts:227-232 | a tombstone for a refresh lifetime |
| TokenStore.JwtTokenService.RevokeAllSessions | apps/server/src/adapters/auth/JwtTokenService.ts:234-249 | tombstones for every indexed session, then no index |
| MemoryTokens.ServicesAgree | apps/server/src/adapters/memory/MemoryTokenService.ts:93-139 | over every run without late replays both services exchange exactly the same refresh tokens |
| MemoryTokens.ServicesAgreeFromStart | apps/server/src/adapters/memory/MemoryTokenService.ts:93-139 | in particular from the two empty services |
| MemoryTokens.StaysAlikeIffNoLateReplay | apps/server/src/adapters/memory/MemoryTokenService.ts:104-120 | one use case gets the same answer from both, and leaves them alike if and only if it is not a used token of a live session shown after its expiry |
| MemoryTokens.LateReplayPartsThem | apps/server/src/adapters/memory/MemoryTokenService.ts:104-120 | such a replay happens in a run: login, refresh, the first token again once it has expired; then one service exchanges the second token and the other does not |
| MemoryChain.SessionsAreChains | apps/server/src/adapters/memory/MemoryTokenService.ts:93-139 | over the in-memory service, which deletes records, each token is exchanged at most once too, and each session has at most one unspent token |
| MemoryChain.RevokedIsForGood | apps/server/src/adapters/memory/MemoryTokenService.ts:104-139 | once a session is revoked there, nothing is exchanged for it again, whatever happens at whatever instants |
| MemoryChain.ExchangesAreAnswers | apps/server/src/adapters/memory/MemoryTokenService.ts:104-120 | over every run the exchanges counted are exactly the refreshes that the service answers |
| MemoryTokens.RevokeEffects | apps/server/src/adapters/memory/MemoryTokenService.ts:122-127 | the session is marked, its records are gone, and nothing of another session changes |
| MemoryTokens.RevokeAllEffects | apps/server/src/adapters/memory/MemoryTokenService.ts:129-139 | marked are exactly the known sessions of the user and those of a record of theirs, and those records are gone |
| MemoryTokens.MemoryTokenService.IssueRefreshToken | apps/server/src/adapters/memory/MemoryTokenService.ts:93-102 | the new record and the session known for its user |
| MemoryTokens.MemoryTokenService.RotateRefreshToken | apps/server/src/adapters/memory/MemoryTokenService.ts:104-120 | used before expired before revoked, in that order |
| MemoryTokens.MemoryTokenService.RevokeOne | apps/server/src/adapters/memory/MemoryTokenService.ts:122-127 | the session is marked for good and its records are gone |
| MemoryTokens.MemoryTokenService.RevokeAllSessions | apps/server/src/adapters/memory/MemoryTokenService.ts:129-139 | every known session and every session of a record is marked, and the records of the user are gone |
| Relationships.LeqIsTotalOrder | apps/server/src/domain/values/ids.ts:35-37 | any two ids compare, and only equal ones both ways |
| Relationships.OrderedPairNamesPair | apps/server/src/domain/values/ids.ts:35-37 | ordered pairs are equal exactly for the same unordered pair |
| Relationships.PairKeyNamesPair | apps/server/src/domain/values/ids.ts:40-43 | joined keys are equal exactly for the same unordered pair, for ids without a colon |
| Relationships.ColonsMergePairs | apps/server/src/domain/values/ids.ts:40-43 | with colons two pairs can share a key |
| Relationships.DirectionDoesNotMatter | apps/server/src/adapters/memory/MemoryRelationshipRepository.ts:25-56 | get(a, b) is get(b, a), and so is transition |
| Relationships.TransitionIsLocal | apps/server/src/adapters/memory/MemoryRelationshipRepository.ts:30-56 | a successful transition is seen by its own pair, in either order, and by no other |
| Relationships.TransitionKeepsFiled | apps/server/src/adapters/memory/MemoryRelationshipRepository.ts:30-56 | a transition files the row under its pair, which is what the list of hidden users reads |
| Relationships.HidingIsMutual | apps/server/src/adapters/memory/MemoryRelationshipRepository.ts:69-78 | a user is hidden from another exactly if the pair is blocked, and then both from each other |
| Relationships.MissingReadsAsNone | apps/server/src/adapters/memory/MemoryRelationshipRepository.ts:25-28 | a pair without a row reads as none, named in order |
| Relationships.MemoryRelationshipRepository.Get | apps/server/src/adapters/memory/MemoryRelationshipRepository.ts:25-28 | a missing row reads as none |
| Relationships.MemoryRelationshipRepository.Transition | apps/server/src/adapters/memory/MemoryRelationshipRepository.ts:30-56 | one compare-and-set |
| Relationships.MemoryRelationshipRepository.ListBlockedIds | apps/server/src/adapters/memory/MemoryRelationshipRepository.ts:69-78 | the other side of every blocked pair of the user |
| PostgresRelationships.Linearizable | apps/server/src/adapters/postgres/PostgresRelationshipRepository.ts:76-122 | every interleaving of the two statements of any number of clients equals whole compare-and-sets in some order, which respects who had answered before whom; one row per pair |
| PostgresRelationships.StepIsLinear | apps/server/src/adapters/postgres/PostgresRelationshipRepository.ts:98-121 | a statement either takes the whole effect of its call or none; refusal after a skipped insertion is refusal by the state found, because a row was seen |
| PostgresRelationships.RepositoriesAgree | apps/server/src/adapters/postgres/PostgresRelationshipRepository.ts:65-122 | both repositories read and move a pair alike |
| PostgresRelationships.StatementsAnswer | apps/server/src/adapters/postgres/PostgresRelationshipRepository.ts:76-122 | exactly which table answers the first statement and which the second |
| PostgresRelationships.UndisturbedIsAtomic | apps/server/src/adapters/postgres/PostgresRelationshipRepository.ts:76-122 | undisturbed, a client of the runs is answered after two statements at the latest, as the compare-and-set answers |
| PostgresRelationships.PostgresRelationshipRepository.Get | apps/server/src/adapters/postgres/PostgresRelationshipRepository.ts:65-74 | a missing row reads as none |
| PostgresRelationships.PostgresRelationshipRepository.Transition | apps/server/src/adapters/postgres/PostgresRelationshipRepository.ts:76-122 | undisturbed, the two statements are the compare-and-set |
| Connections.Service.RequestDm | apps/server/src/app/connections/RequestDm.ts:33-96 | asked only by who may act, of an active user, not blocked or open, with a shared session |
| Connections.Service.AcceptDm | apps/server/src/app/connections/RequestDm.ts:119-164 | only a request of the other side opens |
| Connections.Service.DeclineDm | apps/server/src/app/connections/RequestDm.ts:182-199 | only a request of the other side is declined, in silence |
| Connections.Service.InviteToCall | apps/server/src/app/connections/CallUser.ts:73-186 | a leftover line is released and claimed, a busy one refused |
| Connections.Service.AcceptCall | apps/server/src/app/connections/CallUser.ts:198-247 | answered only by the side that was rung, in time |
| Connections.Service.EndCall | apps/server/src/app/connections/CallUser.ts:268-307 | either side releases the line, and twice is no error |
| Connections.Service.BlockUser | apps/server/src/app/safety/BlockUser.ts:33-70 | from every state, naming the author |
| Connections.Service.UnblockUser | apps/server/src/app/safety/BlockUser.ts:84-105 | by the author only, down to none |
| Consent.StateIsEvidence | apps/server/src/app/connections/RequestDm.ts:49-196 | in every run over any number of users: an open conversation was, since the pair was last none, asked for by one and accepted by the other; a connected call was answered by the side rung within 60 s; a block names who applied it |
| Consent.EveryRunIsAStory | apps/server/src/adapters/memory/MemoryRelationshipRepository.ts:25-56 | what a run writes for a pair is an unbroken chain of legal changes, whatever it does to other pairs |
| Consent.OpenOnlyByConsent | apps/server/src/app/connections/RequestDm.ts:119-164 | the request and the acceptance behind an open conversation |
| Consent.ConnectedOnlyByAnswer | apps/server/src/app/connections/CallUser.ts:198-247 | the dialling and the answer behind a connected call are the last two changes |
| Consent.BlockedByLastAct | apps/server/src/app/safety/BlockUser.ts:51-58 | a blocked pair was blocked by its last change |
| Consent.BlockHoldsUntilLifted | apps/server/src/app/safety/BlockUser.ts:84-105 | the change after a block is its lifting, by its author, to none |
| NoWedge.LineFreesItself | apps/server/src/domain/entities/Relationship.ts:124-176 | a taken line is left over from 60 s unanswered or 2 h answered and not before, for exactly one of the two reasons, and dialling succeeds exactly then |
| NoWedge.NeverWedged | apps/server/src/app/connections/CallUser.ts:95-132 | from every state any run can reach, two willing users have a way to a ringing phone |
| Contention.EdgesExceptAskingAgain | apps/server/src/domain/entities/Relationship.ts:60-77 | in every interleaving every committed change is an edge of the table, except exactly asking again while a request is pending |
| Contention.OneCallAtATime | apps/server/src/app/connections/CallUser.ts:102-132 | in every interleaving, between two claims of the line some commit gave it back |
| Contention.EveryAnswerHadAReason | apps/server/src/app/connections/CallUser.ts:198-221 | in every interleaving, who accepted had been asked by the other, who answered had been rung by the other, who lifted a block had applied one |
| Contention.ConsentSurvivesIff | apps/server/src/adapters/memory/MemoryRelationshipRepository.ts:40-42 | in every interleaving, every change was its maker's to make if and only if each writer found what it relied on as it had read it: who asked, who dialled, who blocked, the ring still on; and then the state is the evidence it is in sequential runs |
| Contention.EntitledIffStillHolds | apps/server/src/adapters/memory/MemoryRelationshipRepository.ts:40-42 | the condition is exact for each single commit: it was its maker's to make if and only if the row it replaces still says what its maker relied on |
| Contention.UndisturbedRunsConsent | apps/server/src/adapters/memory/MemoryRelationshipRepository.ts:40-42 | in particular as long as each writer replaces the very row it read |
| Contention.AskingBackTurnsRequest | apps/server/src/domain/rules/trustLadder.ts:288-298 | the exception happens: b asks back while the request of a is pending, the change commits, and the request is then one of b |
| Contention.AcceptingOnesOwnRequest | apps/server/src/app/connections/RequestDm.ts:119-142 | a run in which, the state alone being compared, an acceptance opens a conversation on the own request of who accepts |
| Contention.LiftingAnothersBlock | apps/server/src/app/safety/BlockUser.ts:84-102 | a run in which a lifting takes away the block of the other side |
| Contention.AnsweringOnesOwnCall | apps/server/src/app/connections/CallUser.ts:198-221 | a run in which a call is answered by who placed it |
| Ladder.RequestDmAnswers | apps/server/src/app/connections/RequestDm.ts:33-73 | asking is done if and only if it is within the limit, the target exists and is active, the asker is in good standing, the pair is at none or asked already, and the two have shared a room; each denial exactly when it applies; and what becomes of the row |
| Ladder.AcceptDmAnswers | apps/server/src/app/connections/RequestDm.ts:119-143 | accepting is done if and only if the other side asked and still exists |
| Ladder.DeclineDmAnswers | apps/server/src/app/connections/RequestDm.ts:182-199 | declining always says done, and takes back exactly what the other side asked |
| Ladder.InviteToCallAnswers | apps/server/src/app/connections/CallUser.ts:73-186 | dialling is done if and only if both accounts are as they should be, the conversation is open, and the line has not been ringing for less than a minute or connected for less than two hours; each denial exactly when it applies |
| Ladder.AcceptCallAnswers | apps/server/src/app/connections/CallUser.ts:198-247 | answering is done if and only if the other side dialled less than a minute ago and both accounts are as they should be; each denial exactly when it applies |
| Ladder.EndCallAnswers | apps/server/src/app/connections/CallUser.ts:268-307 | hanging up frees a line that rings and one that is connected, and is no error on any other |
| Ladder.BlockUserAnswers | apps/server/src/app/safety/BlockUser.ts:33-70 | blocking works from every state, during a call too, whatever the standing of either; only oneself and nobody cannot be blocked, and a block that stands keeps its author |
| Ladder.UnblockUserAnswers | apps/server/src/app/safety/BlockUser.ts:84-105 | only its author lifts a block; there is none to lift for others |
| Ladder.CommitsAreLicensed | apps/server/src/app/connections/RequestDm.ts:33-66 | in every run, each change was written by a step whose facts allowed it: good standing and an active target for asking, dialling and answering, and a shared room for asking |
| Ladder.InterleavedCommitsAreLicensed | apps/server/src/app/connections/RequestDm.ts:33-66 | the same in every interleaving, for the use case that began |
| Ladder.AnswersAreTrue | apps/server/src/app/connections/RequestDm.ts:68-73 | in every interleaving, who is told done has the pair as wanted, who is not is told the conflict of that use case and wrote nothing, and nobody is answered twice |
| Ladder.EverybodyIsAnswered | apps/server/src/app/connections/CallUser.ts:102-132 | in every interleaving, whoever has something left to write is answered on the next turn or the one after |
| Ladder.StampsAre | apps/server/src/app/connections/CallUser.ts:102-132 | dialling and answering stamp the row with the instant of their decision, the others with that of their write |
| Ladder.OpenNeedsSharing | apps/server/src/domain/rules/trustLadder.ts:270-302 | behind every open conversation one of the two asked, in good standing, for which they had to have shared a room |
| Ladder.OpenMeansTogetherOnce | apps/server/src/domain/rules/trustLadder.ts:270-336 | when asking is told what the record of memberships says and that record is honest, two users with an open conversation were once in one room together |
| Ladder.TransitionTable | apps/server/src/domain/entities/Relationship.ts:60-77 | the edges of the state machine, all of them |
| Ladder.LeftoverAfter | apps/server/src/domain/entities/Relationship.ts:124-176 | a ring is stale after 60 s, a call abandoned after two hours, and no other row is either |
| Ladder.RingingAnswers | apps/server/src/domain/rules/trustLadder.ts:370-386 | when a phone may be made to ring, and why not |
| SpeakingRuns.NobodyPublishesWithoutTheHost | apps/server/src/app/speaking/ApproveSpeaker.ts:46-101 | in every run, a credential to publish goes only to the host of the room, or to a member the host approved who since then was not demoted, did not leave, and did not lapse for an instant; and to nobody under a mute |
| SpeakingRuns.StageNeverOverflows | apps/server/src/app/speaking/ApproveSpeaker.ts:56-85 | in every run and at every moment the live speakers besides the host are within maxSpeakers |
| SpeakingRuns.MirrorAgrees | apps/server/src/app/rooms/JoinRoom.ts:83-106 | in every run whoever is present has an open row with the same role and mute |
| SpeakingExact.FloorIsExact | apps/server/src/app/speaking/ApproveSpeaker.ts:46-101 | in every run and at every moment, somebody is a live speaker if and only if an approval by the host stands: not ended, and they present at every instant since |
| SpeakingExact.MuteIsExact | apps/server/src/app/speaking/MuteSpeaker.ts:39-66 | in every run whoever is present is muted if and only if the host muted them and nothing ended it; a reconnection does not |
| SpeakingExact.EventKeepsRecord | apps/server/src/app/rooms/JoinRoom.ts:83-106 | each event leaves entries owing the log what they should |
| StageRules.JoinAnswers | apps/server/src/app/rooms/JoinRoom.ts:63-79 | a join is done if and only if the account is active and unrestricted, within the limit, and the room exists and is open; otherwise nothing changes |
| StageRules.JoinEffects | apps/server/src/app/rooms/JoinRoom.ts:83-222 | who is here keeps role, mute and hand; who is not arrives as host or listener; the row says the same; hosts and speakers who are not muted may publish |
| StageRules.ApproveAnswers | apps/server/src/app/speaking/ApproveSpeaker.ts:46-101 | an approval promotes if and only if the host is here, active and unrestricted, a place is free, and the target is a listener here with an account; each answer exactly when it applies; and all that it writes |
| StageRules.RemovalAnswers | apps/server/src/app/speaking/RemoveSpeaker.ts:38-69 | removing is for a host who is here and active, of somebody else who is here; listeners are left alone |
| StageRules.StepDownAnswers | apps/server/src/app/speaking/RemoveSpeaker.ts:83-102 | a speaker here becomes a listener, nobody else does |
| StageRules.MuteAnswers | apps/server/src/app/speaking/MuteSpeaker.ts:39-66 | muting and unmuting are for a host who is here and active, of anybody else who is here |
| StageRules.RaiseHandAnswers | apps/server/src/app/speaking/RaiseHand.ts:39-75 | a hand goes up for a listener here who is active, unrestricted, not muted and within the limit, and keeps its time; it goes down for anybody such |
| StageRules.LeaveEffects | apps/server/src/app/rooms/LeaveRoom.ts:65-79 | who leaves is gone from the room and from its open rows, and nobody else is touched |
| StageRules.EveryEventHasItsAct | apps/server/src/app/rooms/JoinRoom.ts:63-70 | in every run, each arrival, approval, credential, demotion and mute was made by an act of that instant whose account was active, and unrestricted where that is asked |
| SpeakingRuns.JoinIsSound | apps/server/src/app/rooms/JoinRoom.ts:83-222 | a reconnection keeps role and mute, an arrival starts over, and the credential follows |
| SpeakingRuns.ApproveIsSound | apps/server/src/app/speaking/ApproveSpeaker.ts:46-101 | an approval is the host's, of somebody present, for a free place |
| SpeakingRuns.ApproveMeans | apps/server/src/app/speaking/ApproveSpeaker.ts:56-101 | what an approval that changes anything found, and what it wrote |
| SpeakingRuns.StepFits | apps/server/src/app/speaking/ApproveSpeaker.ts:56-85 | each act, found with every room within its limit, leaves every room within its limit |
| SpeakingRuns.ApprovalTakesAPlace | apps/server/src/app/speaking/ApproveSpeaker.ts:62-98 | an approval changes anything exactly if host, place, target and account are as they should be; the target is then a live speaker and takes a place, and the approval is refused all the same exactly if the target is muted or may not speak |
| SpeakingRuns.MutedListenerTakesAPlace | apps/server/src/app/speaking/ApproveSpeaker.ts:80-98 | a run from the start: somebody muted is approved, refused, and holds the place without a credential; if it was the only one, every other approval is told that the stage is full |
| SpeakingRuns.RemovalIsSound | apps/server/src/app/speaking/RemoveSpeaker.ts:38-69 | a removal ends the approval; the host is out of reach of it |
| SpeakingRuns.StepDownIsSound | apps/server/src/app/speaking/RemoveSpeaker.ts:83-102 | so does stepping down |
| SpeakingRuns.MuteIsSound | apps/server/src/app/speaking/MuteSpeaker.ts:39-66 | a mute lasts until unmuted, gone or lapsed |
| SpeakingRaces.AtOnceIsNext | apps/server/src/app/speaking/ApproveSpeaker.ts:46-101 | a use case whose look and writes have nothing between them is the act of the sequential runs; joins, approvals, removals, steps down, mutes and hands are split in this way |
| SpeakingRaces.CapHoldsIff | apps/server/src/app/speaking/ApproveSpeaker.ts:56-85 | over every run of use cases overlapping in any way, with any number of approvals, every room is within its limit after each step if and only if no write brings back a speaker who is none any more, or promotes a live member who is none yet, on a stage that is full |
| SpeakingRaces.WriteOverflowsIff | apps/server/src/app/speaking/ApproveSpeaker.ts:56-85 | for a single write, whatever its look was and whenever: it breaks the cap in exactly that case |
| SpeakingRaces.CapHoldsAfterwards | apps/server/src/app/speaking/ApproveSpeaker.ts:56-85 | without such a write the live speakers of a room, its host apart, are within the limit at every later moment too |
| SpeakingRaces.OnlyApprovalsOverflow | apps/server/src/app/rooms/JoinRoom.ts:83-106 | a join that finds the role it read never overflows: then only approvals can |
| SpeakingRaces.OverlappingApprovalsNeedTwoPlaces | apps/server/src/app/speaking/ApproveSpeaker.ts:56-85 | from any state, two approvals written one after the other that had both found a place keep within the limit exactly if there were two |
| SpeakingRaceRuns.OverlappingApprovalsOverflow | apps/server/src/app/speaking/ApproveSpeaker.ts:56-85 | a run from the start: both approvals count before either writes, and two speakers share one place |
| SpeakingRaceRuns.ReconnectionOverflows | apps/server/src/app/rooms/JoinRoom.ts:83-106 | a run from the start in which no approvals overlap: x reconnects, is removed, y is approved for its place, and the reconnection writes x back |
| SpeakingRaces.WriteGoesWrongIff | apps/server/src/app/rooms/JoinRoom.ts:83-222 | after any run of overlapping use cases in which each join so far found the role and mute it had read, the next write leaves a credential that nothing warrants if and only if it is a join, the membership it read may speak, and the one there now may not; late approvals, removals and mutes never do |
| SpeakingRaces.JoinGoesWrongIff | apps/server/src/app/rooms/JoinRoom.ts:83-222 | the same for one join, from any state in which entries and log agree |
| SpeakingRaces.WarrantIffCurrent | apps/server/src/app/rooms/JoinRoom.ts:83-222 | whatever a join found when it looked, publishing is warranted if and only if the membership there when it writes may speak, or there is none and the user is the host |
| SpeakingRaces.CarriedIsRightIff | apps/server/src/app/rooms/JoinRoom.ts:83-106 | the mute and the role it writes agree with the log if and only if those it read are the ones there now |
| SpeakingRaces.TimelyJoinsAreWarranted | apps/server/src/app/rooms/JoinRoom.ts:83-222 | however use cases overlap, if each join finds the role and mute it read, every credential to publish is warranted |
| SpeakingRaceRuns.ReconnectionUndoesRemoval | apps/server/src/app/rooms/JoinRoom.ts:83-100 | a run: approved, looked, removed, written; the speaker is back with an unwarranted credential |
| SpeakingRaceRuns.ReconnectionUndoesMute | apps/server/src/app/rooms/JoinRoom.ts:83-106 | a run: approved, looked, muted, written; the mute is gone though nobody lifted it, with an unwarranted credential |
| Speaking.Stage.Join | apps/server/src/app/rooms/JoinRoom.ts:63-222 | presence, mirror and credential after a join |
| Speaking.Stage.ApproveSpeaker | apps/server/src/app/speaking/ApproveSpeaker.ts:46-101 | the promotion in both stores, the hand lowered, and the credential unless the target may not publish |
| Speaking.Stage.CountSpeakers | apps/server/src/app/speaking/ApproveSpeaker.ts:56-59 | the live speakers besides the host |
| Speaking.Stage.RemoveSpeaker | apps/server/src/app/speaking/RemoveSpeaker.ts:38-69 | the demotion in both stores, for hosts only |
| Speaking.Stage.StepDown | apps/server/src/app/speaking/RemoveSpeaker.ts:83-102 | the demotion in both stores, for speakers only |
| Speaking.Stage.MuteSpeaker | apps/server/src/app/speaking/MuteSpeaker.ts:39-66 | the mute in both stores, for hosts only |
| Speaking.Stage.LeaveRoom | apps/server/src/app/rooms/LeaveRoom.ts:65-79 | presence and the open row are gone |
| Speaking.Stage.RaiseHand | apps/server/src/app/speaking/RaiseHand.ts:39-75 | raised by listeners who may speak, lowered by anybody present |
| Speaking.SpeakersAreMembers | apps/server/src/app/speaking/ApproveSpeaker.ts:56-59 | counting the members listed counts the speakers |
| Memberships.SharedMeansTogetherOnce | apps/server/src/adapters/memory/MemoryRoomRepository.ts:75-138 | over every run whose clock advances, two users have shared a session if and only if after some act both were in one room; so it is never lost again |
| Memberships.OverlapIsCommonInstant | apps/server/src/adapters/memory/MemoryRoomRepository.ts:130-133 | the comparison finds exactly the sessions with an instant in common, except an empty one strictly within another |
| Memberships.SharedIsCommonInstant | apps/server/src/adapters/postgres/PostgresRoomRepository.ts:256-275 | with sessions that last, the query is true exactly if at some instant both were in one room |
| Memberships.SharedIsSymmetric | apps/server/src/adapters/memory/MemoryRoomRepository.ts:118-138 | the evidence is mutual |
| Memberships.EvidenceIsExactIff | apps/server/src/adapters/memory/MemoryRoomRepository.ts:75-138 | over every run and any clock, the evidence is exact throughout if and only if every act was honest: a departure leaves some evidence where there was any, an arrival finds nobody gone whose departure is still to come |
| Memberships.DepartureKeepsEvidenceIff | apps/server/src/adapters/memory/MemoryRoomRepository.ts:88-96 | a departure leaves evidence that two users met if and only if some overlap does not rest on the row it closes, or rests on it with a row that began before this instant |
| Memberships.OnlyDeparturesMatter | apps/server/src/adapters/memory/MemoryRoomRepository.ts:75-138 | with a clock that never goes back the evidence is exact throughout if and only if every departure kept what there was |
| Memberships.StandingClockLosesEvidence | apps/server/src/adapters/memory/MemoryRoomRepository.ts:88-96 | a run: when a join and a leave share an instant, the evidence vanishes |
| Memberships.ClockSetBackInventsEvidence | apps/server/src/adapters/memory/MemoryRoomRepository.ts:75-86 | a run: with a clock set back, there is evidence of a meeting that never was |
| MemoryRooms.MemoryRoomRepository.RecordJoin | apps/server/src/adapters/memory/MemoryRoomRepository.ts:75-86 | an open row is refreshed and keeps its start, otherwise one is opened |
| MemoryRooms.MemoryRoomRepository.RecordLeave | apps/server/src/adapters/memory/MemoryRoomRepository.ts:88-96 | the open row is closed, and whether there was one |
| MemoryRooms.MemoryRoomRepository.FindMembership | apps/server/src/adapters/memory/MemoryRoomRepository.ts:106-109 | the open row |
| MemoryRooms.MemoryRoomRepository.HaveSharedRoomSession | apps/server/src/adapters/memory/MemoryRoomRepository.ts:118-138 | true exactly if two sessions in one room overlap |
| MemoryRooms.MemoryRoomRepository.ListDueSchedules | apps/server/src/adapters/memory/MemoryRoomRepository.ts:168-178 | the earliest due rooms, up to the limit |
| MemoryRooms.MemoryRoomRepository.ClaimOccurrence | apps/server/src/adapters/memory/MemoryRoomRepository.ts:180-214 | claimed exactly if due and not opened for this occurrence |
| MemoryRooms.MemoryRoomRepository.DisableSchedule | apps/server/src/adapters/memory/MemoryRoomRepository.ts:216-225 | no longer scheduled, and no next occurrence |
| PostgresRooms.StatementsAgree | apps/server/src/adapters/postgres/PostgresRoomRepository.ts:192-220 | under the unique index the upsert and the guarded update are the in-memory operations |
| PostgresRooms.StatementsKeepIndex | apps/server/src/adapters/postgres/PostgresRoomRepository.ts:192-220 | the statements keep at most one open row for each user |
| PostgresRooms.PostgresRoomRepository.RecordJoin | apps/server/src/adapters/postgres/PostgresRoomRepository.ts:192-202 | the in-memory operation |
| PostgresRooms.PostgresRoomRepository.RecordLeave | apps/server/src/adapters/postgres/PostgresRoomRepository.ts:211-220 | the in-memory operation, and whether a row was closed |
| PostgresRooms.PostgresRoomRepository.ClaimOccurrence | apps/server/src/adapters/postgres/PostgresRoomRepository.ts:307-337 | the in-memory operation |
| Departures.LeaveRoom.Execute | apps/server/src/app/rooms/LeaveRoom.ts:65-117 | one announcement for a row closed, credit for a voluntary session of a minute or more, nothing otherwise |
| Departures.PresenceReaper.Sweep | apps/server/src/adapters/socketio/presenceReaper.ts:54-87 | every reaped member goes through the same departure, one after the other, unless a sweep is running |
| Departures.SweepAnnouncesOnce | apps/server/src/adapters/socketio/presenceReaper.ts:54-87 | a sweep announces each reaped member once if its row was open, and nobody else |
| Departures.SweepCreditsOnce | apps/server/src/adapters/socketio/presenceReaper.ts:54-87 | and credits each whose open session had lasted 60 s, once, and nobody else |
| DepartureRaces.EveryDepartureIsAnnouncedOnce | apps/server/src/app/rooms/LeaveRoom.ts:65-117 | under every interleaving announcements and pending announcements are as many as the rows ever closed, at most one row is open, and credits never exceed announcements |
| Departures.DepartEffects | apps/server/src/app/rooms/LeaveRoom.ts:65-117 | a departure that finds an open row closes and announces it, and credits the session if and only if it was voluntary, by disconnection or by a sweep, and lasted 60 s; any other changes nothing |
| DepartureRaces.UndisturbedIsDepart | apps/server/src/app/rooms/LeaveRoom.ts:65-117 | with nothing in between, the steps of the interleaved runs are that departure |
| DepartureRaces.CreditIsFairIff | apps/server/src/app/rooms/LeaveRoom.ts:68-117 | whatever happened since the look, a departure that closes a row gives fair credit if and only if its reason earns none or the session it looked at and the one it closes are both a minute long or both not |
| DepartureRaces.CreditIsFairIfLookIsCurrent | apps/server/src/app/rooms/LeaveRoom.ts:99-117 | a departure that closes the row it looked at credits exactly a voluntary session of a minute or more |
| DepartureRaces.StaleLookOvercredits | apps/server/src/app/rooms/LeaveRoom.ts:68-88 | a run from the start in which a departure that looked at an earlier session credits a moment as a minute |
| Schedules.OccurrencesAreClaimedOnce | apps/server/src/app/rooms/OpenScheduledRooms.ts:49-123 | with any number of sweepers and any clocks each occurrence is claimed at most once, those claimed increase, and a due room can always be claimed |
| Schedules.SweepsDrain | apps/server/src/app/rooms/OpenScheduledRooms.ts:49-123 | a lone sweeper settles every room due at an instant in one sweep for each fifty, each once however many slots were missed, and touches no other, if no claim among them would be refused |
| Schedules.SweepsDrainIff | apps/server/src/app/rooms/OpenScheduledRooms.ts:49-123 | enough sweeps leave nothing due if and only if there is no due room whose claim is refused and whose schedule goes on: such a room is due for ever |
| Schedules.ForwardDrains | apps/server/src/app/rooms/OpenScheduledRooms.ts:49-123 | where openings lie before what is next, enough sweeps leave nothing due, and that stays so |
| Schedules.FewerSweepsDoNotDrain | apps/server/src/app/rooms/OpenScheduledRooms.ts:49-70 | with fewer sweeps exactly the rest stays due |
| Schedules.ClaimIsOrdered | apps/server/src/adapters/postgres/PostgresRoomRepository.ts:307-337 | a claim by any sweeper keeps what was opened before what is next |
| Schedules.DueAnswers | apps/server/src/adapters/memory/MemoryRoomRepository.ts:168-178 | a room is due from its next occurrence on, while it is scheduled |
| Schedules.ListIsBounded | apps/server/src/app/rooms/OpenScheduledRooms.ts:49-51 | a sweep lists fifty due rooms, or all if there are no more, the earliest first |
| Schedules.ClaimAnswers | apps/server/src/adapters/postgres/PostgresRoomRepository.ts:307-337 | claimed if and only if due and not opened for this occurrence, and then moved, with nothing else changed |
| Schedules.DisableEffects | apps/server/src/adapters/memory/MemoryRoomRepository.ts:216-225 | off the schedule, all else kept |
| Schedules.OpeningsAreClaims | apps/server/src/app/rooms/OpenScheduledRooms.ts:75-123 | the openings of the runs are exactly the claims that succeeded, with their occurrences |
| Schedules.UndisturbedIsOpenAll | apps/server/src/app/rooms/OpenScheduledRooms.ts:49-73 | alone, a sweeper of the runs deals with its whole list in order |
| MemoryRooms.OpenScheduledRooms.Execute | apps/server/src/app/rooms/OpenScheduledRooms.ts:49-73 | the listed rooms are dealt with in order, each as listed; the counts are those of the rooms opened, lost to another and closed; if none is stuck, exactly the listed are settled and no claim is lost |
| MemoryRooms.OpenScheduledRooms.OpenOne | apps/server/src/app/rooms/OpenScheduledRooms.ts:75-123 | opened exactly if claimed, disabled exactly if nothing comes next |
| RateLimits.AtMostOneWindowMore | apps/server/src/adapters/memory/MemoryRateLimiter.ts:31-55 | in any stretch of time at most limit × (windows to cover it + 1) − 1 checks are allowed |
| RateLimits.CoverIsCeiling | apps/server/src/adapters/memory/MemoryRateLimiter.ts:31-55 | the number of windows to cover a stretch is the quotient rounded up |
| RateLimits.AtMostLimitPerWindow | apps/server/src/adapters/memory/MemoryRateLimiter.ts:31-55 | at most limit checks are allowed in a window |
| RateLimits.BoundIsSharp | apps/server/src/adapters/memory/MemoryRateLimiter.ts:11-21 | twice the limit less one can get through within one window length |
| RateLimits.StepIsCheck | apps/server/src/adapters/memory/MemoryRateLimiter.ts:31-55 | the counting is about the limiter's own decisions |
| RateLimits.LimitersAgree | apps/server/src/adapters/redis/RedisRateLimiter.ts:30-65 | over every run of checks and resets with limits of at least one both limiters answer alike |
| RateLimits.OneCheckAgrees | apps/server/src/adapters/redis/RedisRateLimiter.ts:42-65 | a check is answered alike unless it opens a window with a limit of zero |
| RateLimits.MemoryRateLimiter.Check | apps/server/src/adapters/memory/MemoryRateLimiter.ts:31-55 | the new window and the answer |
| RateLimits.RedisRateLimiter.Check | apps/server/src/adapters/redis/RedisRateLimiter.ts:42-65 | the counter, its expiry and the answer |
| Paging.FollowingSeesEverythingOnce | apps/server/src/app/connections/SendDm.ts:146-175 | following the cursors yields messages strictly newest first, none twice, and at the end every message that was there at the start, for every page size and whatever is appended between pages |
| Paging.FollowingEnds | apps/server/src/app/connections/SendDm.ts:146-175 | if only newer messages are appended, the end comes with the page that covers the last message |
| Paging.PageIsNewest | apps/server/src/adapters/messages/CompositeMessageRepository.ts:124-158 | a page holds the newest matching messages, and has a cursor exactly if others remain |
| Paging.ClampedAnswers | apps/server/src/app/connections/SendDm.ts:146-152 | a limit within 1 and 100 is kept, a missing one is 50, others go to the nearer end |
| Paging.SortDescends | apps/server/src/adapters/messages/CompositeMessageRepository.ts:139-146 | the order is strict: by time, ties by id |
| MemoryMessages.SamePagesIffInOrder | apps/server/src/adapters/memory/MemoryMessageRepository.ts:50-67 | list and table give the same pages exactly if the messages were appended in order of time and id |
| MemoryMessages.UnknownCursorDiffers | apps/server/src/adapters/memory/MemoryMessageRepository.ts:62-65 | an unknown cursor gives the newest page from the list and nothing from the table |
| MemoryMessages.MemoryMessageRepository.AppendDirectMessage | apps/server/src/adapters/memory/MemoryMessageRepository.ts:42-48 | the conversation grows by one, the others stay |
| MemoryMessages.MemoryMessageRepository.DirectThread | apps/server/src/adapters/memory/MemoryMessageRepository.ts:50-67 | the page by position |
| MemoryMessages.CompositeMessageRepository.AppendDirectMessage | apps/server/src/adapters/messages/CompositeMessageRepository.ts:105-122 | the table grows by one row |
| MemoryMessages.CompositeMessageRepository.DirectThread | apps/server/src/adapters/messages/CompositeMessageRepository.ts:124-158 | the page by key |
| MemoryMessages.CompositeMessageRepository.ReadDmThread | apps/server/src/app/connections/SendDm.ts:146-175 | one row more is read than returned, and decides the cursor |
| Challenges.OneChallenge | apps/server/src/adapters/memory/MemoryAuthChallengeStore.ts:68-92 | from its issue to the next a challenge accepts at most one right answer and compares at most five wrong ones |
| Challenges.SpentStaysDead | apps/server/src/adapters/memory/MemoryAuthChallengeStore.ts:68-92 | once spent every answer is told it has expired, until the challenge is issued anew |
| Challenges.StepEffects | apps/server/src/adapters/redis/RedisAuthChallengeStore.ts:44-120 | each answer exactly when, in either store, and what is left of the challenge |
| Challenges.StoresAgree | apps/server/src/adapters/redis/RedisAuthChallengeStore.ts:44-120 | over every run both stores give the same outcomes |
| Challenges.StoresAgreeFromEmpty | apps/server/src/adapters/redis/RedisAuthChallengeStore.ts:44-120 | in particular from the two empty stores |
| Challenges.MemoryAuthChallengeStore.Issue | apps/server/src/adapters/memory/MemoryAuthChallengeStore.ts:51-66 | a new challenge replaces the old one |
| Challenges.MemoryAuthChallengeStore.Consume | apps/server/src/adapters/memory/MemoryAuthChallengeStore.ts:68-92 | expired, right, wrong, and the fifth wrong |
| Challenges.RedisAuthChallengeStore.Issue | apps/server/src/adapters/redis/RedisAuthChallengeStore.ts:77-95 | a new challenge replaces the old one |
| Challenges.RedisAuthChallengeStore.Consume | apps/server/src/adapters/redis/RedisAuthChallengeStore.ts:97-120 | the script's answer |
| Logins.SigningUpTakesOneCode | apps/server/src/app/auth/VerifyLoginCode.ts:73-124 | the first step of signing up restores exactly the code it consumed, with a full term; the second creates the account and ends the code |
| Logins.OneLoginPerRequest | apps/server/src/app/auth/VerifyLoginCode.ts:65-124 | over every run an identifier logs in at most once for each code requested, returned codes included |
| Logins.VerifyAnswers | apps/server/src/app/auth/VerifyLoginCode.ts:65-197 | exactly which answer comes when: an account is logged into if and only if the code is right and alive and the account active, one is created only for an unknown identifier with valid details |
| Logins.VerifyEffects | apps/server/src/app/auth/VerifyLoginCode.ts:65-213 | tokens change only by a login, and then for its user, in the session drawn; accounts only by a registration; the challenge as the answer says |
| Logins.OnlyActiveAccountsGetTokens | apps/server/src/app/auth/VerifyLoginCode.ts:182-213 | over every run, with accounts suspended and restored in between, each refresh token was issued on the right code for an account active at that moment, or new |
| Logins.RequestedCodeLogsIn | apps/server/src/app/auth/VerifyLoginCode.ts:65-128 | a code requested for an account logs in within ten minutes, unless the account is no longer active |
| Logins.VerifyLoginCode.Execute | apps/server/src/app/auth/VerifyLoginCode.ts:65-218 | the challenge, the account and the tokens after each outcome |

## Left out

- Cryptography: hashes are taken as injective, signatures as unforgeable, ids and tokens as drawn fresh.
- Stored JSON, corrupt entries, and Redis and SQL wire details: each script or statement is one atomic change.
- Media, sockets, push, the bus, metrics and logging: emissions appear only where they are counted.
- The media tokens of a call: AcceptCall issues both once it has connected the pair.
- Events at the media server after a token is issued: revoking or muting a live track is not modelled, only the
  credentials issued and the roles and mutes stored.
- Heartbeats of several rooms run concurrently in the source and one after the other here.
- Deleting users, and with them their rows: rows of relationships and memberships are never deleted.
- Schedule parsing and time zones: the calendar is any table of answers, cut to those strictly in the future. The
  room status `deleted`, which the Postgres listing skips.
- Trust scores, streaks, titles and message text: standing is a fact given to a use case.
- The rule who may read or send messages, rate limits inside use cases (a fact given to them), and room chat.
- The switch that turns the in-memory limiter off for tests.
- Strings compare by code point here and by UTF-16 unit in the source; ids are ASCII.
- ServicesAgree: the in-memory service verifies access tokens to the millisecond, the other to the second; only
  refresh tokens are compared.
- RedisRefinesMemory: the list a sweep returns is not compared. Redis returns at most 500 members, in order of
  deadline, and gives each the instant of the sweep less the time to live for a last sign of life; the in-memory
  store returns all that lapsed, as they were.
- WriteGoesWrongIff: the look of a use case is one moment and its writes another; the calls within either, and the
  fields of one entry, are not pulled apart there. For the fields of presence see NothingIsLostIff.
- Linearizable: a self-pair, which the table's CHECK refuses, is a row like any other; no use case writes one.
- SharedMeansTogetherOnce: a session starts when its join is made. JoinRoom passes the last sign of life instead
  when presence is there and the row is not, which sequential runs never meet.
- FollowingEnds: if messages older than the cursor keep arriving, the pages need not end; that case is not bounded.
- StageNeverOverflows: the limit of a room is fixed for the run.
- EveryDepartureIsAnnouncedOnce: the presence writes of a departure are part of Speaking, not of this count.
- EveryAnswerHadAReason: within an interleaving the sixty seconds are measured at the decision, not at the commit.
