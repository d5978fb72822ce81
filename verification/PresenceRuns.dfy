/**
 * Whole runs of the presence port. The in-memory store and the three Redis structures, driven by the
 * same calls at the same clock readings, answer every call alike, although the sweeps of one are
 * bounded by a batch and those of the other are not.
 */
module PresenceRuns {
  import opened Common
  import opened PresenceSpec
  import opened PresenceScripts

  datatype Op =
    | GoOnline(room: string, user: string, role: Role, muted: bool)
    | GoOffline(room: string, user: string)
    | Beat(room: string, user: string)
    | Alter(room: string, user: string, change: Change)
    | Reap(batch: seq<string>)
    | AskMember(room: string, user: string)
    | AskRoom(room: string)
    | AskHands(room: string)
    | AskRoomsOf(user: string)
    | AskCount

  datatype Answer =
    | Done
    | Flag(b: bool)
    | OneMember(member: Option<Entry>)
    | Members(members: set<(string, Entry)>)
    | Rooms(rooms: set<string>)
    | Count(entries: nat, people: nat, places: nat)

  // User ids are minted by the server, and so is the room id of anybody it admits; a room id in any
  // other call may be whatever a client sent.
  predicate WellFormed(op: Op) {
    match op
    case GoOnline(room, user, _, _) => Bare(room) && Bare(user)
    case GoOffline(_, user) => Bare(user)
    case Beat(_, user) => Bare(user)
    case AskMember(_, user) => Bare(user)
    case AskRoomsOf(user) => Bare(user)
    case _ => true
  }

  // Who has a hand up; the queue itself is sorted by the time in each entry.
  function HandsUp(members: set<(string, Entry)>): set<(string, Entry)> {
    set x | x in members && x.1.hand.Some?
  }

  function MemoryStep(m: TtlMap, op: Op, now: int, ttl: int): (TtlMap, Answer) {
    match op
    case GoOnline(room, user, role, muted) =>
      var (m', isNew) := SetOnline(m, (room, user), role, muted, now, ttl); (m', Flag(isNew))
    case GoOffline(room, user) => (SetOffline(m, (room, user)), Done)
    case Beat(room, user) => var (m', ok) := Heartbeat(m, (room, user), now, ttl); (m', Flag(ok))
    case Alter(room, user, change) => (Patch(m, (room, user), change, now), Done)
    case Reap(_) => (Swept(m, Lapsed(m, now, ttl), now, ttl), Done)
    case AskMember(room, user) => (m, OneMember(GetMember(m, (room, user), now, ttl)))
    case AskRoom(room) => (m, Members(RoomMembers(m, room, now, ttl)))
    case AskHands(room) => (m, Members(HandsUp(RoomMembers(m, room, now, ttl))))
    case AskRoomsOf(user) => (m, Rooms(RoomsForUser(m, user, now, ttl)))
    case AskCount => var (e, u, r) := CountLive(m, now, ttl); (m, Count(e, u, r))
  }

  function RedisStep(s: Redis, op: Op, now: int, ttl: int): (Redis, Answer) {
    match op
    case GoOnline(room, user, role, muted) =>
      var existing := ReadMember(s, (room, user), now, ttl);
      var hand := if existing.Some? then existing.value.hand else None;
      var (s', isNew) := SetOnlineScript(s, room, user, Stored(role, muted, hand), now + ttl, now);
      (s', Flag(isNew))
    case GoOffline(room, user) => (SetOfflineScript(s, room, user), Done)
    case Beat(room, user) =>
      var (s', ok) := HeartbeatScript(s, MemberKey(room, user), now, now + ttl); (s', Flag(ok))
    case Alter(room, user, change) => (PatchFields(s, (room, user), change, now), Done)
    case Reap(batch) => (ForgetAll(ReapScript(s, batch), KeysOf(batch)), Done)
    case AskMember(room, user) => (s, OneMember(ReadMember(s, (room, user), now, ttl)))
    case AskRoom(room) => (s, Members(ReadRoom(s, room, now, ttl)))
    case AskHands(room) => (s, Members(HandsUp(ReadRoom(s, room, now, ttl))))
    case AskRoomsOf(user) =>
      (ForgetStaleRooms(s, user, StaleRoomsOf(s, user, now)), Rooms(ReadRoomsOf(s, user, now)))
    case AskCount => var (e, u, r) := ReadCountLive(s, now); (s, Count(e, u, r))
  }

  // What Redis may choose: which overdue members one sweep claims.
  ghost predicate Possible(s: Redis, op: Op, now: int) {
    op.Reap? ==> IsReapBatch(s, op.batch, now)
  }

  type Call = (int, Op)

  function MemoryAnswers(m: TtlMap, calls: seq<Call>, ttl: int): seq<Answer>
    decreases |calls|
  {
    if calls == [] then []
    else
      var (m', a) := MemoryStep(m, calls[0].1, calls[0].0, ttl);
      [a] + MemoryAnswers(m', calls[1..], ttl)
  }

  function RedisAnswers(s: Redis, calls: seq<Call>, ttl: int): seq<Answer>
    decreases |calls|
  {
    if calls == [] then []
    else
      var (s', a) := RedisStep(s, calls[0].1, calls[0].0, ttl);
      [a] + RedisAnswers(s', calls[1..], ttl)
  }

  // Clock readings never go back, ids are well formed, and each sweep claims what Redis could give it.
  ghost predicate Legal(s: Redis, calls: seq<Call>, ttl: int, start: int)
    decreases |calls|
  {
    calls == [] ||
    (var (now, op) := calls[0];
     && start <= now && WellFormed(op) && Possible(s, op, now)
     && Legal(RedisStep(s, op, now, ttl).0, calls[1..], ttl, now))
  }

  /** Started empty, both stores answer every legal sequence of calls identically; what a sweep reports is not an answer here. */
  lemma RedisRefinesMemory(calls: seq<Call>, ttl: int, start: int)
    requires Legal(EMPTY, calls, ttl, start)
    ensures RedisAnswers(EMPTY, calls, ttl) == MemoryAnswers(map[], calls, ttl)
  {
    AnswersAgree(EMPTY, map[], calls, ttl, start);
  }

  lemma {:induction false} AnswersAgree(s: Redis, m: TtlMap, calls: seq<Call>, ttl: int, start: int)
    requires Linked(s, start) && SameLive(Meaning(s, ttl), m, start, ttl)
    requires Legal(s, calls, ttl, start)
    ensures RedisAnswers(s, calls, ttl) == MemoryAnswers(m, calls, ttl)
    decreases |calls|
  {
    if calls != [] {
      var (now, op) := calls[0];
      LaterStaysLinked(s, start, now);
      LaterStaysSame(Meaning(s, ttl), m, start, now, ttl);
      StepRefines(s, op, now, ttl);
      StepRespectsLive(Meaning(s, ttl), m, op, now, ttl);
      var s', m', r' := RedisStep(s, op, now, ttl).0, MemoryStep(m, op, now, ttl).0, MemoryStep(Meaning(s, ttl), op, now, ttl).0;
      assert SameLive(Meaning(s', ttl), m', now, ttl) by {
        forall k ensures GetMember(Meaning(s', ttl), k, now, ttl) == GetMember(m', k, now, ttl) {
          assert GetMember(r', k, now, ttl) == GetMember(m', k, now, ttl);
        }
      }
      AnswersAgree(s', m', calls[1..], ttl, now);
    }
  }

  lemma LaterStaysSame(m: TtlMap, m': TtlMap, now: int, later: int, ttl: int)
    requires SameLive(m, m', now, ttl) && now <= later
    ensures SameLive(m, m', later, ttl)
  {
    forall k ensures GetMember(m, k, later, ttl) == GetMember(m', k, later, ttl) {
      assert GetMember(m, k, now, ttl) == GetMember(m', k, now, ttl);
    }
  }

  // One call on the three structures is that call on the map they stand for; only a sweep may lag behind.
  lemma StepRefines(s: Redis, op: Op, now: int, ttl: int)
    requires Linked(s, now) && WellFormed(op) && Possible(s, op, now)
    ensures Linked(RedisStep(s, op, now, ttl).0, now)
    ensures RedisStep(s, op, now, ttl).1 == MemoryStep(Meaning(s, ttl), op, now, ttl).1
    ensures SameLive(Meaning(RedisStep(s, op, now, ttl).0, ttl), MemoryStep(Meaning(s, ttl), op, now, ttl).0, now, ttl)
  {
    match op
    case GoOnline(room, user, role, muted) => SetOnlineRefines(s, room, user, role, muted, now, ttl);
    case GoOffline(room, user) => SetOfflineRefines(s, room, user, now, ttl);
    case Beat(room, user) => HeartbeatRefines(s, room, user, now, ttl);
    case Alter(room, user, change) => PatchRefines(s, (room, user), change, now, ttl);
    case Reap(batch) => SweepStepRefines(s, batch, now, ttl);
    case _ => ReadRefines(s, op, now, ttl);
  }

  // A sweep leaves lapsed entries that the reference takes, and nobody can tell.
  lemma SweepStepRefines(s: Redis, batch: seq<string>, now: int, ttl: int)
    requires Linked(s, now) && Possible(s, Reap(batch), now)
    ensures Linked(RedisStep(s, Reap(batch), now, ttl).0, now)
    ensures SameLive(Meaning(RedisStep(s, Reap(batch), now, ttl).0, ttl), MemoryStep(Meaning(s, ttl), Reap(batch), now, ttl).0, now, ttl)
  {
    ReapRefines(s, batch, now, ttl);
  }

  predicate IsRead(op: Op) {
    op.AskMember? || op.AskRoom? || op.AskHands? || op.AskRoomsOf? || op.AskCount?
  }

  lemma ReadRefines(s: Redis, op: Op, now: int, ttl: int)
    requires Linked(s, now) && WellFormed(op) && IsRead(op)
    ensures Linked(RedisStep(s, op, now, ttl).0, now)
    ensures RedisStep(s, op, now, ttl).1 == MemoryStep(Meaning(s, ttl), op, now, ttl).1
    ensures SameLive(Meaning(RedisStep(s, op, now, ttl).0, ttl), MemoryStep(Meaning(s, ttl), op, now, ttl).0, now, ttl)
  {
    if op.AskCount? { CountRefines(s, now, ttl); } else { ReadsRefine(s, now, ttl); }
    if op.AskRoomsOf? { ForgetStaleRefines(s, op.user, now, ttl); }
  }

  // Calls cannot tell apart two maps with the same live members, and keep them that way.
  lemma StepRespectsLive(m: TtlMap, m': TtlMap, op: Op, now: int, ttl: int)
    requires SameLive(m, m', now, ttl)
    ensures MemoryStep(m, op, now, ttl).1 == MemoryStep(m', op, now, ttl).1
    ensures SameLive(MemoryStep(m, op, now, ttl).0, MemoryStep(m', op, now, ttl).0, now, ttl)
  {
    ReadsRespectLive(m, m', op, now, ttl);
    var r, r' := MemoryStep(m, op, now, ttl).0, MemoryStep(m', op, now, ttl).0;
    forall k ensures GetMember(r, k, now, ttl) == GetMember(r', k, now, ttl) {
      assert GetMember(m, k, now, ttl) == GetMember(m', k, now, ttl);
      WriteRespectsLive(m, m', op, k, now, ttl);
    }
  }

  lemma WriteRespectsLive(m: TtlMap, m': TtlMap, op: Op, k: Key, now: int, ttl: int)
    requires GetMember(m, k, now, ttl) == GetMember(m', k, now, ttl)
    ensures GetMember(MemoryStep(m, op, now, ttl).0, k, now, ttl) == GetMember(MemoryStep(m', op, now, ttl).0, k, now, ttl)
  {
  }

  lemma ReadsRespectLive(m: TtlMap, m': TtlMap, op: Op, now: int, ttl: int)
    requires SameLive(m, m', now, ttl)
    ensures MemoryStep(m, op, now, ttl).1 == MemoryStep(m', op, now, ttl).1
  {
    match op
    case GoOnline(room, user, _, _) => assert GetMember(m, (room, user), now, ttl) == GetMember(m', (room, user), now, ttl);
    case Beat(room, user) => assert GetMember(m, (room, user), now, ttl) == GetMember(m', (room, user), now, ttl);
    case AskRoom(room) =>
      RoomMembersWithin(m, m', room, now, ttl);
      RoomMembersWithin(m', m, room, now, ttl);
    case AskHands(room) =>
      RoomMembersWithin(m, m', room, now, ttl);
      RoomMembersWithin(m', m, room, now, ttl);
    case AskRoomsOf(user) =>
      RoomsWithin(m, m', user, now, ttl);
      RoomsWithin(m', m, user, now, ttl);
    case AskCount =>
      assert (set k | k in m && Live(m[k], now, ttl)) == (set k | k in m' && Live(m'[k], now, ttl)) by {
        LiveWithin(m, m', now, ttl);
        LiveWithin(m', m, now, ttl);
      }
    case _ =>
  }

  lemma LiveWithin(m: TtlMap, m': TtlMap, now: int, ttl: int)
    requires SameLive(m, m', now, ttl)
    ensures (set k | k in m && Live(m[k], now, ttl)) <= (set k | k in m' && Live(m'[k], now, ttl))
  {
    forall k | k in m && Live(m[k], now, ttl) ensures k in m' && Live(m'[k], now, ttl) {
      assert GetMember(m, k, now, ttl) == GetMember(m', k, now, ttl);
    }
  }

  lemma RoomMembersWithin(m: TtlMap, m': TtlMap, room: string, now: int, ttl: int)
    requires SameLive(m, m', now, ttl)
    ensures RoomMembers(m, room, now, ttl) <= RoomMembers(m', room, now, ttl)
  {
    forall x | x in RoomMembers(m, room, now, ttl) ensures x in RoomMembers(m', room, now, ttl) {
      assert GetMember(m, (room, x.0), now, ttl) == GetMember(m', (room, x.0), now, ttl);
    }
  }

  lemma RoomsWithin(m: TtlMap, m': TtlMap, user: string, now: int, ttl: int)
    requires SameLive(m, m', now, ttl)
    ensures RoomsForUser(m, user, now, ttl) <= RoomsForUser(m', user, now, ttl)
  {
    forall room | room in RoomsForUser(m, user, now, ttl) ensures room in RoomsForUser(m', user, now, ttl) {
      assert GetMember(m, (room, user), now, ttl) == GetMember(m', (room, user), now, ttl);
    }
  }

  /** Who has a hand up is exactly whom the queue of raised hands holds, in either store. */
  lemma HandsUpAreQueued(q: seq<(string, Entry)>, members: set<(string, Entry)>)
    requires IsHandQueue(q, members)
    ensures Elements(q) == HandsUp(members)
  {
  }

  /** The reference sweep leaves exactly who is live. */
  lemma SweepLeavesTheLive(m: TtlMap, batch: seq<string>, now: int, ttl: int)
    ensures var m' := MemoryStep(m, Reap(batch), now, ttl).0;
      forall k :: (k in m' <==> k in m && now - m[k].lastSeenMs < ttl) && (k in m' ==> m'[k] == m[k])
  {
  }
}
