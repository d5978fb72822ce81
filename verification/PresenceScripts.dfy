/**
 * Presence as Redis holds it: a hash of fields per room, a set of rooms per user, and one sorted set
 * of deadlines whose members are "room|user" strings. Each Lua script, MULTI block or single command
 * of the adapter is one function here, because Redis runs each of them without interruption.
 */
module PresenceScripts {
  import opened Common
  import opened PresenceSpec

  // ---- the composite member of the expiry index ----

  predicate Bare(id: string) {
    '|' !in id
  }

  function MemberKey(room: string, user: string): string {
    room + "|" + user
  }

  function Member(k: Key): string {
    MemberKey(k.0, k.1)
  }

  function FirstBar(v: string): (i: nat)
    ensures i <= |v| && '|' !in v[..i]
    ensures i < |v| ==> v[i] == '|'
  {
    if v == "" || v[0] == '|' then 0
    else
      var i := 1 + FirstBar(v[1..]);
      assert v[..i] == [v[0]] + v[1..][..i - 1];
      i
  }

  function ParseMemberKey(v: string): Option<Key> {
    var i := FirstBar(v);
    if i == |v| then None else Some((v[..i], v[i + 1..]))
  }

  // Splitting at the first bar undoes the join exactly when the room id holds no bar.
  lemma ParsesBackIffBare(room: string, user: string)
    ensures ParseMemberKey(MemberKey(room, user)) == Some((room, user)) <==> Bare(room)
  {
    if Bare(room) {
      FirstBarAfterBare(room, user);
      assert MemberKey(room, user)[..|room|] == room;
      assert MemberKey(room, user)[|room| + 1..] == user;
    } else {
      BarsStayBehind(room, user);
    }
  }

  lemma {:induction false} FirstBarAfterBare(room: string, user: string)
    requires Bare(room)
    ensures FirstBar(MemberKey(room, user)) == |room|
  {
    if room != "" {
      FirstBarAfterBare(room[1..], user);
      assert MemberKey(room, user)[1..] == MemberKey(room[1..], user);
    }
  }

  // A bar inside the room id moves the rest of that id into the parsed user id.
  lemma {:induction false} BarsStayBehind(room: string, user: string)
    requires !Bare(room)
    ensures var k := ParseMemberKey(MemberKey(room, user)); k.Some? && Bare(k.value.0) && !Bare(k.value.1)
  {
    var v := MemberKey(room, user);
    var i := FirstBar(v);
    if room[0] == '|' {
      assert v[1..] == room[1..] + "|" + user;
      assert v[1..][|room| - 1] == '|';
    } else {
      assert Bare([room[0]]);
      assert room == [room[0]] + room[1..];
      BarsStayBehind(room[1..], user);
      assert v[1..] == MemberKey(room[1..], user);
      assert v[i + 1..] == v[1..][i..];
    }
  }

  // ---- the three structures ----

  datatype Stored = Stored(role: Role, muted: bool, hand: Option<int>)

  // `hash` is keyed by (room, field); (room, user) in `userRooms` says the room is in that user's set.
  datatype Redis = Redis(hash: map<Key, Stored>, userRooms: set<Key>, expiry: map<string, int>)

  const EMPTY := Redis(map[], {}, map[])

  function SetOnlineScript(s: Redis, room: string, user: string, payload: Stored, deadline: int, now: int): (Redis, bool) {
    var member := MemberKey(room, user);
    var wasPresent := member in s.expiry && s.expiry[member] > now;
    (Redis(s.hash[(room, user) := payload], s.userRooms + {(room, user)}, s.expiry[member := deadline]), !wasPresent)
  }

  function SetOfflineScript(s: Redis, room: string, user: string): Redis {
    Redis(s.hash - {(room, user)}, s.userRooms - {(room, user)}, s.expiry - {MemberKey(room, user)})
  }

  // The script goes on to ask HEXISTS, but every number is true in Lua, so that guard never returns.
  function HeartbeatScript(s: Redis, member: string, now: int, deadline: int): (Redis, bool) {
    if member !in s.expiry || s.expiry[member] <= now then (s, false)
    else (s.(expiry := s.expiry[member := deadline]), true)
  }

  const REAP_BATCH_SIZE: nat := 500

  function Overdue(s: Redis, now: int): set<string> {
    set v | v in s.expiry && s.expiry[v] <= now
  }

  // ZRANGEBYSCORE -inf now LIMIT 0 500: the oldest deadlines that have passed, at most a batch of them.
  ghost predicate IsReapBatch(s: Redis, batch: seq<string>, now: int) {
    && |batch| == Min(REAP_BATCH_SIZE, |Overdue(s, now)|)
    && (forall i, j :: 0 <= i < j < |batch| ==> batch[i] != batch[j])
    && (forall v :: v in batch ==> v in Overdue(s, now))
    && (forall v, w :: v in batch && w in Overdue(s, now) && w !in batch ==> s.expiry[v] <= s.expiry[w])
  }

  function ReapScript(s: Redis, batch: seq<string>): Redis {
    s.(expiry := s.expiry - Elements(batch))
  }

  // The MULTI that follows the reap script, one member at a time.
  function ForgetMember(s: Redis, k: Key): Redis {
    s.(hash := s.hash - {k}, userRooms := s.userRooms - {k})
  }

  function WriteFields(s: Redis, k: Key, fields: Stored): Redis {
    s.(hash := s.hash[k := fields])
  }

  function ForgetStaleRooms(s: Redis, user: string, stale: set<string>): Redis {
    s.(userRooms := set p | p in s.userRooms && !(p.1 == user && p.0 in stale))
  }

  // ---- reading ----

  function ReadMember(s: Redis, k: Key, now: int, ttl: int): Option<Entry> {
    var member := MemberKey(k.0, k.1);
    if k in s.hash && member in s.expiry && s.expiry[member] > now
    then Some(EntryOf(s.hash[k], s.expiry[member], ttl))
    else None
  }

  function EntryOf(f: Stored, deadline: int, ttl: int): Entry {
    Entry(f.role, f.muted, deadline - ttl, f.hand)
  }

  function ReadRoom(s: Redis, room: string, now: int, ttl: int): set<(string, Entry)> {
    ReadAmong(s, s.hash.Keys, room, now, ttl)
  }

  // The members of the room found among some of the fields.
  function ReadAmong(s: Redis, fields: set<Key>, room: string, now: int, ttl: int): set<(string, Entry)> {
    set k | k in fields && k.0 == room && ReadMember(s, k, now, ttl).Some? :: (k.1, ReadMember(s, k, now, ttl).value)
  }

  lemma ReadAmongOneMore(s: Redis, fields: set<Key>, k: Key, room: string, now: int, ttl: int)
    requires k !in fields
    ensures var found, more := ReadAmong(s, fields, room, now, ttl), ReadAmong(s, fields + {k}, room, now, ttl);
      var e := ReadMember(s, k, now, ttl);
      if k.0 == room && e.Some? then more == found + {(k.1, e.value)} && (k.1, e.value) !in found else more == found
  {
  }

  function ReadRoomsOf(s: Redis, user: string, now: int): set<string> {
    set p | p in s.userRooms && p.1 == user && HasLiveDeadline(s, p.0, user, now) :: p.0
  }

  function StaleRoomsOf(s: Redis, user: string, now: int): set<string> {
    set p | p in s.userRooms && p.1 == user && !HasLiveDeadline(s, p.0, user, now) :: p.0
  }

  predicate HasLiveDeadline(s: Redis, room: string, user: string, now: int) {
    MemberKey(room, user) in s.expiry && s.expiry[MemberKey(room, user)] > now
  }

  function LiveMembers(s: Redis, now: int): set<string> {
    set v | v in s.expiry && s.expiry[v] > now
  }

  function ReadCountLive(s: Redis, now: int): (nat, nat, nat) {
    (|LiveMembers(s, now)|, |UsersAmong(LiveMembers(s, now))|, |RoomsAmong(LiveMembers(s, now))|)
  }

  function UsersAmong(members: set<string>): set<string> {
    set v | v in members && ParseMemberKey(v).Some? :: ParseMemberKey(v).value.1
  }

  function RoomsAmong(members: set<string>): set<string> {
    set v | v in members && ParseMemberKey(v).Some? :: ParseMemberKey(v).value.0
  }

  lemma AmongOneMore(members: set<string>, v: string)
    ensures var k := ParseMemberKey(v);
      && UsersAmong(members + {v}) == UsersAmong(members) + (if k.Some? then {k.value.1} else {})
      && RoomsAmong(members + {v}) == RoomsAmong(members) + (if k.Some? then {k.value.0} else {})
  {
  }

  // ---- the invariant that ties the three structures together, and what they mean ----

  /**
   * Fields and deadlines name the same members, whose ids hold no bar; and a deadline that is still
   * ahead has its room in the user's set. Only lapsed rooms may already be missing from that set.
   */
  ghost predicate Linked(s: Redis, now: int) {
    && (forall k :: k in s.hash ==> Bare(k.0) && Bare(k.1) && Member(k) in s.expiry && ParseMemberKey(Member(k)) == Some(k))
    && (forall v :: v in s.expiry ==> ParseMemberKey(v).Some? && ParseMemberKey(v).value in s.hash && Member(ParseMemberKey(v).value) == v)
    && (forall k :: k in s.hash && s.expiry[Member(k)] > now ==> k in s.userRooms)
  }

  // The single map the three structures stand for.
  function Meaning(s: Redis, ttl: int): TtlMap {
    map k | k in s.hash :: EntryOf(s.hash[k], Deadline(s, k), ttl)
  }

  function Deadline(s: Redis, k: Key): int {
    if Member(k) in s.expiry then s.expiry[Member(k)] else 0
  }

  // A deadline under a well-formed user id belongs to a stored member, even when the room id was made up by a client.
  lemma DeadlineHasFields(s: Redis, now: int, room: string, user: string)
    requires Linked(s, now) && Bare(user) && MemberKey(room, user) in s.expiry
    ensures (room, user) in s.hash
  {
    var v := MemberKey(room, user);
    if !Bare(room) { BarsStayBehind(room, user); }
    ParsesBackIffBare(room, user);
  }

  lemma LaterStaysLinked(s: Redis, now: int, later: int)
    requires Linked(s, now) && now <= later
    ensures Linked(s, later)
  {
  }

  // One pair of ids has both fields and deadline or neither, and shares its index member with nobody.
  ghost predicate Consistent(s: Redis, room: string, user: string) {
    && (MemberKey(room, user) in s.expiry <==> (room, user) in s.hash)
    && (forall l :: l in s.hash && l != (room, user) ==> Member(l) != MemberKey(room, user))
  }

  lemma LinkedIsConsistent(s: Redis, now: int, room: string, user: string)
    requires Linked(s, now) && Bare(user)
    ensures Consistent(s, room, user)
  {
    if MemberKey(room, user) in s.expiry { DeadlineHasFields(s, now, room, user); }
  }

  lemma SetOnlineRefines(s: Redis, room: string, user: string, role: Role, muted: bool, now: int, ttl: int)
    requires Linked(s, now) && Bare(room) && Bare(user)
    ensures
      var existing := ReadMember(s, (room, user), now, ttl);
      var hand := if existing.Some? then existing.value.hand else None;
      var (s', isNew) := SetOnlineScript(s, room, user, Stored(role, muted, hand), now + ttl, now);
      Linked(s', now) && (Meaning(s', ttl), isNew) == SetOnline(Meaning(s, ttl), (room, user), role, muted, now, ttl)
  {
    var existing := ReadMember(s, (room, user), now, ttl);
    var hand := if existing.Some? then existing.value.hand else None;
    ParsesBackIffBare(room, user);
    LinkedIsConsistent(s, now, room, user);
    SetOnlineKeepsLinks(s, room, user, Stored(role, muted, hand), now, ttl);
    SetOnlineMeans(s, room, user, role, muted, now, ttl);
  }

  lemma SetOnlineKeepsLinks(s: Redis, room: string, user: string, payload: Stored, now: int, ttl: int)
    requires Linked(s, now) && Bare(room) && Bare(user)
    requires ParseMemberKey(MemberKey(room, user)) == Some((room, user))
    ensures Linked(SetOnlineScript(s, room, user, payload, now + ttl, now).0, now)
  {
  }

  lemma SetOnlineMeans(s: Redis, room: string, user: string, role: Role, muted: bool, now: int, ttl: int)
    requires Consistent(s, room, user)
    ensures
      var existing := ReadMember(s, (room, user), now, ttl);
      var hand := if existing.Some? then existing.value.hand else None;
      var (s', isNew) := SetOnlineScript(s, room, user, Stored(role, muted, hand), now + ttl, now);
      var (m', isNew') := SetOnline(Meaning(s, ttl), (room, user), role, muted, now, ttl);
      isNew == isNew' && Meaning(s', ttl) == m'
  {
  }

  lemma SetOfflineRefines(s: Redis, room: string, user: string, now: int, ttl: int)
    requires Linked(s, now) && Bare(user)
    ensures var s' := SetOfflineScript(s, room, user);
      Linked(s', now) && Meaning(s', ttl) == SetOffline(Meaning(s, ttl), (room, user))
  {
    LinkedIsConsistent(s, now, room, user);
    SetOfflineKeepsLinks(s, room, user, now);
    SetOfflineMeans(s, room, user, ttl);
  }

  lemma SetOfflineKeepsLinks(s: Redis, room: string, user: string, now: int)
    requires Linked(s, now) && Consistent(s, room, user)
    ensures Linked(SetOfflineScript(s, room, user), now)
  {
  }

  lemma SetOfflineMeans(s: Redis, room: string, user: string, ttl: int)
    requires Consistent(s, room, user)
    ensures Meaning(SetOfflineScript(s, room, user), ttl) == SetOffline(Meaning(s, ttl), (room, user))
  {
  }

  lemma HeartbeatRefines(s: Redis, room: string, user: string, now: int, ttl: int)
    requires Linked(s, now) && Bare(user)
    ensures var (s', ok) := HeartbeatScript(s, MemberKey(room, user), now, now + ttl);
      Linked(s', now) && (Meaning(s', ttl), ok) == Heartbeat(Meaning(s, ttl), (room, user), now, ttl)
  {
    LinkedIsConsistent(s, now, room, user);
    HeartbeatKeepsLinks(s, room, user, now, ttl);
    HeartbeatMeans(s, room, user, now, ttl);
  }

  lemma HeartbeatKeepsLinks(s: Redis, room: string, user: string, now: int, ttl: int)
    requires Linked(s, now) && Consistent(s, room, user)
    ensures Linked(HeartbeatScript(s, MemberKey(room, user), now, now + ttl).0, now)
  {
  }

  lemma HeartbeatMeans(s: Redis, room: string, user: string, now: int, ttl: int)
    requires Consistent(s, room, user)
    ensures HeartbeatScript(s, MemberKey(room, user), now, now + ttl).1 == Heartbeat(Meaning(s, ttl), (room, user), now, ttl).1
    ensures Meaning(HeartbeatScript(s, MemberKey(room, user), now, now + ttl).0, ttl) == Heartbeat(Meaning(s, ttl), (room, user), now, ttl).0
  {
  }

  function PatchFields(s: Redis, k: Key, c: Change, now: int): Redis {
    if k !in s.hash then s
    else
      var p := Changed(s.hash[k].role, s.hash[k].muted, s.hash[k].hand, c, now);
      WriteFields(s, k, Stored(p.0, p.1, p.2))
  }

  lemma PatchRefines(s: Redis, k: Key, c: Change, now: int, ttl: int)
    requires Linked(s, now)
    ensures Linked(PatchFields(s, k, c, now), now)
    ensures Meaning(PatchFields(s, k, c, now), ttl) == Patch(Meaning(s, ttl), k, c, now)
  {
    PatchMeans(s, k, c, now, ttl);
  }

  lemma PatchMeans(s: Redis, k: Key, c: Change, now: int, ttl: int)
    ensures Meaning(PatchFields(s, k, c, now), ttl) == Patch(Meaning(s, ttl), k, c, now)
  {
  }

  // Claim a batch, then forget the fields of each member claimed.
  function ForgetAll(s: Redis, claimed: set<Key>): Redis {
    s.(hash := s.hash - claimed, userRooms := set p | p in s.userRooms && p !in claimed)
  }

  lemma ForgetOneMore(s: Redis, claimed: set<Key>, k: Key)
    ensures ForgetAll(s, claimed + {k}) == ForgetMember(ForgetAll(s, claimed), k)
  {
  }

  function KeysOf(batch: seq<string>): set<Key> {
    set v | v in batch && ParseMemberKey(v).Some? :: ParseMemberKey(v).value
  }

  lemma ReapRefines(s: Redis, batch: seq<string>, now: int, ttl: int)
    requires Linked(s, now) && forall v :: v in batch ==> v in Overdue(s, now)
    ensures var s' := ForgetAll(ReapScript(s, batch), KeysOf(batch));
      Linked(s', now) && Meaning(s', ttl) == Swept(Meaning(s, ttl), KeysOf(batch), now, ttl)
  {
    var claimed := KeysOf(batch);
    assert forall k :: k in s.hash ==> (k in claimed <==> Member(k) in batch);
    ReapEffect(s, batch, claimed, now, ttl);
  }

  lemma ReapEffect(s: Redis, batch: seq<string>, claimed: set<Key>, now: int, ttl: int)
    requires Linked(s, now) && forall v :: v in batch ==> v in s.expiry && s.expiry[v] <= now
    requires forall k :: k in s.hash ==> (k in claimed <==> Member(k) in batch)
    ensures var s' := ForgetAll(ReapScript(s, batch), claimed);
      Linked(s', now) && Meaning(s', ttl) == Swept(Meaning(s, ttl), claimed, now, ttl)
  {
    ReapKeepsLinks(s, batch, claimed, now);
    ReapMeans(s, batch, claimed, now, ttl);
  }

  lemma ReapKeepsLinks(s: Redis, batch: seq<string>, claimed: set<Key>, now: int)
    requires Linked(s, now) && forall v :: v in batch ==> v in s.expiry && s.expiry[v] <= now
    requires forall k :: k in s.hash ==> (k in claimed <==> Member(k) in batch)
    ensures Linked(ForgetAll(ReapScript(s, batch), claimed), now)
  {
  }

  lemma ReapMeans(s: Redis, batch: seq<string>, claimed: set<Key>, now: int, ttl: int)
    requires forall k :: k in s.hash ==> Member(k) in s.expiry
    requires forall v :: v in batch ==> v in s.expiry && s.expiry[v] <= now
    requires forall k :: k in s.hash ==> (k in claimed <==> Member(k) in batch)
    ensures Meaning(ForgetAll(ReapScript(s, batch), claimed), ttl) == Swept(Meaning(s, ttl), claimed, now, ttl)
  {
  }

  lemma ForgetStaleRefines(s: Redis, user: string, now: int, ttl: int)
    requires Linked(s, now) && Bare(user)
    ensures var s' := ForgetStaleRooms(s, user, StaleRoomsOf(s, user, now));
      Linked(s', now) && Meaning(s', ttl) == Meaning(s, ttl)
  {
  }

  /** The rooms found stale leave the set of this user, and no other room of anybody does. */
  lemma ForgetStaleEffects(s: Redis, user: string, now: int)
    ensures var s' := ForgetStaleRooms(s, user, StaleRoomsOf(s, user, now));
      && s'.hash == s.hash && s'.expiry == s.expiry
      && forall p :: p in s'.userRooms <==> p in s.userRooms && !(p.1 == user && !HasLiveDeadline(s, p.0, user, now))
  {
  }

  /** Going offline takes a member out of all three structures, and nobody else out of any. */
  lemma SetOfflineEffects(s: Redis, room: string, user: string)
    ensures var s' := SetOfflineScript(s, room, user);
      && (forall k :: k in s'.hash <==> k in s.hash && k != (room, user)) && (forall k :: k in s'.hash ==> s'.hash[k] == s.hash[k])
      && (forall k :: k in s'.userRooms <==> k in s.userRooms && k != (room, user))
      && (forall v :: v in s'.expiry <==> v in s.expiry && v != MemberKey(room, user)) && (forall v :: v in s'.expiry ==> s'.expiry[v] == s.expiry[v])
  {
  }

  /** A sweep claims at most five hundred, and all that are overdue if they are no more. */
  lemma BatchIsBounded(s: Redis, batch: seq<string>, now: int)
    requires IsReapBatch(s, batch, now)
    ensures |batch| <= 500 && (|Overdue(s, now)| <= 500 ==> Elements(batch) == Overdue(s, now))
  {
    DistinctSize(batch);
    if |Overdue(s, now)| <= 500 { SubsetIsAll(Elements(batch), Overdue(s, now)); }
  }

  lemma SubsetIsAll(small: set<string>, large: set<string>)
    requires small <= large && |small| == |large|
    ensures small == large
  {
    assert large == small + (large - small);
  }

  // Each read of the three structures is the read of the one map they stand for.
  lemma ReadsRefine(s: Redis, now: int, ttl: int)
    requires Linked(s, now)
    ensures forall k: Key :: Bare(k.1) ==> ReadMember(s, k, now, ttl) == GetMember(Meaning(s, ttl), k, now, ttl)
    ensures forall room :: ReadRoom(s, room, now, ttl) == RoomMembers(Meaning(s, ttl), room, now, ttl)
    ensures forall user :: Bare(user) ==> ReadRoomsOf(s, user, now) == RoomsForUser(Meaning(s, ttl), user, now, ttl)
  {
    var m := Meaning(s, ttl);
    forall user | Bare(user) ensures ReadRoomsOf(s, user, now) == RoomsForUser(m, user, now, ttl) {
      forall room | room in ReadRoomsOf(s, user, now) ensures room in RoomsForUser(m, user, now, ttl) {
        DeadlineHasFields(s, now, room, user);
        assert (room, user) in m;
      }
      forall room | room in RoomsForUser(m, user, now, ttl) ensures room in ReadRoomsOf(s, user, now) {
        assert (room, user) in s.hash && (room, user) in s.userRooms;
      }
    }
    forall room ensures ReadRoom(s, room, now, ttl) == RoomMembers(m, room, now, ttl) {
      forall x | x in ReadRoom(s, room, now, ttl) ensures x in RoomMembers(m, room, now, ttl) {
        assert (room, x.0) in m;
      }
      forall x | x in RoomMembers(m, room, now, ttl) ensures x in ReadRoom(s, room, now, ttl) {
        assert (room, x.0) in s.hash && ReadMember(s, (room, x.0), now, ttl).Some?;
      }
    }
  }

  lemma CountRefines(s: Redis, now: int, ttl: int)
    requires Linked(s, now)
    ensures ReadCountLive(s, now) == CountLive(Meaning(s, ttl), now, ttl)
  {
    var m := Meaning(s, ttl);
    var live := set k | k in m && Live(m[k], now, ttl);
    var members := LiveMembers(s, now);
    assert forall k :: k in live ==> Member(k) in members;
    assert forall v :: v in members ==> ParseMemberKey(v).value in live;
    assert (set k | k in live :: k.1) == UsersAmong(members);
    assert (set k | k in live :: k.0) == RoomsAmong(members);
    RenamingKeepsSize(live, members, Member);
  }
}
