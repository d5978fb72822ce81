/**
 * The Redis presence adapter as an object over the three structures. A clock reading is an argument
 * of each call. Every method says what the call did to the one map the structures stand for.
 */
module RedisPresence {
  import opened Common
  import opened PresenceSpec
  import P = PresenceSpec
  import S = PresenceScripts

  class RedisPresenceStore {
    const ttlMs: int
    var hash: map<Key, S.Stored>
    var userRooms: set<Key>
    var expiry: map<string, int>

    constructor (ttlMs: int)
      ensures this.ttlMs == ttlMs && State() == S.EMPTY
    {
      this.ttlMs := ttlMs;
      hash, userRooms, expiry := map[], {}, map[];
    }

    function State(): S.Redis
      reads this
    {
      S.Redis(hash, userRooms, expiry)
    }

    // The TTL map the structures stand for.
    function Presence(): TtlMap
      reads this
    {
      S.Meaning(State(), ttlMs)
    }

    method SetOnline(room: string, user: string, role: Role, muted: bool, now: int) returns (isNewArrival: bool)
      requires S.Linked(State(), now) && S.Bare(room) && S.Bare(user)
      modifies this
      ensures S.Linked(State(), now)
      ensures (Presence(), isNewArrival) == P.SetOnline(old(Presence()), (room, user), role, muted, now, ttlMs)
    {
      S.SetOnlineRefines(State(), room, user, role, muted, now, ttlMs);
      var existing := GetMember(room, user, now);
      var payload := S.Stored(role, muted, if existing.Some? then existing.value.hand else None);

      // SET_ONLINE_SCRIPT
      var member := S.MemberKey(room, user);
      var wasPresent := member in expiry && expiry[member] > now;
      hash := hash[(room, user) := payload];
      userRooms := userRooms + {(room, user)};
      expiry := expiry[member := now + ttlMs];
      isNewArrival := !wasPresent;
    }

    method SetOffline(room: string, user: string, now: int)
      requires S.Linked(State(), now) && S.Bare(user)
      modifies this
      ensures S.Linked(State(), now) && Presence() == P.SetOffline(old(Presence()), (room, user))
    {
      S.SetOfflineRefines(State(), room, user, now, ttlMs);
      hash := hash - {(room, user)};
      userRooms := userRooms - {(room, user)};
      expiry := expiry - {S.MemberKey(room, user)};
    }

    method Heartbeat(room: string, user: string, now: int) returns (refreshed: bool)
      requires S.Linked(State(), now) && S.Bare(user)
      modifies this
      ensures S.Linked(State(), now)
      ensures (Presence(), refreshed) == P.Heartbeat(old(Presence()), (room, user), now, ttlMs)
    {
      S.HeartbeatRefines(State(), room, user, now, ttlMs);
      var member := S.MemberKey(room, user);
      if member !in expiry {
        return false;
      }
      if expiry[member] <= now {
        return false;
      }
      expiry := expiry[member := now + ttlMs];
      return true;
    }

    method GetMember(room: string, user: string, now: int) returns (member: Option<Entry>)
      requires S.Linked(State(), now) && S.Bare(user)
      ensures member == P.GetMember(Presence(), (room, user), now, ttlMs)
      ensures member == S.ReadMember(State(), (room, user), now, ttlMs)
    {
      S.ReadsRefine(State(), now, ttlMs);
      var key := S.MemberKey(room, user);
      if (room, user) !in hash || key !in expiry {
        return None;
      }
      var deadline := expiry[key];
      if deadline <= now {
        return None;
      }
      return Some(S.EntryOf(hash[(room, user)], deadline, ttlMs));
    }

    // Everybody live in the room, once each, in the order HGETALL happened to give them.
    method GetRoomMembers(room: string, now: int) returns (members: seq<(string, Entry)>)
      requires S.Linked(State(), now)
      ensures Elements(members) == RoomMembers(Presence(), room, now, ttlMs)
      ensures forall i, j :: 0 <= i < j < |members| ==> members[i] != members[j]
    {
      S.ReadsRefine(State(), now, ttlMs);
      members := CollectRoom(State(), room, now, ttlMs);
    }

    // Reading also drops the user's lapsed rooms from their set.
    method GetRoomsForUser(user: string, now: int) returns (rooms: set<string>)
      requires S.Linked(State(), now) && S.Bare(user)
      modifies this`userRooms
      ensures S.Linked(State(), now) && Presence() == old(Presence())
      ensures forall p :: p in userRooms <==> p in old(userRooms) && !(p.1 == user && !S.HasLiveDeadline(old(State()), p.0, user, now))
      ensures rooms == RoomsForUser(Presence(), user, now, ttlMs)
    {
      S.ReadsRefine(State(), now, ttlMs);
      S.ForgetStaleRefines(State(), user, now, ttlMs);
      rooms := S.ReadRoomsOf(State(), user, now);
      var stale := S.StaleRoomsOf(State(), user, now);
      userRooms := set p | p in userRooms && !(p.1 == user && p.0 in stale);
    }

    // updateRole, setMutedByHost and setHandRaised.
    method Patch(room: string, user: string, change: Change, now: int)
      requires S.Linked(State(), now)
      modifies this`hash
      ensures S.Linked(State(), now) && Presence() == P.Patch(old(Presence()), (room, user), change, now)
    {
      S.PatchRefines(State(), (room, user), change, now, ttlMs);
      if (room, user) !in hash {
        return;
      }
      var existing := hash[(room, user)];
      var fields := Changed(existing.role, existing.muted, existing.hand, change, now);
      hash := hash[(room, user) := S.Stored(fields.0, fields.1, fields.2)];
    }

    method GetRaisedHands(room: string, now: int) returns (queue: seq<(string, Entry)>)
      requires S.Linked(State(), now)
      ensures IsHandQueue(queue, RoomMembers(Presence(), room, now, ttlMs))
      ensures forall i, j :: 0 <= i < j < |queue| ==> queue[i].1.hand.Some? && queue[j].1.hand.Some? && queue[i].1.hand.value <= queue[j].1.hand.value
    {
      var members := GetRoomMembers(room, now);
      queue := [];
      for i := 0 to |members|
        invariant IsHandQueue(queue, Elements(members[..i]))
      {
        assert members[..i + 1] == members[..i] + [members[i]];
        if members[i].1.hand.Some? {
          queue := InsertByHand(queue, members[i], Elements(members[..i]));
        }
      }
      assert members[..|members|] == members;
    }

    method CountLive(now: int) returns (entries: nat, users: nat, rooms: nat)
      requires S.Linked(State(), now)
      ensures (entries, users, rooms) == P.CountLive(Presence(), now, ttlMs)
    {
      var live := S.LiveMembers(State(), now);
      var userSet, roomSet := NamesAmong(live);
      S.CountRefines(State(), now, ttlMs);
      return |live|, |userSet|, |roomSet|;
    }

    // REAP_SCRIPT: the oldest overdue members leave the index in one step.
    method ClaimOverdue(now: int) returns (batch: seq<string>)
      modifies this`expiry
      ensures S.IsReapBatch(old(State()), batch, now)
      ensures State() == S.ReapScript(old(State()), batch)
    {
      batch := OldestOverdue(State(), now);
      expiry := expiry - Elements(batch);
    }

    // The loop after the script: read and forget each member claimed.
    method ForgetClaimed(batch: seq<string>, now: int, ghost start: S.Redis) returns (reaped: seq<(Key, Entry)>)
      requires Decodes(start, batch)
      requires State() == S.ReapScript(start, batch)
      modifies this`hash, this`userRooms
      ensures State() == S.ForgetAll(S.ReapScript(start, batch), S.KeysOf(batch))
      ensures Matches(start, batch, reaped, now, ttlMs)
    {
      reaped := [];
      for i := 0 to |batch|
        invariant State() == S.ForgetAll(S.ReapScript(start, batch), S.KeysOf(batch[..i]))
        invariant Matches(start, batch[..i], reaped, now, ttlMs)
      {
        var k := S.ParseMemberKey(batch[i]).value;
        KeysOneMore(start, batch, i);
        S.ForgetOneMore(S.ReapScript(start, batch), S.KeysOf(batch[..i]), k);
        var stored := hash[k];
        hash := hash - {k};
        userRooms := userRooms - {k};
        reaped := reaped + [(k, ReapedEntry(stored, now, ttlMs))];
      }
      assert batch[..|batch|] == batch;
    }

    /**
     * Claim a batch, then read and forget each member claimed. What comes back names exactly the
     * members that left the store, each once, with the fields they had; all of them had lapsed, the
     * longest-lapsed go first, and nobody lapsed stays unless the batch is full.
     */
    method ReapExpired(now: int) returns (reaped: seq<(Key, Entry)>)
      requires S.Linked(State(), now)
      modifies this
      ensures S.Linked(State(), now)
      ensures Presence() == Swept(old(Presence()), Names(reaped), now, ttlMs)
      ensures IsReaped(old(Presence()), reaped, now, ttlMs)
    {
      ghost var start := State();
      var batch := ClaimOverdue(now);
      S.ReapRefines(start, batch, now, ttlMs);
      assert Decodes(start, batch) by {
        forall j | 0 <= j < |batch| ensures batch[j] in start.expiry { assert batch[j] in batch; }
      }
      reaped := ForgetClaimed(batch, now, start);
      ReapedNames(start, batch, reaped, now, ttlMs);
      ReapedIsFair(start, batch, reaped, now, ttlMs);
    }
  }

  // The distinct users and rooms that some index members name.
  method NamesAmong(members: set<string>) returns (users: set<string>, rooms: set<string>)
    ensures users == S.UsersAmong(members) && rooms == S.RoomsAmong(members)
  {
    var left := members;
    users, rooms := {}, {};
    while left != {}
      invariant left <= members
      invariant users == S.UsersAmong(members - left) && rooms == S.RoomsAmong(members - left)
      decreases |left|
    {
      var v :| v in left;
      assert members - (left - {v}) == members - left + {v};
      S.AmongOneMore(members - left, v);
      left := left - {v};
      var k := S.ParseMemberKey(v);
      if k.Some? {
        users, rooms := users + {k.value.1}, rooms + {k.value.0};
      }
    }
    assert members - left == members;
  }

  // ZRANGEBYSCORE -inf now LIMIT 0 500.
  method OldestOverdue(s: S.Redis, now: int) returns (batch: seq<string>)
    ensures S.IsReapBatch(s, batch, now)
  {
    batch := [];
    var overdue := S.Overdue(s, now);
    var left := overdue;
    while left != {} && |batch| < S.REAP_BATCH_SIZE
      invariant left <= overdue
      invariant forall v :: v in batch <==> v in overdue && v !in left
      invariant forall i, j :: 0 <= i < j < |batch| ==> batch[i] != batch[j]
      invariant forall v, w :: v in batch && w in left ==> s.expiry[v] <= s.expiry[w]
      invariant |batch| + |left| == |overdue| && |batch| <= S.REAP_BATCH_SIZE
      decreases |left|
    {
      OldestExists(s.expiry, left);
      var v :| v in left && forall w :: w in left ==> s.expiry[v] <= s.expiry[w];
      batch := batch + [v];
      left := left - {v};
    }
  }

  // HGETALL, then keep the fields whose deadline is still ahead.
  method CollectRoom(s: S.Redis, room: string, now: int, ttl: int) returns (members: seq<(string, Entry)>)
    ensures Elements(members) == S.ReadRoom(s, room, now, ttl)
    ensures forall i, j :: 0 <= i < j < |members| ==> members[i] != members[j]
  {
    members := [];
    var left := s.hash.Keys;
    while left != {}
      invariant left <= s.hash.Keys
      invariant Elements(members) == S.ReadAmong(s, s.hash.Keys - left, room, now, ttl)
      invariant forall i, j :: 0 <= i < j < |members| ==> members[i] != members[j]
      decreases |left|
    {
      var k :| k in left;
      S.ReadAmongOneMore(s, s.hash.Keys - left, k, room, now, ttl);
      assert s.hash.Keys - (left - {k}) == s.hash.Keys - left + {k};
      left := left - {k};
      var stored := S.ReadMember(s, k, now, ttl);
      if k.0 == room && stored.Some? {
        members := Append(members, (k.1, stored.value));
      }
    }
    assert s.hash.Keys - left == s.hash.Keys;
  }

  function Append<T>(s: seq<T>, x: T): (r: seq<T>)
    ensures Elements(r) == Elements(s) + {x}
    ensures x !in Elements(s) && (forall i, j :: 0 <= i < j < |s| ==> s[i] != s[j]) ==> forall i, j :: 0 <= i < j < |r| ==> r[i] != r[j]
  {
    s + [x]
  }

  function ReapedEntry(f: S.Stored, now: int, ttl: int): Entry {
    Entry(f.role, f.muted, now - ttl, f.hand)
  }

  function Names(reaped: seq<(Key, Entry)>): set<Key> {
    set x | x in reaped :: x.0
  }

  // What a sweep may hand back: lapsed members, each once, with the role, mute and hand they had,
  // and a last-seen time made up from the clock.
  ghost predicate IsReaped(m: TtlMap, reaped: seq<(Key, Entry)>, now: int, ttl: int) {
    && Names(reaped) <= Lapsed(m, now, ttl)
    && |reaped| == Min(S.REAP_BATCH_SIZE, |Lapsed(m, now, ttl)|)
    && (forall i, j :: 0 <= i < j < |reaped| ==> reaped[i].0 != reaped[j].0)
    && (forall x :: x in reaped ==> x.0 in m && x.1 == m[x.0].(lastSeenMs := now - ttl))
    && (forall x, k :: x in reaped && k in Lapsed(m, now, ttl) && k !in Names(reaped) ==> m[x.0].lastSeenMs <= m[k].lastSeenMs)
  }

  ghost predicate Matches(s: S.Redis, batch: seq<string>, reaped: seq<(Key, Entry)>, now: int, ttl: int) {
    && |reaped| == |batch|
    && forall j :: 0 <= j < |batch| ==>
      && S.ParseMemberKey(batch[j]) == Some(reaped[j].0) && S.Member(reaped[j].0) == batch[j]
      && reaped[j].0 in s.hash && reaped[j].1 == ReapedEntry(s.hash[reaped[j].0], now, ttl)
  }

  // Each claimed member, none of them twice, names stored fields.
  ghost predicate Decodes(s: S.Redis, batch: seq<string>) {
    && (forall j :: 0 <= j < |batch| ==>
      S.ParseMemberKey(batch[j]).Some? && S.ParseMemberKey(batch[j]).value in s.hash && S.Member(S.ParseMemberKey(batch[j]).value) == batch[j])
    && (forall i, j :: 0 <= i < j < |batch| ==> batch[i] != batch[j])
  }

  lemma KeysOneMore(s: S.Redis, batch: seq<string>, i: nat)
    requires Decodes(s, batch) && i < |batch|
    ensures var k := S.ParseMemberKey(batch[i]).value;
      k !in S.KeysOf(batch[..i]) && S.KeysOf(batch[..i + 1]) == S.KeysOf(batch[..i]) + {k}
  {
  }

  lemma ReapedNames(s: S.Redis, batch: seq<string>, reaped: seq<(Key, Entry)>, now: int, ttl: int)
    requires S.Linked(s, now) && S.IsReapBatch(s, batch, now) && Matches(s, batch, reaped, now, ttl)
    ensures Names(reaped) == S.KeysOf(batch)
    ensures |Lapsed(S.Meaning(s, ttl), now, ttl)| == |S.Overdue(s, now)|
  {
    forall k | k in S.KeysOf(batch) ensures k in Names(reaped) {
      var v :| v in batch && S.ParseMemberKey(v) == Some(k);
      var j :| 0 <= j < |batch| && batch[j] == v;
      assert reaped[j] in reaped;
    }
    forall k | k in Names(reaped) ensures k in S.KeysOf(batch) {
      var x :| x in reaped && x.0 == k;
      var j :| 0 <= j < |reaped| && reaped[j] == x;
      assert batch[j] in batch;
    }
    AsManyLapsedAsOverdue(s, now, ttl);
  }

  // Every overdue member is the index member of one lapsed entry.
  lemma AsManyLapsedAsOverdue(s: S.Redis, now: int, ttl: int)
    requires S.Linked(s, now)
    ensures |Lapsed(S.Meaning(s, ttl), now, ttl)| == |S.Overdue(s, now)|
  {
    var lapsed, overdue := Lapsed(S.Meaning(s, ttl), now, ttl), S.Overdue(s, now);
    forall v | v in overdue ensures exists k :: k in lapsed && S.Member(k) == v {
      assert S.ParseMemberKey(v).value in lapsed;
    }
    RenamingKeepsSize(lapsed, overdue, S.Member);
  }

  lemma ReapedIsFair(s: S.Redis, batch: seq<string>, reaped: seq<(Key, Entry)>, now: int, ttl: int)
    requires S.Linked(s, now) && S.IsReapBatch(s, batch, now) && Matches(s, batch, reaped, now, ttl)
    requires Names(reaped) == S.KeysOf(batch)
    requires |Lapsed(S.Meaning(s, ttl), now, ttl)| == |S.Overdue(s, now)|
    ensures IsReaped(S.Meaning(s, ttl), reaped, now, ttl)
  {
  }

  lemma {:induction false} OldestExists(expiry: map<string, int>, among: set<string>)
    requires among != {} && among <= expiry.Keys
    ensures exists v :: v in among && forall w :: w in among ==> expiry[v] <= expiry[w]
    decreases |among|
  {
    var v :| v in among;
    if among != {v} {
      OldestExists(expiry, among - {v});
      var u :| u in among - {v} && forall w :: w in among - {v} ==> expiry[u] <= expiry[w];
      var oldest := if expiry[u] <= expiry[v] then u else v;
      assert oldest in among && forall w :: w in among ==> expiry[oldest] <= expiry[w];
    }
  }
}
