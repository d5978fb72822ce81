/**
 * The in-memory presence store: a map of rooms, each a map of users. Every method is the operation of
 * the reference map; the nesting, and the rooms that empty out, are invisible.
 */
module MemoryPresence {
  import opened Common
  import opened PresenceSpec
  import P = PresenceSpec

  type Rooms = map<string, map<string, Entry>>

  function Keys(rooms: Rooms): set<Key> {
    set r, u | r in rooms && u in rooms[r] :: (r, u)
  }

  function Flat(rooms: Rooms): TtlMap {
    map k | k in Keys(rooms) :: rooms[k.0][k.1]
  }

  lemma FlatAt(rooms: Rooms, k: Key)
    ensures k in Flat(rooms) <==> k.0 in rooms && k.1 in rooms[k.0]
  {
  }

  function UsersOf(rooms: Rooms, r: string): map<string, Entry> {
    if r in rooms then rooms[r] else map[]
  }

  // The entries of a room are the room's map.
  lemma RoomOf(rooms: Rooms, r: string, u: string)
    ensures (r, u) in Flat(rooms) <==> u in UsersOf(rooms, r)
    ensures (r, u) in Flat(rooms) ==> Flat(rooms)[(r, u)] == rooms[r][u]
  {
    FlatAt(rooms, (r, u));
  }

  lemma PutMeans(rooms: Rooms, r: string, u: string, e: Entry)
    ensures Flat(rooms[r := UsersOf(rooms, r)[u := e]]) == Flat(rooms)[(r, u) := e]
  {
    var rooms' := rooms[r := UsersOf(rooms, r)[u := e]];
    forall k ensures k in Flat(rooms') <==> k == (r, u) || k in Flat(rooms) {
      FlatAt(rooms, k);
      FlatAt(rooms', k);
    }
  }

  lemma DropMeans(rooms: Rooms, r: string, u: string)
    requires r in rooms
    ensures Flat(rooms[r := rooms[r] - {u}]) == Flat(rooms) - {(r, u)}
  {
    var rooms' := rooms[r := rooms[r] - {u}];
    forall k ensures k in Flat(rooms') <==> k != (r, u) && k in Flat(rooms) {
      FlatAt(rooms, k);
      FlatAt(rooms', k);
    }
  }

  function Survivors(users: map<string, Entry>, now: int, ttl: int): map<string, Entry> {
    map u | u in users && Live(users[u], now, ttl) :: users[u]
  }

  // The rooms after some of them were swept: a swept room that emptied out is gone.
  function SweptRooms(rooms: Rooms, done: set<string>, now: int, ttl: int): Rooms {
    map r | r in rooms && (r in done ==> Survivors(rooms[r], now, ttl) != map[]) ::
      if r in done then Survivors(rooms[r], now, ttl) else rooms[r]
  }

  function LapsedEntries(rooms: Rooms, done: set<string>, now: int, ttl: int): TtlMap {
    map k | k in Keys(rooms) && k.0 in done && !Live(rooms[k.0][k.1], now, ttl) :: rooms[k.0][k.1]
  }

  lemma SweptMeans(rooms: Rooms, now: int, ttl: int)
    ensures Flat(SweptRooms(rooms, rooms.Keys, now, ttl)) == Swept(Flat(rooms), Lapsed(Flat(rooms), now, ttl), now, ttl)
    ensures LapsedEntries(rooms, rooms.Keys, now, ttl) == map k | k in Lapsed(Flat(rooms), now, ttl) :: Flat(rooms)[k]
  {
    var rooms' := SweptRooms(rooms, rooms.Keys, now, ttl);
    forall k ensures k in Flat(rooms') <==> k in Flat(rooms) && Live(Flat(rooms)[k], now, ttl) {
      FlatAt(rooms, k);
      FlatAt(rooms', k);
      if k.0 in rooms && k.1 in Survivors(rooms[k.0], now, ttl) { assert k.0 in rooms'; }
    }
  }

  lemma SweepOneMore(rooms: Rooms, done: set<string>, r: string, now: int, ttl: int)
    requires r in rooms && r !in done
    ensures var users := Survivors(rooms[r], now, ttl);
      var before := SweptRooms(rooms, done, now, ttl);
      SweptRooms(rooms, done + {r}, now, ttl) == if users == map[] then before - {r} else before[r := users]
    ensures var gone := map k | k in (set u | u in rooms[r] && !Live(rooms[r][u], now, ttl) :: (r, u)) :: rooms[r][k.1];
      LapsedEntries(rooms, done + {r}, now, ttl) == LapsedEntries(rooms, done, now, ttl) + gone
  {
  }

  function UsersNamed(keys: set<Key>): set<string> {
    set k | k in keys :: k.1
  }

  function RoomsNamed(keys: set<Key>): set<string> {
    set k | k in keys :: k.0
  }

  function In(room: string, users: set<string>): set<Key> {
    set u | u in users :: (room, u)
  }

  // Counting one more room: its entries are new, its users may not be.
  lemma CountRoom(counted: set<Key>, room: string, users: set<string>)
    requires forall k :: k in counted ==> k.0 != room
    ensures |counted + In(room, users)| == |counted| + |users|
    ensures UsersNamed(counted + In(room, users)) == UsersNamed(counted) + users
    ensures RoomsNamed(counted + In(room, users)) == RoomsNamed(counted) + (if users == {} then {} else {room})
  {
    var added := In(room, users);
    assert counted !! added;
    RenamingKeepsSize(users, added, u => (room, u));
    CountNames(counted, room, users);
  }

  lemma CountNames(counted: set<Key>, room: string, users: set<string>)
    ensures UsersNamed(counted + In(room, users)) == UsersNamed(counted) + users
    ensures RoomsNamed(counted + In(room, users)) == RoomsNamed(counted) + (if users == {} then {} else {room})
  {
    var all := counted + In(room, users);
    forall u | u in users ensures (room, u) in all {
    }
  }

  predicate IsLive(rooms: Rooms, k: Key, now: int, ttl: int) {
    k.0 in rooms && k.1 in rooms[k.0] && Live(rooms[k.0][k.1], now, ttl)
  }

  lemma AllCounted(rooms: Rooms, counted: set<Key>, now: int, ttl: int)
    requires forall k :: k in counted <==> IsLive(rooms, k, now, ttl)
    ensures (|counted|, |UsersNamed(counted)|, |RoomsNamed(counted)|) == P.CountLive(Flat(rooms), now, ttl)
  {
    var live := set k | k in Flat(rooms) && Live(Flat(rooms)[k], now, ttl);
    forall k ensures k in live <==> k in counted {
      FlatAt(rooms, k);
    }
    assert live == counted;
  }

  class MemoryPresenceStore {
    const ttlMs: int
    var rooms: Rooms

    constructor (ttlMs: int)
      ensures this.ttlMs == ttlMs && Presence() == map[]
    {
      this.ttlMs := ttlMs;
      rooms := map[];
    }

    function Presence(): TtlMap
      reads this
    {
      Flat(rooms)
    }

    method SetOnline(room: string, user: string, role: Role, muted: bool, now: int) returns (isNewArrival: bool)
      modifies this
      ensures (Presence(), isNewArrival) == P.SetOnline(old(Presence()), (room, user), role, muted, now, ttlMs)
    {
      var users := if room in rooms then rooms[room] else map[];
      var wasPresent := user in users && Live(users[user], now, ttlMs);
      var hand := if wasPresent then users[user].hand else None;
      RoomOf(rooms, room, user);
      PutMeans(rooms, room, user, Entry(role, muted, now, hand));
      rooms := rooms[room := users[user := Entry(role, muted, now, hand)]];
      return !wasPresent;
    }

    method SetOffline(room: string, user: string)
      modifies this
      ensures Presence() == P.SetOffline(old(Presence()), (room, user))
    {
      if room in rooms {
        DropMeans(rooms, room, user);
        rooms := rooms[room := rooms[room] - {user}];
      } else {
        FlatAt(rooms, (room, user));
      }
    }

    method Heartbeat(room: string, user: string, now: int) returns (refreshed: bool)
      modifies this
      ensures (Presence(), refreshed) == P.Heartbeat(old(Presence()), (room, user), now, ttlMs)
    {
      RoomOf(rooms, room, user);
      if room !in rooms || user !in rooms[room] || !Live(rooms[room][user], now, ttlMs) {
        return false;
      }
      var users := rooms[room];
      PutMeans(rooms, room, user, users[user].(lastSeenMs := now));
      rooms := rooms[room := users[user := users[user].(lastSeenMs := now)]];
      return true;
    }

    method GetMember(room: string, user: string, now: int) returns (member: Option<Entry>)
      ensures member == P.GetMember(Presence(), (room, user), now, ttlMs)
    {
      FlatAt(rooms, (room, user));
      if room in rooms && user in rooms[room] && Live(rooms[room][user], now, ttlMs) {
        return Some(rooms[room][user]);
      }
      return None;
    }

    method GetRoomMembers(room: string, now: int) returns (out: set<(string, Entry)>)
      ensures out == P.RoomMembers(Presence(), room, now, ttlMs)
    {
      out := {};
      if room in rooms {
        var users := rooms[room];
        var left := users.Keys;
        while left != {}
          invariant left <= users.Keys
          invariant forall x :: x in out <==> x.0 in users && x.0 !in left && users[x.0] == x.1 && Live(x.1, now, ttlMs)
          decreases |left|
        {
          var u :| u in left;
          left := left - {u};
          if Live(users[u], now, ttlMs) {
            out := out + {(u, users[u])};
          }
        }
      }
      forall x ensures x in out <==> x in P.RoomMembers(Presence(), room, now, ttlMs) {
        FlatAt(rooms, (room, x.0));
      }
    }

    method GetRoomsForUser(user: string, now: int) returns (out: set<string>)
      ensures out == P.RoomsForUser(Presence(), user, now, ttlMs)
    {
      out := {};
      var left := rooms.Keys;
      while left != {}
        invariant left <= rooms.Keys
        invariant forall r :: r in out <==> r in rooms.Keys - left && user in rooms[r] && Live(rooms[r][user], now, ttlMs)
        decreases |left|
      {
        var r :| r in left;
        left := left - {r};
        if user in rooms[r] && Live(rooms[r][user], now, ttlMs) {
          out := out + {r};
        }
      }
      forall r ensures r in out <==> r in P.RoomsForUser(Presence(), user, now, ttlMs) {
        FlatAt(rooms, (r, user));
      }
    }

    method Patch(room: string, user: string, change: Change, now: int)
      modifies this
      ensures Presence() == P.Patch(old(Presence()), (room, user), change, now)
    {
      RoomOf(rooms, room, user);
      if room !in rooms || user !in rooms[room] {
        return;
      }
      var users := rooms[room];
      var e := users[user];
      var f := Changed(e.role, e.muted, e.hand, change, now);
      PutMeans(rooms, room, user, Entry(f.0, f.1, e.lastSeenMs, f.2));
      rooms := rooms[room := users[user := Entry(f.0, f.1, e.lastSeenMs, f.2)]];
    }

    method GetRaisedHands(room: string, now: int) returns (queue: seq<(string, Entry)>)
      ensures IsHandQueue(queue, P.RoomMembers(Presence(), room, now, ttlMs))
      ensures forall i, j :: 0 <= i < j < |queue| ==> queue[i].1.hand.Some? && queue[j].1.hand.Some? && queue[i].1.hand.value <= queue[j].1.hand.value
    {
      var members := GetRoomMembers(room, now);
      var left := members;
      queue := [];
      while left != {}
        invariant left <= members
        invariant IsHandQueue(queue, members - left)
        decreases |left|
      {
        var x :| x in left;
        assert members - (left - {x}) == members - left + {x};
        if x.1.hand.Some? {
          queue := InsertByHand(queue, x, members - left);
        }
        left := left - {x};
      }
      assert members - left == members;
    }

    method CountLive(now: int) returns (entries: nat, users: nat, liveRooms: nat)
      ensures (entries, users, liveRooms) == P.CountLive(Presence(), now, ttlMs)
    {
      entries := 0;
      var userSet, roomSet := {}, {};
      var left := rooms.Keys;
      ghost var counted: set<Key> := {};
      while left != {}
        invariant left <= rooms.Keys
        invariant forall k :: k in counted <==> IsLive(rooms, k, now, ttlMs) && k.0 !in left
        invariant entries == |counted| && userSet == UsersNamed(counted) && roomSet == RoomsNamed(counted)
        decreases |left|
      {
        var r :| r in left;
        var here := Survivors(rooms[r], now, ttlMs).Keys;
        CountRoom(counted, r, here);
        counted := counted + In(r, here);
        left := left - {r};
        entries := entries + |here|;
        userSet := userSet + here;
        roomSet := roomSet + if here == {} then {} else {r};
      }
      AllCounted(rooms, counted, now, ttlMs);
      return entries, |userSet|, |roomSet|;
    }

    // Visit every room, drop its lapsed entries, and drop the room once nobody is left in it.
    method ReapExpired(now: int) returns (reaped: map<Key, Entry>)
      modifies this
      ensures Presence() == Swept(old(Presence()), Lapsed(old(Presence()), now, ttlMs), now, ttlMs)
      ensures reaped == map k | k in Lapsed(old(Presence()), now, ttlMs) :: old(Presence())[k]
    {
      reaped := map[];
      var left := rooms.Keys;
      ghost var start := rooms;
      while left != {}
        invariant left <= start.Keys
        invariant rooms == SweptRooms(start, start.Keys - left, now, ttlMs)
        invariant reaped == LapsedEntries(start, start.Keys - left, now, ttlMs)
        decreases |left|
      {
        var r :| r in left;
        SweepOneMore(start, start.Keys - left, r, now, ttlMs);
        assert start.Keys - (left - {r}) == start.Keys - left + {r};
        left := left - {r};
        var users := rooms[r];
        reaped := reaped + map k | k in (set u | u in users && !Live(users[u], now, ttlMs) :: (r, u)) :: users[k.1];
        users := Survivors(users, now, ttlMs);
        rooms := if users == map[] then rooms - {r} else rooms[r := users];
      }
      assert start.Keys - left == start.Keys;
      SweptMeans(start, now, ttlMs);
    }
  }
}
