/** The heartbeat use case: refresh the rooms the server knows and the rooms the client claims. */
module Heartbeats {
  import opened Common
  import opened PresenceSpec
  import S = PresenceScripts
  import opened RedisPresence

  const MAX_CLAIMED_ROOMS: nat := 20

  function Capped(claimed: seq<string>): seq<string> {
    if |claimed| <= MAX_CLAIMED_ROOMS then claimed else claimed[..MAX_CLAIMED_ROOMS]
  }

  /**
   * Every candidate room is answered for exactly once: refreshed when the user is live there, stale
   * otherwise. A claim never creates presence, and nobody else's deadline moves.
   */
  method Execute(store: RedisPresenceStore, user: string, claimedRooms: seq<string>, now: int)
    returns (refreshed: set<string>, stale: set<string>)
    requires S.Linked(store.State(), now) && S.Bare(user) && store.ttlMs > 0
    modifies store
    ensures S.Linked(store.State(), now)
    ensures refreshed == RoomsForUser(old(store.Presence()), user, now, store.ttlMs)
    ensures forall room :: room in stale <==> (exists i :: 0 <= i < 20 && i < |claimedRooms| && claimedRooms[i] == room) && room !in refreshed
    ensures store.Presence() == Refreshed(old(store.Presence()), user, refreshed, now)
  {
    var known := store.GetRoomsForUser(user, now);
    refreshed, stale := BeatAll(store, user, known + Elements(Capped(claimedRooms)), now);
    assert (known + Elements(Capped(claimedRooms))) * known == known;
    assert known + Elements(Capped(claimedRooms)) - known == Elements(Capped(claimedRooms)) - known;
  }

  method BeatAll(store: RedisPresenceStore, user: string, candidates: set<string>, now: int)
    returns (refreshed: set<string>, stale: set<string>)
    requires S.Linked(store.State(), now) && S.Bare(user) && store.ttlMs > 0
    modifies store
    ensures S.Linked(store.State(), now)
    ensures var known := RoomsForUser(old(store.Presence()), user, now, store.ttlMs);
      refreshed == candidates * known && stale == candidates - known
    ensures store.Presence() == Refreshed(old(store.Presence()), user, refreshed, now)
  {
    ghost var start := store.Presence();
    ghost var known := RoomsForUser(start, user, now, store.ttlMs);
    assert forall room :: room in known <==> LiveIn(start, room, user, now, store.ttlMs) by {
      forall room | LiveIn(start, room, user, now, store.ttlMs) ensures room in known { assert (room, user).0 == room; }
    }
    var left := candidates;
    refreshed, stale := {}, {};
    NoneRefreshed(start, user, now);
    while left != {}
      invariant left <= candidates
      invariant S.Linked(store.State(), now)
      invariant forall r :: r in refreshed <==> r in candidates && r !in left && r in known
      invariant forall r :: r in stale <==> r in candidates && r !in left && r !in known
      invariant store.Presence() == Refreshed(start, user, refreshed, now)
      decreases |left|
    {
      var room :| room in left;
      var alive := BeatOne(store, room, user, now, start, refreshed);
      left := left - {room};
      if alive {
        refreshed := refreshed + {room};
      } else {
        stale := stale + {room};
      }
    }
  }

  lemma NoneRefreshed(m: TtlMap, user: string, now: int)
    ensures Refreshed(m, user, {}, now) == m
  {
  }

  function Refreshed(m: TtlMap, user: string, rooms: set<string>, now: int): TtlMap {
    map k | k in m :: if k.1 == user && k.0 in rooms then m[k].(lastSeenMs := now) else m[k]
  }

  predicate LiveIn(m: TtlMap, room: string, user: string, now: int, ttl: int) {
    (room, user) in m && Live(m[(room, user)], now, ttl)
  }

  // Beating one more room refreshes it exactly when the user was live there to begin with.
  method BeatOne(store: RedisPresenceStore, room: string, user: string, now: int, ghost start: TtlMap, ghost done: set<string>)
    returns (alive: bool)
    requires S.Linked(store.State(), now) && S.Bare(user) && store.ttlMs > 0
    requires room !in done && store.Presence() == Refreshed(start, user, done, now)
    modifies store
    ensures S.Linked(store.State(), now)
    ensures alive <==> LiveIn(start, room, user, now, store.ttlMs)
    ensures store.Presence() == Refreshed(start, user, if alive then done + {room} else done, now)
  {
    RefreshOneMore(start, room, user, done, now, store.ttlMs);
    alive := store.Heartbeat(room, user, now);
  }

  lemma RefreshOneMore(start: TtlMap, room: string, user: string, done: set<string>, now: int, ttl: int)
    requires room !in done
    ensures Heartbeat(Refreshed(start, user, done, now), (room, user), now, ttl) ==
      if LiveIn(start, room, user, now, ttl) then (Refreshed(start, user, done + {room}, now), true) else (Refreshed(start, user, done, now), false)
  {
    var before := Refreshed(start, user, done, now);
    if LiveIn(start, room, user, now, ttl) {
      assert Refreshed(start, user, done + {room}, now) == before[(room, user) := before[(room, user)].(lastSeenMs := now)];
    }
  }
}
