/**
 * The in-memory room repository: the rooms with their schedules, and every membership row ever written;
 * and the two use cases that work through it, the scheduled sweep and the departure.
 */
module MemoryRooms {
  import opened Common
  import M = Memberships
  import S = Schedules

  class MemoryRoomRepository {
    var rooms: S.Rooms
    var members: M.Members

    constructor ()
      ensures rooms == map[] && members == map[]
    {
      rooms, members := map[], map[];
    }

    // ---- membership ----

    method RecordJoin(room: M.RoomId, row: M.Member)
      modifies this`members
      ensures members == M.RecordJoin(old(members), room, row)
    {
      var rows := M.RowsOf(members, room);
      var open := FirstOpen(rows, row.user);
      if open.Some? {
        rows := rows[open.value := rows[open.value].(role := row.role, muted := row.muted)];
      } else {
        rows := rows + [row.(leftAt := None)];
      }
      members := members[room := rows];
    }

    method RecordLeave(room: M.RoomId, user: M.UserId, leftAt: int) returns (closed: bool)
      modifies this`members
      ensures (members, closed) == M.RecordLeave(old(members), room, user, leftAt)
    {
      var rows := M.RowsOf(members, room);
      var open := FirstOpen(rows, user);
      if open.None? {
        return false;
      }
      members := members[room := rows[open.value := rows[open.value].(leftAt := Some(leftAt))]];
      return true;
    }

    method FindMembership(room: M.RoomId, user: M.UserId) returns (row: Option<M.Member>)
      ensures row == M.FindMembership(members, room, user)
    {
      var rows := M.RowsOf(members, room);
      var open := FirstOpen(rows, user);
      return if open.Some? then Some(rows[open.value]) else None;
    }

    // Whether sessions of both users overlap in any room.
    method HaveSharedRoomSession(a: M.UserId, b: M.UserId) returns (shared: bool)
      ensures shared <==> M.HaveShared(members, a, b)
    {
      if a == b {
        return false;
      }
      var left := members.Keys;
      while left != {}
        invariant left <= members.Keys
        invariant forall room :: room in members && room !in left ==> !M.Shared(members[room], a, b)
        decreases |left|
      {
        var room :| room in left;
        var met := MetIn(members[room], a, b);
        if met {
          return true;
        }
        left := left - {room};
      }
      return false;
    }

    // ---- scheduling ----

    method ListDueSchedules(now: int, limit: nat) returns (list: seq<S.RoomId>)
      ensures S.IsDueList(rooms, now, limit, list)
    {
      list := [];
      var left := S.Due(rooms, now);
      while left != {} && |list| < limit
        invariant forall id :: id in S.Due(rooms, now) <==> id in left || id in list
        invariant forall id :: id in list ==> id !in left
        invariant forall i, j :: 0 <= i < j < |list| ==> list[i] != list[j] && S.DueTime(rooms, list[i]) <= S.DueTime(rooms, list[j])
        invariant forall id, i :: id in left && 0 <= i < |list| ==> S.DueTime(rooms, list[i]) <= S.DueTime(rooms, id)
        invariant |left| + |list| == |S.Due(rooms, now)| && |list| <= limit
        decreases |left|
      {
        var first := Earliest(left);
        list := list + [first];
        left := left - {first};
      }
    }

    method Earliest(ids: set<S.RoomId>) returns (first: S.RoomId)
      requires ids != {}
      ensures first in ids && forall id :: id in ids ==> S.DueTime(rooms, first) <= S.DueTime(rooms, id)
    {
      first :| first in ids;
      var left := ids - {first};
      while left != {}
        invariant left <= ids && first in ids && first !in left
        invariant forall id :: id in ids && id !in left ==> S.DueTime(rooms, first) <= S.DueTime(rooms, id)
        decreases |left|
      {
        var id :| id in left;
        left := left - {id};
        if S.DueTime(rooms, id) < S.DueTime(rooms, first) {
          first := id;
        }
      }
    }

    method ClaimOccurrence(id: S.RoomId, now: int, next: int, openedAt: int) returns (claimed: bool)
      modifies this`rooms
      ensures (rooms, claimed) == S.Claim(old(rooms), id, now, next, openedAt)
    {
      if id !in rooms {
        return false;
      }
      var existing := rooms[id];
      if !existing.isScheduled {
        return false;
      }
      if existing.next.None? {
        return false;
      }
      if existing.next.value > now {
        return false;
      }
      if existing.lastOpened.Some? && existing.lastOpened.value >= existing.next.value {
        return false;
      }
      rooms := rooms[id := existing.(next := Some(next), lastOpened := Some(openedAt), status := S.Running)];
      return true;
    }

    method DisableSchedule(id: S.RoomId)
      modifies this`rooms
      ensures rooms == S.Disable(old(rooms), id)
    {
      if id in rooms {
        rooms := rooms[id := rooms[id].(isScheduled := false, next := None)];
      }
    }
  }

  method FirstOpen(rows: seq<M.Member>, user: M.UserId) returns (i: Option<nat>)
    ensures i == M.FindOpen(rows, user)
  {
    for k := 0 to |rows|
      invariant forall j :: 0 <= j < k ==> !M.IsOpenOf(rows[j], user)
    {
      if M.IsOpenOf(rows[k], user) {
        return Some(k);
      }
    }
    return None;
  }

  method MetIn(rows: seq<M.Member>, a: M.UserId, b: M.UserId) returns (met: bool)
    ensures met <==> M.Shared(rows, a, b)
  {
    for i := 0 to |rows|
      invariant forall k, j :: 0 <= k < i && 0 <= j < |rows| && rows[k].user == a && rows[j].user == b ==> !M.Overlap(rows[k], rows[j])
    {
      if rows[i].user == a {
        for j := 0 to |rows|
          invariant forall l :: 0 <= l < j && rows[l].user == b ==> !M.Overlap(rows[i], rows[l])
        {
          if rows[j].user == b && M.Overlap(rows[i], rows[j]) {
            return true;
          }
        }
      }
    }
    return false;
  }

  // ---- the scheduled sweep ----

  class OpenScheduledRooms {
    const repository: MemoryRoomRepository
    const calendar: S.Calendar

    constructor (repository: MemoryRoomRepository, calendar: S.Calendar)
      ensures this.repository == repository && this.calendar == calendar
    {
      this.repository, this.calendar := repository, calendar;
    }

    // Each listed room is opened or disabled as it was when listed; undisturbed, no claim is lost.
    method Execute(now: int) returns (openedNow: nat, claimedByAnother: nat, disabled: nat, ghost list: seq<S.RoomId>)
      modifies repository
      ensures S.IsDueList(old(repository.rooms), now, S.MAX_PER_SWEEP, list)
      ensures repository.rooms == S.OpenAll(old(repository.rooms), S.Listed(old(repository.rooms), list), calendar, now)
      ensures repository.members == old(repository.members)
      ensures openedNow == |Meeting(old(repository.rooms), list, calendar, now, Opened)|
      ensures claimedByAnother == |Meeting(old(repository.rooms), list, calendar, now, Lost)|
      ensures disabled == |Meeting(old(repository.rooms), list, calendar, now, Disabled)|
      ensures openedNow + claimedByAnother + disabled == |list|
      ensures S.NoneStuck(old(repository.rooms), calendar, now) ==>
        claimedByAnother == 0 && repository.rooms == S.Sweep(old(repository.rooms), Elements(list), calendar, now)
    {
      var due := repository.ListDueSchedules(now, S.MAX_PER_SWEEP);
      list := due;
      ghost var start := repository.rooms;
      openedNow, claimedByAnother, disabled := OpenListed(due, now);
      if S.NoneStuck(start, calendar, now) {
        S.SweptSettles(start, due, calendar, now);
        NoneIsLost(start, due, calendar, now);
      }
    }

    method OpenListed(due: seq<S.RoomId>, now: int) returns (openedNow: nat, claimedByAnother: nat, disabled: nat)
      requires S.IsDueList(repository.rooms, now, S.MAX_PER_SWEEP, due)
      modifies repository`rooms
      ensures repository.rooms == S.OpenAll(old(repository.rooms), S.Listed(old(repository.rooms), due), calendar, now)
      ensures IsTallied(old(repository.rooms), due, calendar, now, openedNow, claimedByAnother, disabled)
    {
      openedNow, claimedByAnother, disabled := 0, 0, 0;
      ghost var start := repository.rooms;
      var listed := S.Listed(repository.rooms, due);
      S.ListedAsRead(start, due);
      for i := 0 to |listed|
        invariant repository.rooms == S.OpenAll(start, listed[..i], calendar, now)
        invariant IsTallied(start, due[..i], calendar, now, openedNow, claimedByAnother, disabled)
      {
        ghost var before := repository.rooms;
        var outcome := OpenOne(listed[i].0, listed[i].1, now);
        S.OpenAllGrows(start, listed, i, calendar, now);
        TurnIsTallied(start, due, i, before, calendar, now, outcome, openedNow, claimedByAnother, disabled);
        openedNow := Tally(openedNow, outcome == Opened);
        claimedByAnother := Tally(claimedByAnother, outcome == Lost);
        disabled := Tally(disabled, outcome == Disabled);
      }
      assert listed[..|listed|] == listed && due[..|due|] == due;
    }

    method OpenOne(id: S.RoomId, room: S.Room, now: int) returns (outcome: OpenOutcome)
      modifies repository`rooms
      ensures repository.rooms == S.OpenOne(S.World(old(repository.rooms), map[], []), id, room, calendar, now).rooms
      ensures outcome == Disabled <==> S.NextOf(room, calendar, now).None?
      ensures S.NextOf(room, calendar, now).Some? ==>
        (outcome == Opened <==> id in old(repository.rooms) && S.CanClaim(old(repository.rooms)[id], now))
    {
      if room.cron.None? {
        repository.DisableSchedule(id);
        return Disabled;
      }
      var next := calendar.NextOccurrence(room.cron.value, now);
      if next.None? {
        repository.DisableSchedule(id);
        return Disabled;
      }
      var claimed := repository.ClaimOccurrence(id, now, next.value, now);
      return if claimed then Opened else Lost;
    }
  }

  // What becomes of a due room: closed for good if its schedule has nothing more to come, lost if it was opened for this occurrence already.
  function Fate(r: S.Room, cal: S.Calendar, now: int): OpenOutcome {
    if r.cron.None? || cal.NextOccurrence(r.cron.value, now).None? then Disabled
    else if r.next.Some? && r.lastOpened.Some? && r.next.value <= r.lastOpened.value then Lost
    else Opened
  }

  // The places in the list of the rooms that meet this fate.
  ghost function Meeting(rooms: S.Rooms, list: seq<S.RoomId>, cal: S.Calendar, now: int, fate: OpenOutcome): set<nat> {
    set i: nat | i < |list| && list[i] in rooms && Fate(rooms[list[i]], cal, now) == fate
  }

  ghost predicate IsTallied(rooms: S.Rooms, list: seq<S.RoomId>, cal: S.Calendar, now: int, openedNow: nat, lost: nat, disabled: nat) {
    && openedNow == |Meeting(rooms, list, cal, now, Opened)|
    && lost == |Meeting(rooms, list, cal, now, Lost)|
    && disabled == |Meeting(rooms, list, cal, now, Disabled)|
    && openedNow + lost + disabled == |list|
  }

  lemma TallyOneMore(rooms: S.Rooms, list: seq<S.RoomId>, i: nat, cal: S.Calendar, now: int, fate: OpenOutcome, openedNow: nat, lost: nat, disabled: nat)
    requires i < |list| && list[i] in rooms && Fate(rooms[list[i]], cal, now) == fate
    requires IsTallied(rooms, list[..i], cal, now, openedNow, lost, disabled)
    ensures IsTallied(rooms, list[..i + 1], cal, now,
      Tally(openedNow, fate == Opened), Tally(lost, fate == Lost), Tally(disabled, fate == Disabled))
  {
    OneMoreMeets(rooms, list, i, cal, now, Opened);
    OneMoreMeets(rooms, list, i, cal, now, Lost);
    OneMoreMeets(rooms, list, i, cal, now, Disabled);
  }

  lemma TurnIsTallied(rooms: S.Rooms, list: seq<S.RoomId>, i: nat, before: S.Rooms, cal: S.Calendar, now: int, outcome: OpenOutcome,
      openedNow: nat, lost: nat, disabled: nat)
    requires S.IsDueList(rooms, now, S.MAX_PER_SWEEP, list) && i < |list| == |S.Listed(rooms, list)|
    requires before == S.OpenAll(rooms, S.Listed(rooms, list)[..i], cal, now)
    requires outcome == Disabled <==> S.NextOf(S.Listed(rooms, list)[i].1, cal, now).None?
    requires S.NextOf(S.Listed(rooms, list)[i].1, cal, now).Some? ==> (outcome == Opened <==> list[i] in before && S.CanClaim(before[list[i]], now))
    requires IsTallied(rooms, list[..i], cal, now, openedNow, lost, disabled)
    ensures IsTallied(rooms, list[..i + 1], cal, now,
      Tally(openedNow, outcome == Opened), Tally(lost, outcome == Lost), Tally(disabled, outcome == Disabled))
  {
    S.ListedAsRead(rooms, list);
    StillAsListed(rooms, list, i, cal, now);
    assert Fate(rooms[list[i]], cal, now) == outcome;
    TallyOneMore(rooms, list, i, cal, now, outcome, openedNow, lost, disabled);
  }

  lemma NoneIsLost(rooms: S.Rooms, list: seq<S.RoomId>, cal: S.Calendar, now: int)
    requires S.NoneStuck(rooms, cal, now) && S.IsDueList(rooms, now, S.MAX_PER_SWEEP, list)
    ensures |Meeting(rooms, list, cal, now, Lost)| == 0
  {
    assert Meeting(rooms, list, cal, now, Lost) == {};
  }

  lemma OneMoreMeets(rooms: S.Rooms, list: seq<S.RoomId>, i: nat, cal: S.Calendar, now: int, fate: OpenOutcome)
    requires i < |list| && list[i] in rooms
    ensures |Meeting(rooms, list[..i + 1], cal, now, fate)| ==
      |Meeting(rooms, list[..i], cal, now, fate)| + (if Fate(rooms[list[i]], cal, now) == fate then 1 else 0)
  {
    var before := Meeting(rooms, list[..i], cal, now, fate);
    assert Meeting(rooms, list[..i + 1], cal, now, fate) == if Fate(rooms[list[i]], cal, now) == fate then before + {i} else before;
  }

  // A listed room is as it was listed when its turn comes: no room is listed twice.
  lemma {:induction false} StillAsListed(rooms: S.Rooms, list: seq<S.RoomId>, i: nat, cal: S.Calendar, now: int)
    requires S.IsDueList(rooms, now, S.MAX_PER_SWEEP, list) && i < |list|
    ensures |S.Listed(rooms, list)| == |list|
    ensures var rooms' := S.OpenAll(rooms, S.Listed(rooms, list)[..i], cal, now); list[i] in rooms' && rooms'[list[i]] == rooms[list[i]]
  {
    S.ListedAsRead(rooms, list);
    Untouched(rooms, S.Listed(rooms, list)[..i], list[i], cal, now);
  }

  lemma {:induction false} Untouched(rooms: S.Rooms, listed: seq<(S.RoomId, S.Room)>, id: S.RoomId, cal: S.Calendar, now: int)
    requires id in rooms && forall i :: 0 <= i < |listed| ==> listed[i].0 != id
    ensures var rooms' := S.OpenAll(rooms, listed, cal, now); id in rooms' && rooms'[id] == rooms[id]
    decreases |listed|
  {
    if listed != [] { Untouched(rooms, listed[..|listed| - 1], id, cal, now); }
  }

  function Tally(n: nat, hit: bool): nat {
    if hit then n + 1 else n
  }

  datatype OpenOutcome = Opened | Lost | Disabled
}
