/**
 * The Postgres room repository: guarded statements over the membership table and the rooms. The unique
 * index over open rows makes them the operations of the in-memory repository.
 */
module PostgresRooms {
  import opened Common
  import opened Memberships
  import S = Schedules

  // Closing is one guarded update: it touches every row of the user in the room that is still open.
  function CloseWhereOpen(rows: seq<Member>, user: UserId, at: int): seq<Member> {
    seq(|rows|, i requires 0 <= i < |rows| => if IsOpenOf(rows[i], user) then rows[i].(leftAt := Some(at)) else rows[i])
  }

  predicate AnyOpen(rows: seq<Member>, user: UserId) {
    exists i :: 0 <= i < |rows| && IsOpenOf(rows[i], user)
  }

  // Joining is one upsert over the unique index of open rows: on a conflict the open row gets the new role and mute.
  function Upsert(rows: seq<Member>, row: Member): seq<Member> {
    if AnyOpen(rows, row.user)
    then seq(|rows|, i requires 0 <= i < |rows| => if IsOpenOf(rows[i], row.user) then rows[i].(role := row.role, muted := row.muted) else rows[i])
    else rows + [row.(leftAt := None)]
  }

  /** With at most one open row for each user, the statements do to a room what the in-memory repository does. */
  lemma StatementsAgree(m: Members, room: RoomId, row: Member, at: int)
    requires OneOpenEach(RowsOf(m, room))
    ensures RecordJoin(m, room, row) == m[room := Upsert(RowsOf(m, room), row)]
    ensures RecordLeave(m, room, row.user, at).1 == AnyOpen(RowsOf(m, room), row.user)
    ensures RowsOf(RecordLeave(m, room, row.user, at).0, room) == CloseWhereOpen(RowsOf(m, room), row.user, at)
  {
    var rows := RowsOf(m, room);
    var i := FindOpen(rows, row.user);
    if i.Some? {
      assert IsOpenOf(rows[i.value], row.user);
      forall j | 0 <= j < |rows| && IsOpenOf(rows[j], row.user) ensures j == i.value {
      }
      assert rows[i.value := rows[i.value].(leftAt := Some(at))] == CloseWhereOpen(rows, row.user, at);
      assert rows[i.value := rows[i.value].(role := row.role, muted := row.muted)] == Upsert(rows, row);
    } else {
      assert CloseWhereOpen(rows, row.user, at) == rows;
    }
  }

  /** And they keep the index unviolated. */
  lemma StatementsKeepIndex(rows: seq<Member>, row: Member, at: int)
    requires OneOpenEach(rows)
    ensures OneOpenEach(Upsert(rows, row)) && OneOpenEach(CloseWhereOpen(rows, row.user, at))
  {
  }

  class PostgresRoomRepository {
    var members: Members
    var rooms: S.Rooms

    constructor ()
      ensures members == map[] && rooms == map[]
    {
      members, rooms := map[], map[];
    }

    method RecordJoin(room: RoomId, row: Member)
      requires AtMostOneOpen(members)
      modifies this`members
      ensures members == Memberships.RecordJoin(old(members), room, row) && AtMostOneOpen(members)
    {
      StatementsAgree(members, room, row, 0);
      StatementsKeepIndex(RowsOf(members, room), row, 0);
      members := members[room := Upsert(RowsOf(members, room), row)];
    }

    method RecordLeave(room: RoomId, user: UserId, leftAt: int) returns (closed: bool)
      requires AtMostOneOpen(members)
      modifies this`members
      ensures (members, closed) == Memberships.RecordLeave(old(members), room, user, leftAt) && AtMostOneOpen(members)
    {
      var row := Member(user, 0, false, 0, None);
      StatementsAgree(members, room, row, leftAt);
      StatementsKeepIndex(RowsOf(members, room), row, leftAt);
      closed := AnyOpen(RowsOf(members, room), user);
      if closed {
        members := members[room := CloseWhereOpen(RowsOf(members, room), user, leftAt)];
      }
    }

    method ClaimOccurrence(id: S.RoomId, now: int, next: int, openedAt: int) returns (claimed: bool)
      modifies this`rooms
      ensures (rooms, claimed) == S.Claim(old(rooms), id, now, next, openedAt)
    {
      claimed := false;
      if id in rooms {
        var r := rooms[id];
        if r.isScheduled && r.next.Some? && r.next.value <= now && (r.lastOpened.None? || r.lastOpened.value < r.next.value) {
          rooms := rooms[id := r.(next := Some(next), lastOpened := Some(openedAt), status := S.Running)];
          claimed := true;
        }
      }
    }
  }
}
