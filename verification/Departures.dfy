/**
 * Leaving a room. Four routes lead here, often two at once for one departure; closing the membership row
 * decides which of them announces it and credits the session.
 */
module Departures {
  import opened Common
  import opened Memberships
  import opened MemoryRooms

  // (room, user)
  type Seat = (RoomId, UserId)

  datatype Reason = Voluntary | Disconnected | Reaped | Kicked | Banned

  const MIN_SESSION_MS := 60_000

  predicate IsCredited(reason: Reason) {
    reason == Voluntary || reason == Disconnected || reason == Reaped
  }

  // Whether a session that began at `joinedAt` earns credit when left at `now`.
  predicate EarnsCredit(reason: Reason, joinedAt: Option<int>, now: int) {
    IsCredited(reason) && joinedAt.Some? && now - joinedAt.value >= MIN_SESSION_MS
  }

  // ---- one departure at a time ----

  datatype Ledger = Ledger(members: Members, broadcasts: seq<Seat>, credits: seq<Seat>)

  function JoinedAt(row: Option<Member>): Option<int> {
    if row.Some? then Some(row.value.joinedAt) else None
  }

  function Depart(l: Ledger, seat: Seat, reason: Reason, now: int): Ledger {
    var joinedAt := JoinedAt(FindMembership(l.members, seat.0, seat.1));
    var (members, closed) := RecordLeave(l.members, seat.0, seat.1, now);
    if !closed then l
    else Ledger(members, l.broadcasts + [seat], if EarnsCredit(reason, joinedAt, now) then l.credits + [seat] else l.credits)
  }

  function DepartAll(l: Ledger, seats: seq<Seat>, now: int): Ledger
    decreases |seats|
  {
    if seats == [] then l else Depart(DepartAll(l, seats[..|seats| - 1], now), seats[|seats| - 1], Reaped, now)
  }

  class LeaveRoom {
    const repository: MemoryRoomRepository
    var broadcasts: seq<Seat>
    var credits: seq<Seat>

    constructor (repository: MemoryRoomRepository)
      ensures this.repository == repository && broadcasts == credits == []
    {
      this.repository := repository;
      broadcasts, credits := [], [];
    }

    function State(): Ledger
      reads this, repository
    {
      Ledger(repository.members, broadcasts, credits)
    }

    method Execute(seat: Seat, reason: Reason, now: int)
      modifies this, repository`members
      ensures State() == Depart(old(State()), seat, reason, now)
    {
      var membership := repository.FindMembership(seat.0, seat.1);
      var closedByThisCall := repository.RecordLeave(seat.0, seat.1, now);
      if !closedByThisCall {
        return;
      }
      broadcasts := broadcasts + [seat];
      if EarnsCredit(reason, JoinedAt(membership), now) {
        credits := credits + [seat];
      }
    }
  }

  class PresenceReaper {
    const leaveRoom: LeaveRoom
    var running: bool

    constructor (leaveRoom: LeaveRoom)
      ensures this.leaveRoom == leaveRoom && !running
    {
      this.leaveRoom, running := leaveRoom, false;
    }

    // A sweep, given what presence has just reaped. A sweep already running makes this one do nothing.
    method Sweep(reaped: seq<Seat>, now: int)
      modifies this, leaveRoom, leaveRoom.repository`members
      ensures running == old(running)
      ensures leaveRoom.State() == if old(running) then old(leaveRoom.State()) else DepartAll(old(leaveRoom.State()), reaped, now)
    {
      if running {
        return;
      }
      running := true;
      ghost var start := leaveRoom.State();
      for i := 0 to |reaped|
        invariant running && leaveRoom.State() == DepartAll(start, reaped[..i], now)
      {
        assert reaped[..i + 1][..i] == reaped[..i];
        leaveRoom.Execute(reaped[i], Reaped, now);
      }
      assert reaped[..|reaped|] == reaped;
      running := false;
    }
  }

  /**
   * A departure that finds no open row changes nothing. Any other closes the row, announces the departure, and
   * credits the session exactly if it was left by the user, by a lost connection or by a sweep, and had lasted a
   * minute.
   */
  lemma DepartEffects(l: Ledger, seat: Seat, reason: Reason, now: int)
    ensures var l', row := Depart(l, seat, reason, now), FindMembership(l.members, seat.0, seat.1);
      && (row.None? ==> l' == l)
      && (row.Some? ==>
        var credited := (reason == Voluntary || reason == Disconnected || reason == Reaped) && now - row.value.joinedAt >= 60_000;
        && l'.members == RecordLeave(l.members, seat.0, seat.1, now).0
        && l'.broadcasts == l.broadcasts + [seat]
        && l'.credits == l.credits + if credited then [seat] else [])
  {
    assert l.credits + [] == l.credits;
  }

  function Announced(broadcasts: seq<Seat>, seat: Seat): set<nat> {
    set i: nat | i < |broadcasts| && broadcasts[i] == seat
  }

  predicate HasOpen(m: Members, seat: Seat) {
    FindOpen(RowsOf(m, seat.0), seat.1).Some?
  }

  /** A sweep announces each reaped member once if the row was open, however often it is listed, and nobody else. */
  lemma {:induction false} SweepAnnouncesOnce(l: Ledger, seats: seq<Seat>, now: int, seat: Seat)
    requires AtMostOneOpen(l.members)
    ensures var l' := DepartAll(l, seats, now);
      && AtMostOneOpen(l'.members)
      && HasOpen(l'.members, seat) == (HasOpen(l.members, seat) && seat !in seats)
      && |Announced(l'.broadcasts, seat)| == |Announced(l.broadcasts, seat)| + (if HasOpen(l.members, seat) && seat in seats then 1 else 0)
    decreases |seats|
  {
    if seats != [] {
      var front, last := seats[..|seats| - 1], seats[|seats| - 1];
      SweepAnnouncesOnce(l, front, now, seat);
      assert seats == front + [last];
      DepartAnnounces(DepartAll(l, front, now), last, Reaped, now, seat);
    }
  }

  /** And credits each whose open session had lasted a minute, once, and nobody else. */
  lemma {:induction false} SweepCreditsOnce(l: Ledger, seats: seq<Seat>, now: int, seat: Seat)
    requires AtMostOneOpen(l.members)
    ensures var l', row := DepartAll(l, seats, now), FindMembership(l.members, seat.0, seat.1);
      && |Announced(l'.credits, seat)| ==
        |Announced(l.credits, seat)| + (if seat in seats && row.Some? && now - row.value.joinedAt >= 60_000 then 1 else 0)
      && (seat !in seats ==> FindMembership(l'.members, seat.0, seat.1) == row)
    decreases |seats|
  {
    if seats != [] {
      var front, last := seats[..|seats| - 1], seats[|seats| - 1];
      var before := DepartAll(l, front, now);
      SweepCreditsOnce(l, front, now, seat);
      SweepAnnouncesOnce(l, front, now, seat);
      assert seats == front + [last];
      DepartEffects(before, last, Reaped, now);
      AppendAnnounces(before.credits, last, seat);
      assert before.credits + [] == before.credits;
      if last != seat { OthersKeepTheirRow(before, last, seat, now); }
    }
  }

  lemma OthersKeepTheirRow(l: Ledger, seat: Seat, other: Seat, now: int)
    requires other != seat
    ensures FindMembership(Depart(l, seat, Reaped, now).members, other.0, other.1) == FindMembership(l.members, other.0, other.1)
  {
    var rows, i := RowsOf(l.members, seat.0), FindOpen(RowsOf(l.members, seat.0), seat.1);
    if i.Some? && other.0 == seat.0 {
      SameFirstOpen(rows, rows[i.value := rows[i.value].(leftAt := Some(now))], other.1);
    }
  }

  lemma SameFirstOpen(rows: seq<Member>, rows': seq<Member>, user: UserId)
    requires |rows| == |rows'| && forall i :: 0 <= i < |rows| ==> (rows[i] == rows'[i] || (rows[i].user != user && rows'[i].user != user))
    ensures FindOpen(rows, user) == FindOpen(rows', user)
    ensures var i := FindOpen(rows, user); i.Some? ==> rows[i.value] == rows'[i.value]
  {
    var i, j := FindOpen(rows, user), FindOpen(rows', user);
    assert i.Some? ==> IsOpenOf(rows'[i.value], user);
    assert j.Some? ==> IsOpenOf(rows[j.value], user);
  }

  lemma DepartAnnounces(l: Ledger, seat: Seat, reason: Reason, now: int, other: Seat)
    requires AtMostOneOpen(l.members)
    ensures var l' := Depart(l, seat, reason, now);
      && AtMostOneOpen(l'.members)
      && HasOpen(l'.members, other) == (HasOpen(l.members, other) && other != seat)
      && |Announced(l'.broadcasts, other)| == |Announced(l.broadcasts, other)| + (if HasOpen(l.members, seat) && other == seat then 1 else 0)
  {
    AppendAnnounces(l.broadcasts, seat, other);
    if HasOpen(l.members, seat) {
      CloseRow(RowsOf(l.members, seat.0), seat.1, now);
    }
  }

  lemma AppendAnnounces(broadcasts: seq<Seat>, seat: Seat, other: Seat)
    ensures |Announced(broadcasts + [seat], other)| == |Announced(broadcasts, other)| + (if other == seat then 1 else 0)
  {
    var more := broadcasts + [seat];
    assert forall i: nat :: i < |broadcasts| ==> more[i] == broadcasts[i];
    assert Announced(more, other) == Announced(broadcasts, other) + (if other == seat then {|broadcasts|} else {});
  }

  // Closing a user's only open row leaves that user none, and the others theirs.
  lemma CloseRow(rows: seq<Member>, user: UserId, now: int)
    requires OneOpenEach(rows) && FindOpen(rows, user).Some?
    ensures var i := FindOpen(rows, user).value;
      var rows' := rows[i := rows[i].(leftAt := Some(now))];
      && OneOpenEach(rows') && FindOpen(rows', user).None?
      && forall u :: u != user ==> FindOpen(rows', u).Some? == FindOpen(rows, u).Some?
  {
    var i := FindOpen(rows, user).value;
    var rows' := rows[i := rows[i].(leftAt := Some(now))];
    assert FindOpen(rows', user).None?;
    forall u | u != user ensures FindOpen(rows', u).Some? == FindOpen(rows, u).Some? {
      assert forall j :: 0 <= j < |rows| ==> (IsOpenOf(rows'[j], u) <==> IsOpenOf(rows[j], u));
    }
  }
}
