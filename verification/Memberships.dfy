/**
 * The durable record of who was in which room and when, and the question asked of it before two users
 * may message each other: were they ever in the same room at the same time?
 */
module Memberships {
  import opened Common

  // Random identifiers, of which only equality matters.
  type RoomId = nat
  type UserId = nat

  datatype Member = Member(user: UserId, role: nat, muted: bool, joinedAt: int, leftAt: Option<int>)

  // The rows of each room, in order of insertion.
  type Members = map<RoomId, seq<Member>>

  predicate IsOpenOf(row: Member, user: UserId) {
    row.user == user && row.leftAt.None?
  }

  function RowsOf(m: Members, room: RoomId): seq<Member> {
    if room in m then m[room] else []
  }

  // The first open row of a user.
  function FindOpen(rows: seq<Member>, user: UserId): (r: Option<nat>)
    ensures r.Some? ==> r.value < |rows| && IsOpenOf(rows[r.value], user) && forall i :: 0 <= i < r.value ==> !IsOpenOf(rows[i], user)
    ensures r.None? ==> forall i :: 0 <= i < |rows| ==> !IsOpenOf(rows[i], user)
    decreases |rows|
  {
    if rows == [] then None
    else if IsOpenOf(rows[0], user) then Some(0)
    else
      var r := FindOpen(rows[1..], user);
      assert forall i :: 0 < i < |rows| ==> rows[i] == rows[1..][i - 1];
      if r.Some? then Some(r.value + 1) else None
  }

  function FindMembership(m: Members, room: RoomId, user: UserId): Option<Member> {
    var i := FindOpen(RowsOf(m, room), user);
    if i.Some? then Some(RowsOf(m, room)[i.value]) else None
  }

  // An arrival opens a row, unless one is open: that one gets the new role and mute, and keeps its start.
  function Admitting(rows: seq<Member>, row: Member): seq<Member> {
    var i := FindOpen(rows, row.user);
    if i.Some? then rows[i.value := rows[i.value].(role := row.role, muted := row.muted)] else rows + [row.(leftAt := None)]
  }

  function RecordJoin(m: Members, room: RoomId, row: Member): Members {
    m[room := Admitting(RowsOf(m, room), row)]
  }

  function RecordLeave(m: Members, room: RoomId, user: UserId, at: int): (Members, bool) {
    var rows, i := RowsOf(m, room), FindOpen(RowsOf(m, room), user);
    if i.Some? then (m[room := rows[i.value := rows[i.value].(leftAt := Some(at))]], true) else (m, false)
  }

  // The unique index over open rows: at most one for each user of a room.
  ghost predicate OneOpenEach(rows: seq<Member>) {
    forall i, j :: 0 <= i < j < |rows| && rows[i].leftAt.None? && rows[j].leftAt.None? ==> rows[i].user != rows[j].user
  }

  ghost predicate AtMostOneOpen(m: Members) {
    forall room :: room in m ==> OneOpenEach(m[room])
  }

  // ---- overlap ----

  predicate StartsBeforeEnd(x: Member, y: Member) {
    y.leftAt.None? || x.joinedAt < y.leftAt.value
  }

  predicate Overlap(x: Member, y: Member) {
    StartsBeforeEnd(x, y) && StartsBeforeEnd(y, x)
  }

  ghost predicate Shared(rows: seq<Member>, a: UserId, b: UserId) {
    exists i, j :: 0 <= i < |rows| && 0 <= j < |rows| && rows[i].user == a && rows[j].user == b && Overlap(rows[i], rows[j])
  }

  ghost predicate HaveShared(m: Members, a: UserId, b: UserId) {
    a != b && exists room :: room in m && Shared(m[room], a, b)
  }

  // A session is the half-open interval from joining to leaving; an open one has no end.
  predicate During(x: Member, t: int) {
    x.joinedAt <= t && (x.leftAt.None? || t < x.leftAt.value)
  }

  ghost predicate HaveCommonInstant(x: Member, y: Member) {
    exists t :: During(x, t) && During(y, t)
  }

  predicate IsEmpty(x: Member) {
    x.leftAt == Some(x.joinedAt)
  }

  predicate StrictlyInside(x: Member, y: Member) {
    y.joinedAt < x.joinedAt && (y.leftAt.None? || x.joinedAt < y.leftAt.value)
  }

  /**
   * The comparison of ends finds exactly the sessions that have an instant in common, except for a session
   * of no duration strictly within another: it has no instant, and is taken for a meeting.
   */
  lemma OverlapIsCommonInstant(x: Member, y: Member)
    requires x.leftAt.Some? ==> x.joinedAt <= x.leftAt.value
    requires y.leftAt.Some? ==> y.joinedAt <= y.leftAt.value
    ensures (Overlap(x, y) <==> HaveCommonInstant(x, y)) <==>
      !(IsEmpty(x) && StrictlyInside(x, y)) && !(IsEmpty(y) && StrictlyInside(y, x))
  {
    var t := Max(x.joinedAt, y.joinedAt);
    if Overlap(x, y) && !IsEmpty(x) && !IsEmpty(y) {
      assert During(x, t) && During(y, t);
    }
  }

  ghost predicate PresentIn(rows: seq<Member>, user: UserId, t: int) {
    exists i :: 0 <= i < |rows| && rows[i].user == user && During(rows[i], t)
  }

  ghost predicate Lasting(rows: seq<Member>) {
    forall i :: 0 <= i < |rows| && rows[i].leftAt.Some? ==> rows[i].joinedAt < rows[i].leftAt.value
  }

  /** With sessions that last, two users have shared a room exactly if at some instant both were in it. */
  lemma SharedIsCommonInstant(m: Members, a: UserId, b: UserId)
    requires forall room :: room in m ==> Lasting(m[room])
    ensures HaveShared(m, a, b) <==> a != b && exists room, t :: room in m && PresentIn(m[room], a, t) && PresentIn(m[room], b, t)
  {
    forall room | room in m
      ensures Shared(m[room], a, b) <==> exists t :: PresentIn(m[room], a, t) && PresentIn(m[room], b, t)
    {
      RoomIsCommonInstant(m[room], a, b);
    }
  }

  lemma RoomIsCommonInstant(rows: seq<Member>, a: UserId, b: UserId)
    requires Lasting(rows)
    ensures Shared(rows, a, b) <==> exists t :: PresentIn(rows, a, t) && PresentIn(rows, b, t)
  {
    if Shared(rows, a, b) {
      var i, j :| 0 <= i < |rows| && 0 <= j < |rows| && rows[i].user == a && rows[j].user == b && Overlap(rows[i], rows[j]);
      OverlapIsCommonInstant(rows[i], rows[j]);
      var t :| During(rows[i], t) && During(rows[j], t);
      assert PresentIn(rows, a, t) && PresentIn(rows, b, t);
    }
    if exists t :: PresentIn(rows, a, t) && PresentIn(rows, b, t) {
      var t :| PresentIn(rows, a, t) && PresentIn(rows, b, t);
      var i :| 0 <= i < |rows| && rows[i].user == a && During(rows[i], t);
      var j :| 0 <= j < |rows| && rows[j].user == b && During(rows[j], t);
      assert Overlap(rows[i], rows[j]);
    }
  }

  lemma SharedIsSymmetric(m: Members, a: UserId, b: UserId)
    ensures HaveShared(m, a, b) == HaveShared(m, b, a)
  {
    if HaveShared(m, a, b) { SharedOneWay(m, a, b); }
    if HaveShared(m, b, a) { SharedOneWay(m, b, a); }
  }

  lemma SharedOneWay(m: Members, a: UserId, b: UserId)
    requires HaveShared(m, a, b)
    ensures HaveShared(m, b, a)
  {
  }

  // ---- over runs ----

  datatype Act = Join(room: RoomId, user: UserId, role: nat, muted: bool) | Leave(room: RoomId, user: UserId)

  function Next(m: Members, act: Act, now: int): Members {
    match act
    case Join(room, user, role, muted) => RecordJoin(m, room, Member(user, role, muted, now, None))
    case Leave(room, user) => RecordLeave(m, room, user, now).0
  }

  type Timed = (int, Act)

  // The state after the first n acts.
  function After(acts: seq<Timed>, n: nat): Members
    requires n <= |acts|
  {
    if n == 0 then map[] else Next(After(acts, n - 1), acts[n - 1].1, acts[n - 1].0)
  }

  // Both users have an open row here.
  predicate BothIn(rows: seq<Member>, a: UserId, b: UserId) {
    FindOpen(rows, a).Some? && FindOpen(rows, b).Some?
  }

  // Both users have an open row in one room at this point.
  ghost predicate Together(m: Members, a: UserId, b: UserId) {
    a != b && exists room :: room in m && BothIn(m[room], a, b)
  }

  ghost predicate EverTogether(acts: seq<Timed>, n: nat, a: UserId, b: UserId)
    requires n <= |acts|
  {
    exists k :: 0 <= k <= n && Together(After(acts, k), a, b)
  }

  // ---- what an act does to the evidence ----

  // These two rows overlap, and still do when row c, if any, is closed now.
  predicate OverlapDespite(rows: seq<Member>, c: Option<nat>, i: nat, j: nat, now: int)
    requires i < |rows| && j < |rows|
  {
    && Overlap(rows[i], rows[j])
    && (c == Some(i) ==> rows[j].joinedAt < now)
    && (c == Some(j) ==> rows[i].joinedAt < now)
  }

  ghost predicate SharedDespite(rows: seq<Member>, c: Option<nat>, a: UserId, b: UserId, now: int) {
    exists i, j :: 0 <= i < |rows| && 0 <= j < |rows| && rows[i].user == a && rows[j].user == b && OverlapDespite(rows, c, i, j, now)
  }

  // The row that a departure closes.
  function ClosedIn(m: Members, room: RoomId, user: UserId, r: RoomId): Option<nat> {
    if r == room then FindOpen(RowsOf(m, r), user) else None
  }

  /**
   * Some evidence that a and b have met survives the departure: an overlap between rows that it leaves alone,
   * or one of the row it closes with a row that began before this instant.
   */
  ghost predicate KeepsEvidence(m: Members, room: RoomId, user: UserId, a: UserId, b: UserId, now: int) {
    a != b && exists r :: r in m && SharedDespite(m[r], ClosedIn(m, room, user, r), a, b, now)
  }

  // Closing an open session keeps its overlap with y if and only if y began before.
  lemma ClosingKeepsOverlapIff(x: Member, y: Member, now: int)
    requires x.leftAt.None?
    ensures Overlap(x.(leftAt := Some(now)), y) <==> Overlap(x, y) && y.joinedAt < now
  {
  }

  /** A departure leaves evidence that a and b have met if and only if some survives it. */
  lemma DepartureKeepsEvidenceIff(m: Members, room: RoomId, user: UserId, a: UserId, b: UserId, now: int)
    ensures HaveShared(RecordLeave(m, room, user, now).0, a, b) <==> KeepsEvidence(m, room, user, a, b, now)
  {
    var m' := RecordLeave(m, room, user, now).0;
    if a != b {
      forall r | r in m ensures r in m' && (Shared(m'[r], a, b) <==> SharedDespite(m[r], ClosedIn(m, room, user, r), a, b, now)) {
        ClosingKeepsSharedIff(m[r], ClosedIn(m, room, user, r), a, b, now);
      }
    }
  }

  function Closing(rows: seq<Member>, c: Option<nat>, now: int): seq<Member>
    requires c.Some? ==> c.value < |rows|
  {
    if c.Some? then rows[c.value := rows[c.value].(leftAt := Some(now))] else rows
  }

  lemma ClosingKeepsSharedIff(rows: seq<Member>, c: Option<nat>, a: UserId, b: UserId, now: int)
    requires a != b && (c.Some? ==> c.value < |rows| && rows[c.value].leftAt.None?)
    ensures Shared(Closing(rows, c, now), a, b) <==> SharedDespite(rows, c, a, b, now)
  {
    var rows' := Closing(rows, c, now);
    forall i, j | 0 <= i < |rows| && 0 <= j < |rows| && rows[i].user == a && rows[j].user == b
      ensures Overlap(rows'[i], rows'[j]) <==> OverlapDespite(rows, c, i, j, now)
    {
      if c == Some(i) { ClosingKeepsOverlapIff(rows[i], rows[j], now); }
      if c == Some(j) { ClosingKeepsOverlapIff(rows[j], rows[i], now); }
    }
  }

  // Some row of the other user ends after this instant, or not at all.
  ghost predicate Reaches(rows: seq<Member>, other: UserId, now: int) {
    exists j :: 0 <= j < |rows| && rows[j].user == other && (rows[j].leftAt.None? || now < rows[j].leftAt.value)
  }

  // An arrival finds rows of the other user that reach beyond it.
  ghost predicate MeetsRows(rows: seq<Member>, user: UserId, a: UserId, b: UserId, now: int) {
    FindOpen(rows, user).None? && ((user == a && Reaches(rows, b, now)) || (user == b && Reaches(rows, a, now)))
  }

  lemma ArrivalSharesIff(m: Members, room: RoomId, row: Member, a: UserId, b: UserId)
    requires row.leftAt.None?
    ensures HaveShared(RecordJoin(m, room, row), a, b) <==> HaveShared(m, a, b) || (a != b && MeetsRows(RowsOf(m, room), row.user, a, b, row.joinedAt))
  {
    var m', rows := RecordJoin(m, room, row), RowsOf(m, room);
    if a != b {
      JoinSharesIff(rows, row, a, b);
      assert RowsOf(m', room) == m'[room] == Admitting(rows, row);
      OneRoomDecides(m, m', room, a, b);
    }
  }

  lemma OneRoomDecides(m: Members, m': Members, room: RoomId, a: UserId, b: UserId)
    requires m' == m[room := RowsOf(m', room)] && (Shared(RowsOf(m, room), a, b) ==> Shared(RowsOf(m', room), a, b))
    ensures a != b ==> (HaveShared(m', a, b) <==> HaveShared(m, a, b) || Shared(RowsOf(m', room), a, b))
  {
    if a != b && HaveShared(m, a, b) {
      var r :| r in m && Shared(m[r], a, b);
      assert r in m' && Shared(m'[r], a, b);
    }
    if a != b && Shared(RowsOf(m', room), a, b) { assert room in m' && Shared(m'[room], a, b); }
    if HaveShared(m', a, b) {
      var r :| r in m' && Shared(m'[r], a, b);
      assert r != room ==> r in m && m[r] == m'[r];
    }
  }

  lemma JoinSharesIff(rows: seq<Member>, row: Member, a: UserId, b: UserId)
    requires a != b && row.leftAt.None?
    ensures Shared(Admitting(rows, row), a, b) <==> Shared(rows, a, b) || MeetsRows(rows, row.user, a, b, row.joinedAt)
  {
    var rows' := Admitting(rows, row);
    if FindOpen(rows, row.user).Some? {
      SameOverlaps(rows, rows', a, b);
      SameOverlaps(rows', rows, a, b);
    } else {
      assert rows' == rows + [row];
      NewRowKeeps(rows, row, a, b);
      if Shared(rows', a, b) { NewRowAdds(rows, row, a, b); }
    }
  }

  lemma SameOverlaps(rows: seq<Member>, rows': seq<Member>, a: UserId, b: UserId)
    requires |rows'| == |rows|
    requires forall i :: 0 <= i < |rows| ==>
      rows'[i].user == rows[i].user && rows'[i].joinedAt == rows[i].joinedAt && rows'[i].leftAt == rows[i].leftAt
    ensures Shared(rows, a, b) ==> Shared(rows', a, b)
  {
    if Shared(rows, a, b) {
      var i, j :| 0 <= i < |rows| && 0 <= j < |rows| && rows[i].user == a && rows[j].user == b && Overlap(rows[i], rows[j]);
      assert Overlap(rows'[i], rows'[j]);
    }
  }

  lemma NewRowKeeps(rows: seq<Member>, row: Member, a: UserId, b: UserId)
    requires row.leftAt.None?
    ensures Shared(rows, a, b) ==> Shared(rows + [row], a, b)
    ensures row.user == a && Reaches(rows, b, row.joinedAt) ==> Shared(rows + [row], a, b)
    ensures row.user == b && Reaches(rows, a, row.joinedAt) ==> Shared(rows + [row], a, b)
  {
    var rows' := rows + [row];
    assert rows'[|rows|] == row && forall i :: 0 <= i < |rows| ==> rows'[i] == rows[i];
  }

  lemma NewRowAdds(rows: seq<Member>, row: Member, a: UserId, b: UserId)
    requires a != b && row.leftAt.None? && Shared(rows + [row], a, b)
    ensures Shared(rows, a, b) || (row.user == a && Reaches(rows, b, row.joinedAt)) || (row.user == b && Reaches(rows, a, row.joinedAt))
  {
    var rows' := rows + [row];
    var i, j :| 0 <= i < |rows'| && 0 <= j < |rows'| && rows'[i].user == a && rows'[j].user == b && Overlap(rows'[i], rows'[j]);
    if i < |rows| { assert rows'[i] == rows[i]; }
    if j < |rows| { assert rows'[j] == rows[j]; }
  }

  // ---- when the evidence is exact ----

  // The arrival finds the other user gone, though by the clock that departure is still to come.
  ghost predicate FindsDeparted(m: Members, room: RoomId, user: UserId, other: UserId, now: int) {
    user != other && !BothOrOneIn(RowsOf(m, room), user, other) && Reaches(RowsOf(m, room), other, now)
  }

  predicate BothOrOneIn(rows: seq<Member>, a: UserId, b: UserId) {
    FindOpen(rows, a).Some? || FindOpen(rows, b).Some?
  }

  // The act neither loses the evidence of a meeting nor invents one.
  ghost predicate IsHonest(m: Members, act: Act, now: int, a: UserId, b: UserId) {
    match act
    case Join(room, user, _, _) =>
      HaveShared(m, a, b) || !((user == a && FindsDeparted(m, room, a, b, now)) || (user == b && FindsDeparted(m, room, b, a, now)))
    case Leave(room, user) => HaveShared(m, a, b) ==> KeepsEvidence(m, room, user, a, b, now)
  }

  lemma FoundIfOpen(rows: seq<Member>, user: UserId)
    ensures FindOpen(rows, user).Some? <==> exists i :: 0 <= i < |rows| && IsOpenOf(rows[i], user)
  {
  }

  lemma TogetherShares(m: Members, a: UserId, b: UserId)
    requires Together(m, a, b)
    ensures HaveShared(m, a, b)
  {
    var room :| room in m && BothIn(m[room], a, b);
    var i, j := FindOpen(m[room], a).value, FindOpen(m[room], b).value;
    assert Overlap(m[room][i], m[room][j]);
  }

  lemma JoinPutsIn(rows: seq<Member>, row: Member, user: UserId)
    requires row.leftAt.None?
    ensures FindOpen(Admitting(rows, row), user).Some? <==> user == row.user || FindOpen(rows, user).Some?
  {
    var i, rows' := FindOpen(rows, row.user), Admitting(rows, row);
    assert i.None? ==> rows'[|rows|] == row && forall k :: 0 <= k < |rows| ==> rows'[k] == rows[k];
    assert i.Some? ==> IsOpenOf(rows'[i.value], row.user);
    if FindOpen(rows, user).Some? { assert IsOpenOf(rows'[FindOpen(rows, user).value], user); }
    if FindOpen(rows', user).Some? && user != row.user { assert IsOpenOf(rows[FindOpen(rows', user).value], user); }
  }

  // Being together is new only when somebody arrives where the other is.
  lemma TogetherAfterJoin(m: Members, room: RoomId, row: Member, a: UserId, b: UserId)
    requires row.leftAt.None? && a != b && !Together(m, a, b)
    ensures Together(RecordJoin(m, room, row), a, b) <==>
      (row.user == a && FindOpen(RowsOf(m, room), b).Some?) || (row.user == b && FindOpen(RowsOf(m, room), a).Some?)
  {
    var m' := RecordJoin(m, room, row);
    JoinPutsIn(RowsOf(m, room), row, a);
    JoinPutsIn(RowsOf(m, room), row, b);
    OneRoomTogether(m, m', room, a, b);
  }

  lemma OneRoomTogether(m: Members, m': Members, room: RoomId, a: UserId, b: UserId)
    requires m' == m[room := RowsOf(m', room)] && (BothIn(RowsOf(m, room), a, b) ==> BothIn(RowsOf(m', room), a, b))
    ensures a != b ==> (Together(m', a, b) <==> Together(m, a, b) || BothIn(RowsOf(m', room), a, b))
  {
    if a != b && Together(m, a, b) {
      var r :| r in m && BothIn(m[r], a, b);
      assert r in m' && BothIn(m'[r], a, b);
    }
    if Together(m', a, b) {
      var r :| r in m' && BothIn(m'[r], a, b);
      assert r != room ==> r in m && m[r] == m'[r];
    }
  }

  lemma NotTogetherAfterLeave(m: Members, room: RoomId, user: UserId, a: UserId, b: UserId, now: int)
    requires Together(RecordLeave(m, room, user, now).0, a, b)
    ensures Together(m, a, b)
  {
    var m' := RecordLeave(m, room, user, now).0;
    var r :| r in m' && BothIn(m'[r], a, b);
    FoundIfOpen(m[r], a);
    FoundIfOpen(m[r], b);
    assert IsOpenOf(m[r][FindOpen(m'[r], a).value], a) && IsOpenOf(m[r][FindOpen(m'[r], b).value], b);
  }

  lemma StepIsExactIff(m: Members, act: Act, now: int, a: UserId, b: UserId)
    ensures var m' := Next(m, act, now);
      (HaveShared(m', a, b) <==> HaveShared(m, a, b) || Together(m', a, b)) <==> IsHonest(m, act, now, a, b)
  {
    if Together(m, a, b) { TogetherShares(m, a, b); }
    if Together(Next(m, act, now), a, b) { TogetherShares(Next(m, act, now), a, b); }
    match act
    case Join(room, user, role, muted) => ArrivalIsExactIff(m, room, Member(user, role, muted, now, None), a, b);
    case Leave(room, user) =>
      DepartureKeepsEvidenceIff(m, room, user, a, b, now);
      if Together(Next(m, act, now), a, b) { NotTogetherAfterLeave(m, room, user, a, b, now); }
  }

  lemma ArrivalIsExactIff(m: Members, room: RoomId, row: Member, a: UserId, b: UserId)
    requires row.leftAt.None? && (Together(m, a, b) ==> HaveShared(m, a, b))
    ensures var m' := RecordJoin(m, room, row);
      (HaveShared(m', a, b) <==> HaveShared(m, a, b) || Together(m', a, b)) <==>
        IsHonest(m, Join(room, row.user, row.role, row.muted), row.joinedAt, a, b)
  {
    ArrivalSharesIff(m, room, row, a, b);
    if a != b && !Together(m, a, b) {
      TogetherAfterJoin(m, room, row, a, b);
      OpenReaches(RowsOf(m, room), a, row.joinedAt);
      OpenReaches(RowsOf(m, room), b, row.joinedAt);
    }
  }

  lemma OpenReaches(rows: seq<Member>, user: UserId, now: int)
    ensures FindOpen(rows, user).Some? ==> Reaches(rows, user, now)
  {
  }

  // ---- over runs ----

  ghost predicate IsExactUpTo(acts: seq<Timed>, n: nat, a: UserId, b: UserId)
    requires n <= |acts|
  {
    forall k :: 0 <= k <= n ==> (HaveShared(After(acts, k), a, b) <==> EverTogether(acts, k, a, b))
  }

  ghost predicate IsHonestUpTo(acts: seq<Timed>, n: nat, a: UserId, b: UserId)
    requires n <= |acts|
  {
    forall k :: 0 <= k < n ==> HonestAt(acts, k, a, b)
  }

  ghost predicate HonestAt(acts: seq<Timed>, k: nat, a: UserId, b: UserId)
    requires k < |acts|
  {
    IsHonest(After(acts, k), acts[k].1, acts[k].0, a, b)
  }

  /**
   * Over every run, whatever its clock does, the evidence is exact throughout, two users having shared a room
   * if and only if after some act so far both were in one, if and only if every act so far was honest.
   */
  lemma {:induction false} EvidenceIsExactIff(acts: seq<Timed>, n: nat, a: UserId, b: UserId)
    requires n <= |acts|
    ensures IsExactUpTo(acts, n, a, b) <==> IsHonestUpTo(acts, n, a, b)
    decreases n
  {
    if n == 0 {
      assert After(acts, 0) == map[];
    } else {
      EvidenceIsExactIff(acts, n - 1, a, b);
      StepIsExactIff(After(acts, n - 1), acts[n - 1].1, acts[n - 1].0, a, b);
      TogetherGrows(acts, n, a, b);
      ExactGrows(acts, n, a, b);
      HonestGrows(acts, n, a, b);
    }
  }

  lemma TogetherGrows(acts: seq<Timed>, n: nat, a: UserId, b: UserId)
    requires 0 < n <= |acts|
    ensures EverTogether(acts, n, a, b) <==> EverTogether(acts, n - 1, a, b) || Together(After(acts, n), a, b)
  {
  }

  lemma ExactGrows(acts: seq<Timed>, n: nat, a: UserId, b: UserId)
    requires 0 < n <= |acts|
    ensures IsExactUpTo(acts, n, a, b) <==>
      IsExactUpTo(acts, n - 1, a, b) && (HaveShared(After(acts, n), a, b) <==> EverTogether(acts, n, a, b))
  {
  }

  lemma HonestGrows(acts: seq<Timed>, n: nat, a: UserId, b: UserId)
    requires 0 < n <= |acts|
    ensures IsHonestUpTo(acts, n, a, b) <==>
      IsHonestUpTo(acts, n - 1, a, b) && HonestAt(acts, n - 1, a, b)
  {
  }

  predicate StrictlyAdvancing(acts: seq<Timed>) {
    forall i, j :: 0 <= i < j < |acts| ==> acts[i].0 < acts[j].0
  }

  predicate Nondecreasing(acts: seq<Timed>) {
    forall i, j :: 0 <= i < j < |acts| ==> acts[i].0 <= acts[j].0
  }

  // Rows start and end no later than now.
  ghost predicate StampedRows(rows: seq<Member>, now: int) {
    forall i :: 0 <= i < |rows| ==> rows[i].joinedAt <= now && (rows[i].leftAt.Some? ==> rows[i].leftAt.value <= now)
  }

  ghost predicate Stamped(m: Members, now: int) {
    forall room :: room in m ==> StampedRows(m[room], now)
  }

  // The clock before act n, or a moment before the first.
  function LastBefore(acts: seq<Timed>, n: nat): int
    requires n < |acts|
  {
    if n == 0 then acts[0].0 - 1 else acts[n - 1].0
  }

  lemma {:induction false} StampedThroughout(acts: seq<Timed>, n: nat)
    requires n < |acts| && Nondecreasing(acts)
    ensures Stamped(After(acts, n), LastBefore(acts, n))
    decreases n
  {
    if n > 0 {
      StampedThroughout(acts, n - 1);
      StepKeepsStamps(After(acts, n - 1), acts[n - 1].1, LastBefore(acts, n - 1), acts[n - 1].0);
    }
  }

  lemma StepKeepsStamps(m: Members, act: Act, last: int, now: int)
    requires Stamped(m, last) && last <= now
    ensures Stamped(Next(m, act, now), now)
  {
    var m', rows := Next(m, act, now), RowsOf(m, act.room);
    assert StampedRows(rows, now);
    forall room | room in m' ensures StampedRows(m'[room], now) {
      if room != act.room { assert m'[room] == m[room]; }
    }
  }

  lemma JoinIsHonest(m: Members, act: Act, last: int, now: int, a: UserId, b: UserId)
    requires Stamped(m, last) && last <= now && act.Join?
    ensures IsHonest(m, act, now, a, b)
  {
    assert StampedRows(RowsOf(m, act.room), last);
    ReachesIfOpen(RowsOf(m, act.room), a, now);
    ReachesIfOpen(RowsOf(m, act.room), b, now);
  }

  lemma ReachesIfOpen(rows: seq<Member>, user: UserId, now: int)
    requires StampedRows(rows, now)
    ensures Reaches(rows, user, now) <==> FindOpen(rows, user).Some?
  {
    FoundIfOpen(rows, user);
  }

  lemma LateLeaveIsHonest(m: Members, act: Act, last: int, now: int, a: UserId, b: UserId)
    requires Stamped(m, last) && last < now && act.Leave?
    ensures IsHonest(m, act, now, a, b)
  {
    if HaveShared(m, a, b) {
      var room :| room in m && Shared(m[room], a, b);
      var rows, c := m[room], ClosedIn(m, act.room, act.user, room);
      var i, j :| 0 <= i < |rows| && 0 <= j < |rows| && rows[i].user == a && rows[j].user == b && Overlap(rows[i], rows[j]);
      assert OverlapDespite(rows, c, i, j, now);
    }
  }

  // Every departure so far kept what evidence there was.
  ghost predicate DeparturesKeepEvidence(acts: seq<Timed>, n: nat, a: UserId, b: UserId)
    requires n <= |acts|
  {
    forall k :: 0 <= k < n && acts[k].1.Leave? ==> KeptAt(acts, k, a, b)
  }

  ghost predicate KeptAt(acts: seq<Timed>, k: nat, a: UserId, b: UserId)
    requires k < |acts| && acts[k].1.Leave?
  {
    HaveShared(After(acts, k), a, b) ==> KeepsEvidence(After(acts, k), acts[k].1.room, acts[k].1.user, a, b, acts[k].0)
  }

  /** While the clock does not go back, only departures can go wrong. */
  lemma OnlyDeparturesMatter(acts: seq<Timed>, n: nat, a: UserId, b: UserId)
    requires n <= |acts| && Nondecreasing(acts)
    ensures IsExactUpTo(acts, n, a, b) <==> DeparturesKeepEvidence(acts, n, a, b)
  {
    EvidenceIsExactIff(acts, n, a, b);
    forall k | 0 <= k < n ensures HonestAt(acts, k, a, b) <==> (acts[k].1.Leave? ==> KeptAt(acts, k, a, b)) {
      HonestIffKept(acts, k, a, b);
    }
  }

  lemma HonestIffKept(acts: seq<Timed>, k: nat, a: UserId, b: UserId)
    requires k < |acts| && Nondecreasing(acts)
    ensures HonestAt(acts, k, a, b) <==> (acts[k].1.Leave? ==> KeptAt(acts, k, a, b))
  {
    StampedThroughout(acts, k);
    if acts[k].1.Join? { JoinIsHonest(After(acts, k), acts[k].1, LastBefore(acts, k), acts[k].0, a, b); }
  }

  /**
   * Over every run whose clock advances, the evidence is exact: two users have shared a room if and only
   * if after some act of the run both were in one. In particular it is never lost again.
   */
  lemma SharedMeansTogetherOnce(acts: seq<Timed>, n: nat, a: UserId, b: UserId)
    requires n <= |acts| && StrictlyAdvancing(acts)
    ensures HaveShared(After(acts, n), a, b) <==> EverTogether(acts, n, a, b)
  {
    forall k | 0 <= k < n && acts[k].1.Leave? ensures HonestAt(acts, k, a, b) {
      StampedThroughout(acts, k);
      LateLeaveIsHonest(After(acts, k), acts[k].1, LastBefore(acts, k), acts[k].0, a, b);
    }
    forall k | 0 <= k < n && acts[k].1.Join? ensures HonestAt(acts, k, a, b) { HonestIffKept(acts, k, a, b); }
    EvidenceIsExactIff(acts, n, a, b);
  }

  // ---- how it goes wrong ----

  // a is in the room when b arrives, and leaves within the same millisecond.
  function HastyMeeting(a: UserId, b: UserId, room: RoomId, now: int): seq<Timed> {
    [(now - 1, Join(room, a, 0, false)), (now, Join(room, b, 0, false)), (now, Leave(room, a))]
  }

  /** When the clock stands still between an arrival and a departure, the evidence of a meeting vanishes again. */
  lemma StandingClockLosesEvidence(a: UserId, b: UserId, room: RoomId, now: int)
    requires a != b
    ensures var acts := HastyMeeting(a, b, room, now);
      Nondecreasing(acts) && HaveShared(After(acts, 2), a, b) && !HaveShared(After(acts, 3), a, b)
  {
    var acts, x, y := HastyMeeting(a, b, room, now), Member(a, 0, false, now - 1, None), Member(b, 0, false, now, None);
    assert After(acts, 0) == map[];
    assert Admitting([], x) == [x];
    assert After(acts, 1) == map[room := [x]];
    assert FindOpen([x], b).None? && Admitting([x], y) == [x, y];
    assert After(acts, 2) == map[room := [x, y]];
    assert [x, y][0] == x && [x, y][1] == y && Overlap(x, y);
    assert Shared([x, y], a, b);
    assert FindOpen([x, y], a) == Some(0);
    assert [x, y][0 := x.(leftAt := Some(now))] == [x.(leftAt := Some(now)), y];
    assert After(acts, 3) == map[room := [x.(leftAt := Some(now)), y]];
  }

  // b has come and gone when the clock is set back, and a arrives.
  function MissedMeeting(a: UserId, b: UserId, room: RoomId, now: int): seq<Timed> {
    [(now, Join(room, b, 0, false)), (now + 2, Leave(room, b)), (now + 1, Join(room, a, 0, false))]
  }

  /** When the clock goes back, a meeting is on record that never was. */
  lemma ClockSetBackInventsEvidence(a: UserId, b: UserId, room: RoomId, now: int)
    requires a != b
    ensures var acts := MissedMeeting(a, b, room, now); HaveShared(After(acts, 3), a, b) && !EverTogether(acts, 3, a, b)
  {
    var acts, x, y := MissedMeeting(a, b, room, now), Member(a, 0, false, now + 1, None), Member(b, 0, false, now, None);
    var gone := y.(leftAt := Some(now + 2));
    assert After(acts, 0) == map[];
    assert Admitting([], y) == [y];
    assert After(acts, 1) == map[room := [y]];
    assert FindOpen([y], b) == Some(0) && [y][0 := gone] == [gone];
    assert After(acts, 2) == map[room := [gone]];
    assert FindOpen([gone], a).None? && FindOpen([gone], b).None? && FindOpen([y], a).None? && Admitting([gone], x) == [gone, x];
    assert After(acts, 3) == map[room := [gone, x]];
    assert [gone, x][0] == gone && [gone, x][1] == x && Overlap(x, gone);
    assert Shared([gone, x], a, b);
    NobodyIn([gone, x], b);
  }

  lemma NobodyIn(rows: seq<Member>, user: UserId)
    requires forall i :: 0 <= i < |rows| ==> !IsOpenOf(rows[i], user)
    ensures FindOpen(rows, user).None?
  {
  }
}
