/**
 * Departures interleaved with each other and with arrivals, one repository call or one emission at a time.
 * Rows closed, rows announced and rows about to be announced always balance.
 */
module DepartureRaces {
  import opened Common
  import opened Memberships
  import opened Departures

  // Where a departure stands: it has looked at the open row; closed one; announced it.
  datatype Stage = Looked | ClosedRow(at: int) | Told(at: int)

  datatype Thread = Thread(seat: Seat, reason: Reason, joinedAt: Option<int>, stage: Stage)

  datatype World = World(members: Members, threads: map<nat, Thread>, broadcasts: seq<Seat>, credits: seq<Seat>)

  const START := World(map[], map[], [], [])

  datatype Event = Arrive(room: RoomId, row: Member) | Begin(id: nat, seat: Seat, reason: Reason) | Advance(id: nat, now: int)

  function Next(w: World, e: Event): World {
    match e
    case Arrive(room, row) => w.(members := RecordJoin(w.members, room, row))
    case Begin(id, seat, reason) =>
      if id in w.threads then w
      else w.(threads := w.threads[id := Thread(seat, reason, JoinedAt(FindMembership(w.members, seat.0, seat.1)), Looked)])
    case Advance(id, now) =>
      if id !in w.threads then w
      else
        var th := w.threads[id];
        match th.stage {
          case Looked =>
            var (members, closed) := RecordLeave(w.members, th.seat.0, th.seat.1, now);
            if closed then w.(members := members, threads := w.threads[id := th.(stage := ClosedRow(now))]) else w.(threads := w.threads - {id})
          case ClosedRow(at) =>
            w.(threads := w.threads[id := th.(stage := Told(at))], broadcasts := w.broadcasts + [th.seat])
          case Told(at) =>
            w.(threads := w.threads - {id}, credits := if EarnsCredit(th.reason, th.joinedAt, at) then w.credits + [th.seat] else w.credits)
        }
  }

  function After(w: World, es: seq<Event>): World
    decreases |es|
  {
    if es == [] then w else After(Next(w, es[0]), es[1..])
  }

  /** With nothing in between, the look, the close, the announcement and the credit are the departure as one step. */
  lemma UndisturbedIsDepart(w: World, id: nat, seat: Seat, reason: Reason, now: int)
    requires id !in w.threads
    ensures var begun := Next(w, Begin(id, seat, reason));
      var w' := Next(Next(Next(begun, Advance(id, now)), Advance(id, now)), Advance(id, now));
      Ledger(w'.members, w'.broadcasts, w'.credits) == Depart(Ledger(w.members, w.broadcasts, w.credits), seat, reason, now) && w'.threads == w.threads
  {
    var th := Thread(seat, reason, JoinedAt(FindMembership(w.members, seat.0, seat.1)), Looked);
    var begun := Next(w, Begin(id, seat, reason));
    assert begun == w.(threads := w.threads[id := th]);
    var closed := Next(begun, Advance(id, now));
    if FindOpen(RowsOf(w.members, seat.0), seat.1).None? {
      assert closed == w;
    } else {
      assert closed == w.(members := closed.members, threads := w.threads[id := th.(stage := ClosedRow(now))]);
      var told := Next(closed, Advance(id, now));
      assert told == closed.(threads := w.threads[id := th.(stage := Told(now))], broadcasts := w.broadcasts + [seat]);
    }
  }

  // ---- what is counted ----

  function ClosedRows(rows: seq<Member>, user: UserId): set<nat> {
    set i: nat | i < |rows| && rows[i].user == user && rows[i].leftAt.Some?
  }

  predicate IsPending(th: Thread, seat: Seat) {
    th.seat == seat && th.stage.ClosedRow?
  }

  predicate IsSettling(th: Thread, seat: Seat) {
    th.seat == seat && th.stage.Told?
  }

  // The departures that have closed a row of this seat and not announced it; and those that have announced it.
  function Pending(threads: map<nat, Thread>, seat: Seat): set<nat> {
    set id | id in threads && IsPending(threads[id], seat)
  }

  function Settling(threads: map<nat, Thread>, seat: Seat): set<nat> {
    set id | id in threads && IsSettling(threads[id], seat)
  }

  predicate Balanced(w: World, seat: Seat) {
    && |Announced(w.broadcasts, seat)| + |Pending(w.threads, seat)| == |ClosedRows(RowsOf(w.members, seat.0), seat.1)|
    && |Announced(w.credits, seat)| + |Settling(w.threads, seat)| <= |Announced(w.broadcasts, seat)|
  }

  /**
   * Under every interleaving: the announcements of a user leaving a room, and the departures that have
   * closed a row and not announced it yet, are together as many as the rows ever closed; at most one row is
   * open; and the credits never exceed the announcements.
   */
  lemma EveryDepartureIsAnnouncedOnce(es: seq<Event>, seat: Seat)
    ensures var w := After(START, es);
      && Balanced(w, seat) && AtMostOneOpen(w.members)
      && (w.threads == map[] ==> |Announced(w.broadcasts, seat)| == |ClosedRows(RowsOf(w.members, seat.0), seat.1)|)
  {
    assert Announced([], seat) == {} && ClosedRows([], seat.1) == {} && Pending(map[], seat) == {} && Settling(map[], seat) == {};
    RunIsBalanced(START, es, seat);
    if After(START, es).threads == map[] { assert Pending(map[], seat) == {}; }
  }

  lemma {:induction false} RunIsBalanced(w: World, es: seq<Event>, seat: Seat)
    requires Balanced(w, seat) && AtMostOneOpen(w.members)
    ensures Balanced(After(w, es), seat) && AtMostOneOpen(After(w, es).members)
    decreases |es|
  {
    if es != [] {
      StepIsBalanced(w, es[0], seat);
      RunIsBalanced(Next(w, es[0]), es[1..], seat);
    }
  }

  lemma StepIsBalanced(w: World, e: Event, seat: Seat)
    requires Balanced(w, seat) && AtMostOneOpen(w.members)
    ensures Balanced(Next(w, e), seat) && AtMostOneOpen(Next(w, e).members)
  {
    match e
    case Arrive(room, row) => ArrivalIsBalanced(RowsOf(w.members, room), room, row, seat.1);
    case Begin(id, seat', reason) =>
      if id !in w.threads {
        assert w.threads - {id} == w.threads;
        ThreadCounts(w.threads, id, Next(w, e).threads[id], seat);
      }
    case Advance(id, now) =>
      if id in w.threads {
        var th := w.threads[id];
        match th.stage {
          case Looked => CloseIsBalanced(w, id, now, seat);
          case ClosedRow(at) =>
            ThreadMoves(w.threads, id, th.(stage := Told(at)), seat);
            AppendAnnounces(w.broadcasts, th.seat, seat);
          case Told(at) =>
            ThreadEnds(w.threads, id, seat);
            AppendAnnounces(w.credits, th.seat, seat);
        }
      }
  }

  // Changing one thread moves it between the counts, and nobody else.
  lemma ThreadCounts(threads: map<nat, Thread>, id: nat, th: Thread, seat: Seat)
    ensures |Pending(threads[id := th], seat)| == |Pending(threads - {id}, seat)| + (if IsPending(th, seat) then 1 else 0)
    ensures |Settling(threads[id := th], seat)| == |Settling(threads - {id}, seat)| + (if IsSettling(th, seat) then 1 else 0)
  {
    AddIf(Pending(threads - {id}, seat), Pending(threads[id := th], seat), id, IsPending(th, seat));
    AddIf(Settling(threads - {id}, seat), Settling(threads[id := th], seat), id, IsSettling(th, seat));
  }

  lemma AddIf(small: set<nat>, large: set<nat>, id: nat, added: bool)
    requires id !in small && forall x :: x in large <==> x in small || (x == id && added)
    ensures |large| == |small| + (if added then 1 else 0)
  {
    assert large == if added then small + {id} else small;
  }

  lemma ThreadMoves(threads: map<nat, Thread>, id: nat, th: Thread, seat: Seat)
    requires id in threads
    ensures |Pending(threads[id := th], seat)| - |Pending(threads, seat)| == (if IsPending(th, seat) then 1 else 0) - (if IsPending(threads[id], seat) then 1 else 0)
    ensures |Settling(threads[id := th], seat)| - |Settling(threads, seat)| == (if IsSettling(th, seat) then 1 else 0) - (if IsSettling(threads[id], seat) then 1 else 0)
  {
    assert threads[id := threads[id]] == threads;
    ThreadCounts(threads, id, th, seat);
    ThreadCounts(threads, id, threads[id], seat);
  }

  lemma ThreadEnds(threads: map<nat, Thread>, id: nat, seat: Seat)
    requires id in threads
    ensures |Pending(threads - {id}, seat)| == |Pending(threads, seat)| - (if IsPending(threads[id], seat) then 1 else 0)
    ensures |Settling(threads - {id}, seat)| == |Settling(threads, seat)| - (if IsSettling(threads[id], seat) then 1 else 0)
  {
    assert threads[id := threads[id]] == threads;
    ThreadCounts(threads, id, threads[id], seat);
  }

  lemma ArrivalIsBalanced(rows: seq<Member>, room: RoomId, row: Member, user: UserId)
    requires OneOpenEach(rows)
    ensures var rows' := RowsOf(RecordJoin(map[room := rows], room, row), room);
      OneOpenEach(rows') && ClosedRows(rows', user) == ClosedRows(rows, user)
  {
  }

  lemma CloseIsBalanced(w: World, id: nat, now: int, seat: Seat)
    requires Balanced(w, seat) && AtMostOneOpen(w.members) && id in w.threads && w.threads[id].stage.Looked?
    ensures Balanced(Next(w, Advance(id, now)), seat) && AtMostOneOpen(Next(w, Advance(id, now)).members)
  {
    var th := w.threads[id];
    var rows := RowsOf(w.members, th.seat.0);
    if FindOpen(rows, th.seat.1).None? {
      ThreadEnds(w.threads, id, seat);
    } else {
      ThreadMoves(w.threads, id, th.(stage := ClosedRow(now)), seat);
      CloseRow(rows, th.seat.1, now);
      CloseCounts(rows, th.seat.1, now, seat.1);
    }
  }

  lemma CloseCounts(rows: seq<Member>, user: UserId, now: int, other: UserId)
    requires FindOpen(rows, user).Some?
    ensures var i := FindOpen(rows, user).value;
      |ClosedRows(rows[i := rows[i].(leftAt := Some(now))], other)| == |ClosedRows(rows, other)| + (if user == other then 1 else 0)
  {
    var i := FindOpen(rows, user).value;
    assert ClosedRows(rows[i := rows[i].(leftAt := Some(now))], other) == ClosedRows(rows, other) + (if user == other then {i} else {});
  }

  // The session lasted long enough to earn credit.
  predicate IsLong(joinedAt: Option<int>, now: int) {
    joinedAt.Some? && now - joinedAt.value >= MIN_SESSION_MS
  }

  // A departure carried through: the close, the announcement, the credit.
  function Departing(w: World, id: nat, now: int, told: int, done: int): World {
    Next(Next(Next(w, Advance(id, now)), Advance(id, told)), Advance(id, done))
  }

  /**
   * Credit is fair if it is given exactly when the session that was closed was left in a way that earns credit
   * and lasted a minute. It is fair if and only if the reason earns none, or the session that was looked at and
   * the one that was closed are both long, or both short: whatever happened in between.
   */
  lemma CreditIsFairIff(w: World, id: nat, now: int, told: int, done: int)
    requires id in w.threads && w.threads[id].stage.Looked?
    requires FindMembership(w.members, w.threads[id].seat.0, w.threads[id].seat.1).Some?
    ensures var th := w.threads[id];
      var closed := FindMembership(w.members, th.seat.0, th.seat.1).value;
      var fair := if IsCredited(th.reason) && IsLong(Some(closed.joinedAt), now) then w.credits + [th.seat] else w.credits;
      Departing(w, id, now, told, done).credits == fair <==>
        (IsCredited(th.reason) ==> (IsLong(th.joinedAt, now) <==> IsLong(Some(closed.joinedAt), now)))
  {
    DepartingCredits(w, id, now, told, done);
    assert |w.credits + [w.threads[id].seat]| == |w.credits| + 1;
  }

  lemma DepartingCredits(w: World, id: nat, now: int, told: int, done: int)
    requires id in w.threads && w.threads[id].stage.Looked?
    requires FindMembership(w.members, w.threads[id].seat.0, w.threads[id].seat.1).Some?
    ensures var th := w.threads[id];
      Departing(w, id, now, told, done).credits == if EarnsCredit(th.reason, th.joinedAt, now) then w.credits + [th.seat] else w.credits
  {
    var th := w.threads[id];
    var closed := Next(w, Advance(id, now));
    assert closed.threads[id] == th.(stage := ClosedRow(now)) && closed.credits == w.credits;
    var announced := Next(closed, Advance(id, told));
    assert announced.threads[id] == th.(stage := Told(now)) && announced.credits == w.credits;
  }

  /** In particular it is fair for a departure that closes the very session it looked at. */
  lemma CreditIsFairIfLookIsCurrent(w: World, id: nat, now: int, told: int, done: int)
    requires id in w.threads && w.threads[id].stage.Looked?
    requires var row := FindMembership(w.members, w.threads[id].seat.0, w.threads[id].seat.1);
      row.Some? && w.threads[id].joinedAt == Some(row.value.joinedAt)
    ensures var th := w.threads[id];
      var row := FindMembership(w.members, th.seat.0, th.seat.1).value;
      Departing(w, id, now, told, done).credits ==
        if IsCredited(th.reason) && now - row.joinedAt >= MIN_SESSION_MS then w.credits + [th.seat] else w.credits
  {
    CreditIsFairIff(w, id, now, told, done);
  }

  // Two departures look at one session; one closes it, the user comes back, and the other goes through.
  function BothLook(seat: Seat, row: Member): seq<Event> {
    [Arrive(seat.0, row), Begin(1, seat, Voluntary), Begin(2, seat, Voluntary)]
  }

  function OneLeavesAndReturns(seat: Seat, row: Member, now: int): seq<Event> {
    [Advance(2, now), Arrive(seat.0, row.(joinedAt := now))]
  }

  function OtherGoesThrough(now: int): seq<Event> {
    [Advance(1, now), Advance(1, now), Advance(1, now)]
  }

  /**
   * A departure that looked long ago credits what it saw: if another one has closed that row since, and the
   * user has come back, the new session is credited for the old one's length, however short it was.
   */
  lemma StaleLookOvercredits(seat: Seat, row: Member, now: int)
    requires row.user == seat.1 && row.leftAt.None? && row.joinedAt + MIN_SESSION_MS <= now
    ensures var w := After(START, BothLook(seat, row) + OneLeavesAndReturns(seat, row, now) + OtherGoesThrough(now));
      && RowsOf(w.members, seat.0) == [row.(leftAt := Some(now)), row.(joinedAt := now, leftAt := Some(now))]
      && w.credits == [seat]
  {
    var looked, returned := After(START, BothLook(seat, row)), After(After(START, BothLook(seat, row)), OneLeavesAndReturns(seat, row, now));
    var closed, back := row.(leftAt := Some(now)), row.(joinedAt := now);
    BothHaveLooked(seat, row);
    OneHasReturned(looked, seat, row, now);
    AfterBoth(START, BothLook(seat, row), OneLeavesAndReturns(seat, row, now));
    AfterBoth(START, BothLook(seat, row) + OneLeavesAndReturns(seat, row, now), OtherGoesThrough(now));
    AfterThree(returned, Advance(1, now), Advance(1, now), Advance(1, now));
    assert FindOpen([closed, back], seat.1) == Some(1) && [closed, back][1 := back.(leftAt := Some(now))] == [closed, back.(leftAt := Some(now))];
    DepartingCredits(returned, 1, now, now, now);
  }

  lemma BothHaveLooked(seat: Seat, row: Member)
    requires row.user == seat.1 && row.leftAt.None?
    ensures var th := Thread(seat, Voluntary, Some(row.joinedAt), Looked);
      After(START, BothLook(seat, row)) == World(map[seat.0 := [row]], map[1 := th, 2 := th], [], [])
  {
    assert Admitting([], row) == [row] && FindOpen([row], seat.1) == Some(0);
    AfterThree(START, Arrive(seat.0, row), Begin(1, seat, Voluntary), Begin(2, seat, Voluntary));
  }

  lemma OneHasReturned(w: World, seat: Seat, row: Member, now: int)
    requires row.user == seat.1 && row.leftAt.None? && w.members == map[seat.0 := [row]]
    requires w.threads.Keys == {1, 2} && w.threads[2].seat == seat && w.threads[2].stage == Looked
    ensures var w' := After(w, OneLeavesAndReturns(seat, row, now));
      && w'.members == map[seat.0 := [row.(leftAt := Some(now)), row.(joinedAt := now)]]
      && 1 in w'.threads && w'.threads[1] == w.threads[1] && w'.credits == w.credits
  {
    var closed, back := row.(leftAt := Some(now)), row.(joinedAt := now);
    assert FindOpen([row], seat.1) == Some(0) && [row][0 := closed] == [closed];
    assert FindOpen([closed], seat.1).None? && Admitting([closed], back) == [closed, back];
    AfterTwo(w, Advance(2, now), Arrive(seat.0, back));
  }

  lemma AfterTwo(w: World, e: Event, f: Event)
    ensures After(w, [e, f]) == Next(Next(w, e), f)
  {
    assert [e, f][1..] == [f] && [f][1..] == [];
    assert After(Next(w, e), [f]) == Next(Next(w, e), f);
  }

  lemma AfterThree(w: World, e: Event, f: Event, g: Event)
    ensures After(w, [e, f, g]) == Next(Next(Next(w, e), f), g)
  {
    assert [e, f, g][1..] == [f, g];
    AfterTwo(Next(w, e), f, g);
  }

  lemma {:induction false} AfterBoth(w: World, a: seq<Event>, b: seq<Event>)
    ensures After(w, a + b) == After(After(w, a), b)
    decreases |a|
  {
    if a == [] {
      assert a + b == b;
    } else {
      assert (a + b)[1..] == a[1..] + b;
      AfterBoth(Next(w, a[0]), a[1..], b);
    }
  }
}
