/**
 * Recurring rooms: finding those that are due, claiming an occurrence by moving it, and the sweep that
 * opens rooms. Any number of sweepers may run; the claim decides who opens.
 */
module Schedules {
  import opened Common

  // A random identifier, of which only equality matters.
  type RoomId = nat

  datatype Status = Scheduled | Running | Closed

  // `next` and `lastOpened` are nextOccurrenceAt and lastOpenedAt; `cron` names an expression and its time zone.
  datatype Room = Room(isScheduled: bool, cron: Option<nat>, next: Option<int>, lastOpened: Option<int>, status: Status)

  type Rooms = map<RoomId, Room>

  const MAX_PER_SWEEP: nat := 50

  predicate IsDue(r: Room, now: int) {
    r.isScheduled && r.next.Some? && r.next.value <= now
  }

  function Due(rooms: Rooms, now: int): set<RoomId> {
    set id | id in rooms && IsDue(rooms[id], now)
  }

  // Due, and not already opened for this occurrence.
  predicate CanClaim(r: Room, now: int) {
    IsDue(r, now) && (r.lastOpened.None? || r.lastOpened.value < r.next.value)
  }

  function Claim(rooms: Rooms, id: RoomId, now: int, next: int, openedAt: int): (Rooms, bool) {
    if id in rooms && CanClaim(rooms[id], now)
    then (rooms[id := rooms[id].(next := Some(next), lastOpened := Some(openedAt), status := Running)], true)
    else (rooms, false)
  }

  function Disable(rooms: Rooms, id: RoomId): Rooms {
    if id in rooms then rooms[id := rooms[id].(isScheduled := false, next := None)] else rooms
  }

  // Earliest first, at most `limit` of them; equal times may come in either order.
  ghost predicate IsDueList(rooms: Rooms, now: int, limit: nat, list: seq<RoomId>) {
    && (forall i :: 0 <= i < |list| ==> list[i] in Due(rooms, now))
    && (forall i, j :: 0 <= i < j < |list| ==> list[i] != list[j] && DueTime(rooms, list[i]) <= DueTime(rooms, list[j]))
    && |list| == Min(limit, |Due(rooms, now)|)
    && (forall id, i :: id in Due(rooms, now) && id !in list && 0 <= i < |list| ==> DueTime(rooms, list[i]) <= DueTime(rooms, id))
  }

  function DueTime(rooms: Rooms, id: RoomId): int {
    if id in rooms && rooms[id].next.Some? then rooms[id].next.value else 0
  }

  /** The calendar is left open: whatever it answers, an occurrence in the past or present counts for none. */
  datatype Calendar = Calendar(answer: (nat, int) -> Option<int>) {
    function NextOccurrence(cron: nat, now: int): (next: Option<int>)
      ensures next.Some? ==> now < next.value
      ensures next.Some? <==> answer(cron, now).Some? && now < answer(cron, now).value
      ensures next.Some? ==> next == answer(cron, now)
    {
      var next := answer(cron, now);
      if next.Some? && now < next.value then next else None
    }
  }

  // ---- sweepers ----

  // A sweeper that listed the due rooms at an instant and has still to deal with some of them.
  datatype Sweeper = Sweeper(now: int, left: seq<(RoomId, Room)>)

  // An occurrence that was claimed, and what it was moved to.
  datatype Opening = Opening(id: RoomId, occurrence: int, next: int, at: int)

  datatype World = World(rooms: Rooms, sweepers: map<nat, Sweeper>, openings: seq<Opening>)

  datatype Event = Begin(sweeper: nat, now: int, list: seq<RoomId>) | Advance(sweeper: nat)

  function NextOf(r: Room, cal: Calendar, now: int): Option<int> {
    if r.cron.None? then None else cal.NextOccurrence(r.cron.value, now)
  }

  // openOne: decided on the room as it was listed, carried out on the room as it is.
  function OpenOne(w: World, id: RoomId, listed: Room, cal: Calendar, now: int): World {
    var next := NextOf(listed, cal, now);
    if next.None? then w.(rooms := Disable(w.rooms, id))
    else
      var (rooms, claimed) := Claim(w.rooms, id, now, next.value, now);
      if claimed then w.(rooms := rooms, openings := w.openings + [Opening(id, DueTime(w.rooms, id), next.value, now)]) else w
  }

  // The sweep lists at most fifty due rooms; the list holds the rooms as read.
  ghost predicate Enabled(w: World, e: Event) {
    match e
    case Begin(s, now, list) => s !in w.sweepers && IsDueList(w.rooms, now, MAX_PER_SWEEP, list)
    case Advance(s) => s in w.sweepers && w.sweepers[s].left != []
  }

  function Listed(rooms: Rooms, list: seq<RoomId>): seq<(RoomId, Room)> {
    if list == [] then []
    else (if list[0] in rooms then [(list[0], rooms[list[0]])] else []) + Listed(rooms, list[1..])
  }

  lemma {:induction false} ListedAsRead(rooms: Rooms, list: seq<RoomId>)
    requires forall i :: 0 <= i < |list| ==> list[i] in rooms
    ensures |Listed(rooms, list)| == |list| && forall i :: 0 <= i < |list| ==> Listed(rooms, list)[i] == (list[i], rooms[list[i]])
    decreases |list|
  {
    if list != [] {
      ListedAsRead(rooms, list[1..]);
    }
  }

  // The rooms of a list dealt with in order, each as it was when listed.
  function OpenAll(rooms: Rooms, listed: seq<(RoomId, Room)>, cal: Calendar, now: int): Rooms
    decreases |listed|
  {
    if listed == [] then rooms
    else
      var (id, room) := listed[|listed| - 1];
      OpenOne(World(OpenAll(rooms, listed[..|listed| - 1], cal, now), map[], []), id, room, cal, now).rooms
  }

  // One more room dealt with.
  lemma OpenAllGrows(rooms: Rooms, listed: seq<(RoomId, Room)>, i: nat, cal: Calendar, now: int)
    requires i < |listed|
    ensures OpenAll(rooms, listed[..i + 1], cal, now) ==
      OpenOne(World(OpenAll(rooms, listed[..i], cal, now), map[], []), listed[i].0, listed[i].1, cal, now).rooms
  {
    assert listed[..i + 1][..i] == listed[..i];
  }

  function Next(w: World, e: Event, cal: Calendar): World {
    match e
    case Begin(s, now, list) => w.(sweepers := w.sweepers[s := Sweeper(now, Listed(w.rooms, list))])
    case Advance(s) =>
      if s !in w.sweepers || w.sweepers[s].left == [] then w
      else
        var sw := w.sweepers[s];
        var w' := w.(sweepers := w.sweepers[s := sw.(left := sw.left[1..])]);
        OpenOne(w', sw.left[0].0, sw.left[0].1, cal, sw.now)
  }

  function After(w: World, es: seq<Event>, cal: Calendar): World
    decreases |es|
  {
    if es == [] then w else After(Next(w, es[0], cal), es[1..], cal)
  }

  ghost predicate IsRun(w: World, es: seq<Event>, cal: Calendar)
    decreases |es|
  {
    es == [] || (Enabled(w, es[0]) && IsRun(Next(w, es[0], cal), es[1..], cal))
  }

  // ---- the statements ----

  /** A room is due from its next occurrence on, while it is scheduled. */
  lemma DueAnswers(rooms: Rooms, id: RoomId, now: int)
    ensures id in Due(rooms, now) <==> id in rooms && rooms[id].isScheduled && rooms[id].next.Some? && rooms[id].next.value <= now
  {
  }

  /** A sweep lists fifty due rooms, or all of them if there are no more, the earliest first. */
  lemma ListIsBounded(rooms: Rooms, now: int, list: seq<RoomId>)
    requires IsDueList(rooms, now, MAX_PER_SWEEP, list)
    ensures |list| == if |Due(rooms, now)| <= 50 then |Due(rooms, now)| else 50
    ensures forall i, j :: 0 <= i < j < |list| ==>
      list[i] in rooms && list[j] in rooms && rooms[list[i]].next.Some? && rooms[list[j]].next.Some? && rooms[list[i]].next.value <= rooms[list[j]].next.value
  {
  }

  /** An occurrence is claimed exactly if the room is due and was not opened for it already; the claim moves it and nothing else. */
  lemma ClaimAnswers(rooms: Rooms, id: RoomId, now: int, next: int, openedAt: int)
    ensures var (rooms', claimed) := Claim(rooms, id, now, next, openedAt);
      && (claimed <==> id in Due(rooms, now) && (rooms[id].lastOpened.Some? ==> rooms[id].lastOpened.value < rooms[id].next.value))
      && (if claimed then
          rooms' == rooms[id := Room(true, rooms[id].cron, Some(next), Some(openedAt), Running)]
        else rooms' == rooms)
  {
  }

  /** Disabling takes a room off the schedule and keeps all else of it. */
  lemma DisableEffects(rooms: Rooms, id: RoomId)
    ensures Disable(rooms, id) == if id in rooms then rooms[id := Room(false, rooms[id].cron, None, rooms[id].lastOpened, rooms[id].status)] else rooms
  {
  }

  /** Dealing with a room is logged as an opening exactly if the claim succeeded, with the occurrence it claimed. */
  lemma OpeningsAreClaims(w: World, id: RoomId, listed: Room, cal: Calendar, now: int)
    ensures var w', next := OpenOne(w, id, listed, cal, now), NextOf(listed, cal, now);
      && w'.sweepers == w.sweepers
      && (next.None? ==> w'.rooms == Disable(w.rooms, id) && w'.openings == w.openings)
      && (next.Some? ==>
        var (rooms, claimed) := Claim(w.rooms, id, now, next.value, now);
        && w'.rooms == rooms
        && if claimed then id in w.rooms && w.rooms[id].next.Some? && w'.openings == w.openings + [Opening(id, w.rooms[id].next.value, next.value, now)]
          else w'.openings == w.openings)
  {
  }

  // A sweeper takes one room after the other.
  function Turns(s: nat, n: nat): seq<Event> {
    seq(n, _ => Advance(s))
  }

  /** With no other sweeper in between, a sweeper that has listed its rooms deals with all of them in order. */
  lemma UndisturbedIsOpenAll(w: World, s: nat, now: int, list: seq<RoomId>, cal: Calendar)
    requires forall id :: id in list ==> id in w.rooms
    ensures var w' := After(Next(w, Begin(s, now, list), cal), Turns(s, |list|), cal);
      w'.rooms == OpenAll(w.rooms, Listed(w.rooms, list), cal, now) && s in w'.sweepers && w'.sweepers[s].left == []
  {
    ListedAsRead(w.rooms, list);
    var listed := Listed(w.rooms, list);
    TurnsOpenAll(Next(w, Begin(s, now, list), cal), s, w.rooms, listed, 0, cal, now);
    assert listed[..|listed|] == listed && listed[..0] == [] && listed[0..] == listed;
  }

  lemma {:induction false} TurnsOpenAll(w: World, s: nat, start: Rooms, listed: seq<(RoomId, Room)>, i: nat, cal: Calendar, now: int)
    requires i <= |listed| && s in w.sweepers && w.sweepers[s] == Sweeper(now, listed[i..])
    requires w.rooms == OpenAll(start, listed[..i], cal, now)
    ensures var w' := After(w, Turns(s, |listed| - i), cal);
      w'.rooms == OpenAll(start, listed[..|listed|], cal, now) && s in w'.sweepers && w'.sweepers[s].left == []
    decreases |listed| - i
  {
    if i < |listed| {
      OpenAllGrows(start, listed, i, cal, now);
      OneRoomEnough(w, s, listed, i, cal, now);
      assert Turns(s, |listed| - i)[1..] == Turns(s, |listed| - (i + 1));
      TurnsOpenAll(Next(w, Advance(s), cal), s, start, listed, i + 1, cal, now);
    }
  }

  // What becomes of the rooms does not depend on who else is sweeping, or on what was opened before.
  lemma OneRoomEnough(w: World, s: nat, listed: seq<(RoomId, Room)>, i: nat, cal: Calendar, now: int)
    requires i < |listed| && s in w.sweepers && w.sweepers[s] == Sweeper(now, listed[i..])
    ensures var w' := Next(w, Advance(s), cal);
      && w'.rooms == OpenOne(World(w.rooms, map[], []), listed[i].0, listed[i].1, cal, now).rooms
      && s in w'.sweepers && w'.sweepers[s] == Sweeper(now, listed[i + 1..])
  {
    assert listed[i..][1..] == listed[i + 1..];
  }

  // What was opened last lies before what comes next.
  ghost predicate Forward(rooms: Rooms) {
    forall id :: id in rooms && rooms[id].next.Some? && rooms[id].lastOpened.Some? ==> rooms[id].lastOpened.value < rooms[id].next.value
  }

  // The openings of a room are of ever later occurrences, all before the one that is next.
  ghost predicate Ordered(rooms: Rooms, openings: seq<Opening>) {
    && (forall o :: o in openings ==> o.occurrence < o.next && o.occurrence <= o.at < o.next)
    && (forall i, j :: 0 <= i < j < |openings| && openings[i].id == openings[j].id ==> openings[i].next <= openings[j].occurrence)
    && (forall o :: o in openings && o.id in rooms && rooms[o.id].next.Some? ==> o.next <= rooms[o.id].next.value)
  }

  /**
   * With any number of sweepers, whatever their clocks: each occurrence of a room is claimed at most once,
   * those claimed strictly increase, and a room that is due can always be claimed.
   */
  lemma OccurrencesAreClaimedOnce(rooms: Rooms, es: seq<Event>, cal: Calendar)
    requires Forward(rooms) && IsRun(World(rooms, map[], []), es, cal)
    ensures var w := After(World(rooms, map[], []), es, cal);
      && (forall i, j :: 0 <= i < j < |w.openings| && w.openings[i].id == w.openings[j].id ==> w.openings[i].occurrence < w.openings[j].occurrence)
      && (forall id, now :: id in w.rooms && IsDue(w.rooms[id], now) ==> CanClaim(w.rooms[id], now))
  {
    RunIsOrdered(World(rooms, map[], []), es, cal);
    var w := After(World(rooms, map[], []), es, cal);
    forall i, j | 0 <= i < j < |w.openings| && w.openings[i].id == w.openings[j].id ensures w.openings[i].occurrence < w.openings[j].occurrence {
      assert w.openings[i] in w.openings;
    }
  }

  lemma {:induction false} RunIsOrdered(w: World, es: seq<Event>, cal: Calendar)
    requires Forward(w.rooms) && Ordered(w.rooms, w.openings)
    ensures Forward(After(w, es, cal).rooms) && Ordered(After(w, es, cal).rooms, After(w, es, cal).openings)
    decreases |es|
  {
    if es != [] {
      StepIsOrdered(w, es[0], cal);
      RunIsOrdered(Next(w, es[0], cal), es[1..], cal);
    }
  }

  lemma StepIsOrdered(w: World, e: Event, cal: Calendar)
    requires Forward(w.rooms) && Ordered(w.rooms, w.openings)
    ensures Forward(Next(w, e, cal).rooms) && Ordered(Next(w, e, cal).rooms, Next(w, e, cal).openings)
  {
    if e.Advance? && e.sweeper in w.sweepers && w.sweepers[e.sweeper].left != [] {
      var (id, listed) := w.sweepers[e.sweeper].left[0];
      var next := NextOf(listed, cal, w.sweepers[e.sweeper].now);
      if next.Some? && id in w.rooms && CanClaim(w.rooms[id], w.sweepers[e.sweeper].now) {
        ClaimIsOrdered(w.rooms, w.openings, id, w.sweepers[e.sweeper].now, next.value);
      }
    }
  }

  lemma ClaimIsOrdered(rooms: Rooms, openings: seq<Opening>, id: RoomId, now: int, next: int)
    requires Forward(rooms) && Ordered(rooms, openings) && id in rooms && CanClaim(rooms[id], now) && now < next
    ensures Forward(Claim(rooms, id, now, next, now).0)
    ensures Ordered(Claim(rooms, id, now, next, now).0, openings + [Opening(id, DueTime(rooms, id), next, now)])
  {
  }

  // ---- a sweeper on its own ----

  // What becomes of a due room.
  function Settled(r: Room, cal: Calendar, now: int): Room {
    var next := NextOf(r, cal, now);
    if next.None? then r.(isScheduled := false, next := None) else r.(next := next, lastOpened := Some(now), status := Running)
  }

  function Sweep(rooms: Rooms, ids: set<RoomId>, cal: Calendar, now: int): Rooms {
    map id | id in rooms :: if id in ids then Settled(rooms[id], cal, now) else rooms[id]
  }

  // The claim would refuse it, and its schedule goes on: no sweep can take it off the list.
  predicate IsStuck(r: Room, cal: Calendar, now: int) {
    IsDue(r, now) && !CanClaim(r, now) && NextOf(r, cal, now).Some?
  }

  ghost predicate NoneStuck(rooms: Rooms, cal: Calendar, now: int) {
    forall id :: id in rooms ==> !IsStuck(rooms[id], cal, now)
  }

  // What one sweep that lists these rooms leaves.
  function Swept(rooms: Rooms, list: seq<RoomId>, cal: Calendar, now: int): Rooms {
    OpenAll(rooms, Listed(rooms, list), cal, now)
  }

  // The sweeps find these lists, one after the other, at one instant.
  ghost predicate AreSweeps(rooms: Rooms, lists: seq<seq<RoomId>>, cal: Calendar, now: int)
    decreases |lists|
  {
    lists == [] ||
    (IsDueList(rooms, now, MAX_PER_SWEEP, lists[0]) && AreSweeps(Swept(rooms, lists[0], cal, now), lists[1..], cal, now))
  }

  function AfterSweeps(rooms: Rooms, lists: seq<seq<RoomId>>, cal: Calendar, now: int): Rooms
    decreases |lists|
  {
    if lists == [] then rooms else AfterSweeps(Swept(rooms, lists[0], cal, now), lists[1..], cal, now)
  }

  lemma SettleOne(rooms: Rooms, due: seq<RoomId>, i: nat, cal: Calendar, now: int)
    requires NoneStuck(rooms, cal, now) && IsDueList(rooms, now, MAX_PER_SWEEP, due) && i < |due|
    ensures var before := Sweep(rooms, Elements(due[..i]), cal, now);
      && due[i] in rooms && due[i] in before && before[due[i]] == rooms[due[i]]
      && Sweep(rooms, Elements(due[..i + 1]), cal, now) == OpenOne(World(before, map[], []), due[i], rooms[due[i]], cal, now).rooms
  {
  }

  // With nothing stuck, dealing with the listed rooms in order settles each of them.
  lemma {:induction false} OpenAllSettles(rooms: Rooms, due: seq<RoomId>, i: nat, cal: Calendar, now: int)
    requires NoneStuck(rooms, cal, now) && IsDueList(rooms, now, MAX_PER_SWEEP, due) && i <= |due|
    ensures |Listed(rooms, due)| == |due|
    ensures OpenAll(rooms, Listed(rooms, due)[..i], cal, now) == Sweep(rooms, Elements(due[..i]), cal, now)
    decreases i
  {
    ListedAsRead(rooms, due);
    if i == 0 {
      assert Sweep(rooms, Elements(due[..0]), cal, now) == rooms;
    } else {
      OpenAllSettles(rooms, due, i - 1, cal, now);
      SettleOne(rooms, due, i - 1, cal, now);
      assert Listed(rooms, due)[..i][..i - 1] == Listed(rooms, due)[..i - 1];
    }
  }

  lemma SweptSettles(rooms: Rooms, due: seq<RoomId>, cal: Calendar, now: int)
    requires NoneStuck(rooms, cal, now) && IsDueList(rooms, now, MAX_PER_SWEEP, due)
    ensures Swept(rooms, due, cal, now) == Sweep(rooms, Elements(due), cal, now)
    ensures NoneStuck(Swept(rooms, due, cal, now), cal, now)
  {
    OpenAllSettles(rooms, due, |due|, cal, now);
    assert Listed(rooms, due)[..|due|] == Listed(rooms, due) && due[..|due|] == due;
  }

  /**
   * Alone, a sweeper deals with every room due at an instant in one sweep for each fifty of them: each is
   * opened or disabled once, however many occurrences it missed, no other room is touched, and nothing is
   * due any more.
   */
  lemma {:induction false} SweepsDrain(rooms: Rooms, lists: seq<seq<RoomId>>, cal: Calendar, now: int)
    requires NoneStuck(rooms, cal, now) && AreSweeps(rooms, lists, cal, now) && |Due(rooms, now)| <= MAX_PER_SWEEP * |lists|
    ensures AfterSweeps(rooms, lists, cal, now) == Sweep(rooms, Due(rooms, now), cal, now)
    ensures Due(AfterSweeps(rooms, lists, cal, now), now) == {}
    decreases |lists|
  {
    if lists == [] {
      assert Sweep(rooms, {}, cal, now) == rooms;
    } else {
      var batch, due := Elements(lists[0]), Due(rooms, now);
      SweptSettles(rooms, lists[0], cal, now);
      SweepSettles(rooms, lists[0], cal, now);
      SweepsDrain(Sweep(rooms, batch, cal, now), lists[1..], cal, now);
      assert Sweep(Sweep(rooms, batch, cal, now), due - batch, cal, now) == Sweep(rooms, due, cal, now);
    }
  }

  // One sweep leaves due exactly what it did not list.
  lemma SweepSettles(rooms: Rooms, list: seq<RoomId>, cal: Calendar, now: int)
    requires IsDueList(rooms, now, MAX_PER_SWEEP, list)
    ensures var batch := Elements(list);
      && batch <= Due(rooms, now)
      && Due(Sweep(rooms, batch, cal, now), now) == Due(rooms, now) - batch
      && |Due(rooms, now) - batch| == |Due(rooms, now)| - Min(MAX_PER_SWEEP, |Due(rooms, now)|)
  {
    var batch := Elements(list);
    DistinctSize(list);
    forall id | id in batch ensures id in Due(rooms, now) {
    }
    assert Due(rooms, now) == (Due(rooms, now) - batch) + batch;
  }

  /** And with fewer sweeps some room stays due. */
  lemma {:induction false} FewerSweepsDoNotDrain(rooms: Rooms, lists: seq<seq<RoomId>>, cal: Calendar, now: int)
    requires NoneStuck(rooms, cal, now) && AreSweeps(rooms, lists, cal, now) && MAX_PER_SWEEP * |lists| < |Due(rooms, now)|
    ensures |Due(AfterSweeps(rooms, lists, cal, now), now)| == |Due(rooms, now)| - MAX_PER_SWEEP * |lists|
    decreases |lists|
  {
    if lists != [] {
      SweptSettles(rooms, lists[0], cal, now);
      SweepSettles(rooms, lists[0], cal, now);
      FewerSweepsDoNotDrain(Swept(rooms, lists[0], cal, now), lists[1..], cal, now);
    }
  }

  /**
   * That nothing is stuck is exactly what it takes: a room whose claim is refused, and whose schedule goes on,
   * is due after any number of sweeps; without one, enough sweeps leave nothing due.
   */
  lemma SweepsDrainIff(rooms: Rooms, lists: seq<seq<RoomId>>, cal: Calendar, now: int)
    requires AreSweeps(rooms, lists, cal, now) && |Due(rooms, now)| <= MAX_PER_SWEEP * |lists|
    ensures Due(AfterSweeps(rooms, lists, cal, now), now) == {} <==> NoneStuck(rooms, cal, now)
  {
    if NoneStuck(rooms, cal, now) {
      SweepsDrain(rooms, lists, cal, now);
    } else {
      var id :| id in rooms && IsStuck(rooms[id], cal, now);
      StuckStays(rooms, lists, id, cal, now);
    }
  }

  lemma {:induction false} StuckStays(rooms: Rooms, lists: seq<seq<RoomId>>, id: RoomId, cal: Calendar, now: int)
    requires AreSweeps(rooms, lists, cal, now) && id in rooms && IsStuck(rooms[id], cal, now)
    ensures id in Due(AfterSweeps(rooms, lists, cal, now), now)
    decreases |lists|
  {
    if lists != [] {
      ListedAsRead(rooms, lists[0]);
      StuckInOne(rooms, Listed(rooms, lists[0]), id, cal, now);
      StuckStays(Swept(rooms, lists[0], cal, now), lists[1..], id, cal, now);
    }
  }

  lemma {:induction false} StuckInOne(rooms: Rooms, listed: seq<(RoomId, Room)>, id: RoomId, cal: Calendar, now: int)
    requires id in rooms && IsStuck(rooms[id], cal, now)
    requires forall i :: 0 <= i < |listed| && listed[i].0 == id ==> listed[i].1 == rooms[id]
    ensures var rooms' := OpenAll(rooms, listed, cal, now); id in rooms' && rooms'[id] == rooms[id]
    decreases |listed|
  {
    if listed != [] {
      StuckInOne(rooms, listed[..|listed| - 1], id, cal, now);
    }
  }

  /** Where openings lie before what comes next, nothing is stuck, and sweeping keeps it so. */
  lemma ForwardDrains(rooms: Rooms, lists: seq<seq<RoomId>>, cal: Calendar, now: int)
    requires Forward(rooms) && AreSweeps(rooms, lists, cal, now) && |Due(rooms, now)| <= MAX_PER_SWEEP * |lists|
    ensures Due(AfterSweeps(rooms, lists, cal, now), now) == {} && Forward(AfterSweeps(rooms, lists, cal, now))
  {
    SweepsDrain(rooms, lists, cal, now);
  }
}
