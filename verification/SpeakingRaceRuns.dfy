/**
 * Runs of overlapping use cases in which the stage goes wrong: what the host took back is there again, and two
 * speakers share one place.
 */
module SpeakingRaceRuns {
  import opened Common
  import opened PresenceSpec
  import opened Speaking
  import opened SpeakingRuns
  import opened SpeakingExact
  import opened SpeakingRaces

  lemma {:induction false} OneMore(s: Race, halves: seq<(int, Half)>, now: int, h: Half, rooms: Directory, ttl: int)
    ensures AfterHalves(s, halves + [(now, h)], rooms, ttl) == NextHalf(AfterHalves(s, halves, rooms, ttl), h, rooms, now, ttl)
    decreases |halves|
  {
    var more := halves + [(now, h)];
    if halves == [] {
      assert more == [(now, h)] && more[1..] == [];
    } else {
      assert more[1..] == halves[1..] + [(now, h)];
      OneMore(NextHalf(s, halves[0].1, rooms, halves[0].0, ttl), halves[1..], now, h, rooms, ttl);
    }
  }

  // The host joins, and x joins.
  function TwoInRoom(rooms: Directory, room: string, x: string, now: int): seq<(int, Half)>
    requires room in rooms
  {
    [] + [(now, Whole(Join((room, rooms[room].host), ALL_WELL)))] + [(now, Whole(Join((room, x), ALL_WELL)))]
  }

  // x is approved, and a reconnection of x looks at its membership.
  function OnStage(rooms: Directory, room: string, x: string, now: int): seq<(int, Half)>
    requires room in rooms
  {
    TwoInRoom(rooms, room, x, now) + [(now, Whole(Approve(room, rooms[room].host, x, ALL_WELL)))] + [(now, Look(1, Join((room, x), ALL_WELL)))]
  }

  lemma TwoAreInRoom(rooms: Directory, room: string, x: string, now: int, ttl: int)
    requires ttl > 0 && room in rooms && x != rooms[room].host
    ensures var s := AfterHalves(AT_REST, TwoInRoom(rooms, room, x, now), rooms, ttl);
      && s.w.presence == map[(room, rooms[room].host) := Entry(Host, false, now, None), (room, x) := Entry(Listener, false, now, None)]
      && s.plans == map[]
  {
    var host, k := (room, rooms[room].host), (room, x);
    var none: seq<(int, Half)> := [];
    OneMore(AT_REST, none, now, Whole(Join(host, ALL_WELL)), rooms, ttl);
    OneMore(AT_REST, none + [(now, Whole(Join(host, ALL_WELL)))], now, Whole(Join(k, ALL_WELL)), rooms, ttl);
    var s1 := NextHalf(AT_REST, Whole(Join(host, ALL_WELL)), rooms, now, ttl);
    assert s1.w.presence == map[host := Entry(Host, false, now, None)] && s1.plans == map[];
  }

  predicate IsOnStage(s: Race, rooms: Directory, room: string, x: string, now: int)
    requires room in rooms
  {
    var speaker := Entry(Speaker, false, now, None);
    && s.w.presence == map[(room, rooms[room].host) := Entry(Host, false, now, None), (room, x) := speaker]
    && s.plans == map[1 := Decision((room, x), Enter(Some(speaker)))]
  }

  lemma OnStageIsReached(rooms: Directory, room: string, x: string, now: int, ttl: int)
    requires ttl > 0 && room in rooms && x != rooms[room].host && rooms[room].maxSpeakers >= 1
    ensures IsOnStage(AfterHalves(AT_REST, OnStage(rooms, room, x, now), rooms, ttl), rooms, room, x, now)
  {
    var k, halves := (room, x), TwoInRoom(rooms, room, x, now);
    var approve := Whole(Approve(room, rooms[room].host, x, ALL_WELL));
    TwoAreInRoom(rooms, room, x, now, ttl);
    OneMore(AT_REST, halves, now, approve, rooms, ttl);
    OneMore(AT_REST, halves + [(now, approve)], now, Look(1, Join(k, ALL_WELL)), rooms, ttl);
    FirstIsApproved(AfterHalves(AT_REST, halves, rooms, ttl).w, rooms, room, x, now, ttl);
  }

  lemma FirstIsApproved(w: World, rooms: Directory, room: string, x: string, now: int, ttl: int)
    requires ttl > 0 && room in rooms && x != rooms[room].host && rooms[room].maxSpeakers >= 1
    requires w.presence == map[(room, rooms[room].host) := Entry(Host, false, now, None), (room, x) := Entry(Listener, false, now, None)]
    ensures Next(w, Approve(room, rooms[room].host, x, ALL_WELL), rooms, now, ttl).presence ==
      map[(room, rooms[room].host) := Entry(Host, false, now, None), (room, x) := Entry(Speaker, false, now, None)]
  {
    assert SpeakersOn(w.presence, room, rooms[room].host, now, ttl) == {};
    ApprovalTakesAPlace(w, rooms, room, rooms[room].host, x, ALL_WELL, now, ttl);
  }

  // Before the reconnection writes, the host takes something back.
  function Undone(rooms: Directory, room: string, x: string, a: Act, now: int): seq<(int, Half)>
    requires room in rooms
  {
    OnStage(rooms, room, x, now) + [(now, Whole(a))] + [(now, Write(1))]
  }

  lemma UndoneIs(rooms: Directory, room: string, x: string, a: Act, now: int, ttl: int)
    requires room in rooms
    ensures var s := AfterHalves(AT_REST, OnStage(rooms, room, x, now), rooms, ttl);
      var s' := NextHalf(s, Whole(a), rooms, now, ttl);
      && AfterHalves(AT_REST, OnStage(rooms, room, x, now) + [(now, Whole(a))], rooms, ttl) == s'
      && AfterHalves(AT_REST, Undone(rooms, room, x, a, now), rooms, ttl) == NextHalf(s', Write(1), rooms, now, ttl)
  {
    OneMore(AT_REST, OnStage(rooms, room, x, now), now, Whole(a), rooms, ttl);
    OneMore(AT_REST, OnStage(rooms, room, x, now) + [(now, Whole(a))], now, Write(1), rooms, ttl);
  }

  // Looks and whole acts are always timely.
  lemma {:induction false} NoWriteIsTimely(s: Race, halves: seq<(int, Half)>, rooms: Directory, ttl: int)
    requires forall i :: 0 <= i < |halves| ==> !halves[i].1.Write?
    ensures AllTimely(s, halves, rooms, ttl)
    decreases |halves|
  {
    if halves != [] { NoWriteIsTimely(NextHalf(s, halves[0].1, rooms, halves[0].0, ttl), halves[1..], rooms, ttl); }
  }

  // What the host took back is there again, and the reconnection may publish without a warrant.
  lemma TakenBackInVain(rooms: Directory, room: string, x: string, a: Act, now: int, ttl: int)
    requires ttl > 0 && room in rooms && x != rooms[room].host && rooms[room].maxSpeakers >= 1
    requires a == RemoveSpeaker(room, rooms[room].host, x, ALL_WELL) || a == Mute(room, rooms[room].host, x, true, ALL_WELL)
    ensures var v, k := AfterHalves(AT_REST, Undone(rooms, room, x, a, now), rooms, ttl).w, (room, x);
      && k in v.presence && v.presence[k] == Entry(Speaker, false, now, None)
      && !AllWarranted(rooms, v.log, ttl)
  {
    var k, s := (room, x), AfterHalves(AT_REST, OnStage(rooms, room, x, now), rooms, ttl);
    OnStageIsReached(rooms, room, x, now, ttl);
    UndoneIs(rooms, room, x, a, now, ttl);
    TakenBack(s, rooms, room, x, a, now, ttl);
    ReturnWrites(NextHalf(s, Whole(a), rooms, now, ttl), rooms, k, now, ttl);
    ReturnGoesWrong(rooms, room, x, a, now, ttl);
  }

  lemma ReturnGoesWrong(rooms: Directory, room: string, x: string, a: Act, now: int, ttl: int)
    requires ttl > 0 && room in rooms && x != rooms[room].host && rooms[room].maxSpeakers >= 1
    requires a == RemoveSpeaker(room, rooms[room].host, x, ALL_WELL) || a == Mute(room, rooms[room].host, x, true, ALL_WELL)
    ensures !AllWarranted(rooms, AfterHalves(AT_REST, Undone(rooms, room, x, a, now), rooms, ttl).w.log, ttl)
  {
    var before, s := OnStage(rooms, room, x, now) + [(now, Whole(a))], AfterHalves(AT_REST, OnStage(rooms, room, x, now), rooms, ttl);
    OnStageIsReached(rooms, room, x, now, ttl);
    UndoneIs(rooms, room, x, a, now, ttl);
    TakenBack(s, rooms, room, x, a, now, ttl);
    UndoneHasNoWriteBefore(rooms, room, x, a, now, ttl);
    WriteGoesWrongIff(before, rooms, now, now, ttl, 1);
  }

  lemma UndoneHasNoWriteBefore(rooms: Directory, room: string, x: string, a: Act, now: int, ttl: int)
    requires room in rooms
    ensures var before := OnStage(rooms, room, x, now) + [(now, Whole(a))];
      AllTimely(AT_REST, before, rooms, ttl) && InOrder(now, before) && LastOf(before, now) == now
  {
    NoWriteIsTimely(AT_REST, OnStage(rooms, room, x, now) + [(now, Whole(a))], rooms, ttl);
  }

  lemma TakenBack(s: Race, rooms: Directory, room: string, x: string, a: Act, now: int, ttl: int)
    requires ttl > 0 && room in rooms && x != rooms[room].host && IsOnStage(s, rooms, room, x, now)
    requires a == RemoveSpeaker(room, rooms[room].host, x, ALL_WELL) || a == Mute(room, rooms[room].host, x, true, ALL_WELL)
    ensures var s', k := NextHalf(s, Whole(a), rooms, now, ttl), (room, x);
      && s'.plans == s.plans && k in s'.w.presence && s'.w.presence == s.w.presence[k := s'.w.presence[k]]
      && s'.w.presence[k] == if a.RemoveSpeaker? then Entry(Listener, false, now, None) else Entry(Speaker, true, now, None)
  {
  }

  /** The host removes a speaker from the stage; the reconnection that had looked before puts it back, with a credential. */
  lemma ReconnectionUndoesRemoval(rooms: Directory, room: string, x: string, now: int, ttl: int)
    requires ttl > 0 && room in rooms && x != rooms[room].host && rooms[room].maxSpeakers >= 1
    ensures var a := RemoveSpeaker(room, rooms[room].host, x, ALL_WELL);
      var v, k := AfterHalves(AT_REST, Undone(rooms, room, x, a, now), rooms, ttl).w, (room, x);
      k in v.presence && v.presence[k].role == Speaker && !AllWarranted(rooms, v.log, ttl)
  {
    TakenBackInVain(rooms, room, x, RemoveSpeaker(room, rooms[room].host, x, ALL_WELL), now, ttl);
  }

  // By the log the mute stands: a reconnection ends none.
  lemma MuteStands(rooms: Directory, room: string, x: string, a: Act, now: int, ttl: int)
    requires ttl > 0 && room in rooms && x != rooms[room].host && rooms[room].maxSpeakers >= 1
    requires a == Mute(room, rooms[room].host, x, true, ALL_WELL)
    ensures MutedByLog(AfterHalves(AT_REST, Undone(rooms, room, x, a, now), rooms, ttl).w.log, (room, x))
  {
    var k, s := (room, x), AfterHalves(AT_REST, OnStage(rooms, room, x, now), rooms, ttl);
    OnStageIsReached(rooms, room, x, now, ttl);
    UndoneIs(rooms, room, x, a, now, ttl);
    TakenBack(s, rooms, room, x, a, now, ttl);
    var s' := NextHalf(s, Whole(a), rooms, now, ttl);
    assert s'.w.log == s.w.log + [Event(HostMuted, k, now)];
    MuteKept(s.w.log, Event(HostMuted, k, now), k);
    MuteKept(s'.w.log, Event(Touched, k, now), k);
    MuteKept(s'.w.log + [Event(Touched, k, now)], Event(Issued(true), k, now), k);
  }

  /** The host mutes a speaker; the reconnection that had looked before unmutes it, with a credential. */
  lemma ReconnectionUndoesMute(rooms: Directory, room: string, x: string, now: int, ttl: int)
    requires ttl > 0 && room in rooms && x != rooms[room].host && rooms[room].maxSpeakers >= 1
    ensures var a := Mute(room, rooms[room].host, x, true, ALL_WELL);
      var v, k := AfterHalves(AT_REST, Undone(rooms, room, x, a, now), rooms, ttl).w, (room, x);
      k in v.presence && !v.presence[k].muted && MutedByLog(v.log, k) && !AllWarranted(rooms, v.log, ttl)
  {
    var a := Mute(room, rooms[room].host, x, true, ALL_WELL);
    TakenBackInVain(rooms, room, x, a, now, ttl);
    MuteStands(rooms, room, x, a, now, ttl);
  }

  // ---- runs with more speakers than places ----

  // The host, x and y join; the approvals of x and of y look.
  function BothWaiting(rooms: Directory, room: string, x: string, y: string, now: int): seq<(int, Half)>
    requires room in rooms
  {
    TwoInRoom(rooms, room, x, now) + [(now, Whole(Join((room, y), ALL_WELL)))]
    + [(now, Look(1, Approve(room, rooms[room].host, x, ALL_WELL)))] + [(now, Look(2, Approve(room, rooms[room].host, y, ALL_WELL)))]
  }

  // And then both write.
  function BothApproved(rooms: Directory, room: string, x: string, y: string, now: int): seq<(int, Half)>
    requires room in rooms
  {
    BothWaiting(rooms, room, x, y, now) + [(now, Write(1))] + [(now, Write(2))]
  }

  function Three(rooms: Directory, room: string, x: string, ofX: Role, y: string, ofY: Role, now: int): TtlMap
    requires room in rooms
  {
    map[(room, rooms[room].host) := Entry(Host, false, now, None), (room, x) := Entry(ofX, false, now, None), (room, y) := Entry(ofY, false, now, None)]
  }

  lemma BothAreWaiting(rooms: Directory, room: string, x: string, y: string, now: int, ttl: int)
    requires ttl > 0 && room in rooms && x != y && x != rooms[room].host && y != rooms[room].host && rooms[room].maxSpeakers >= 1
    ensures var s, host := AfterHalves(AT_REST, BothWaiting(rooms, room, x, y, now), rooms, ttl), (room, rooms[room].host);
      && s.w.presence == Three(rooms, room, x, Listener, y, Listener, now)
      && s.plans == map[1 := Decision((room, x), Promote(host, true)), 2 := Decision((room, y), Promote(host, true))]
  {
    var host, halves, join := rooms[room].host, TwoInRoom(rooms, room, x, now), Whole(Join((room, y), ALL_WELL));
    var lookX, lookY := Look(1, Approve(room, host, x, ALL_WELL)), Look(2, Approve(room, host, y, ALL_WELL));
    TwoAreInRoom(rooms, room, x, now, ttl);
    OneMore(AT_REST, halves, now, join, rooms, ttl);
    OneMore(AT_REST, halves + [(now, join)], now, lookX, rooms, ttl);
    OneMore(AT_REST, halves + [(now, join)] + [(now, lookX)], now, lookY, rooms, ttl);
    var s := NextHalf(AfterHalves(AT_REST, halves, rooms, ttl), join, rooms, now, ttl);
    assert s.w.presence == Three(rooms, room, x, Listener, y, Listener, now);
    assert SpeakersOn(s.w.presence, room, host, now, ttl) == {};
  }

  lemma TwoAreTooMany(rooms: Directory, room: string, x: string, y: string, now: int, ttl: int)
    requires ttl > 0 && room in rooms && x != y && x != rooms[room].host && y != rooms[room].host && rooms[room].maxSpeakers == 1
    ensures !Fits(rooms, Three(rooms, room, x, Speaker, y, Speaker, now), now, ttl)
  {
    assert SpeakersOn(Three(rooms, room, x, Speaker, y, Speaker, now), room, rooms[room].host, now, ttl) == {(room, x), (room, y)};
  }

  lemma PromoteWrites(s: Race, id: nat, k: Key, host: Key, rooms: Directory, now: int, ttl: int)
    requires id in s.plans && s.plans[id] == Decision(k, Promote(host, true)) && k in s.w.presence
    ensures var s' := NextHalf(s, Write(id), rooms, now, ttl);
      s'.w.presence == s.w.presence[k := s.w.presence[k].(role := Speaker, hand := None)] && s'.plans == s.plans - {id}
  {
  }

  lemma BothArePromoted(s: Race, rooms: Directory, room: string, x: string, y: string, now: int, ttl: int)
    requires room in rooms && x != y && x != rooms[room].host && y != rooms[room].host
    requires s.w.presence == Three(rooms, room, x, Listener, y, Listener, now)
    requires var host := (room, rooms[room].host);
      s.plans == map[1 := Decision((room, x), Promote(host, true)), 2 := Decision((room, y), Promote(host, true))]
    ensures NextHalf(NextHalf(s, Write(1), rooms, now, ttl), Write(2), rooms, now, ttl).w.presence == Three(rooms, room, x, Speaker, y, Speaker, now)
  {
    var host := (room, rooms[room].host);
    PromoteWrites(s, 1, (room, x), host, rooms, now, ttl);
    PromoteWrites(NextHalf(s, Write(1), rooms, now, ttl), 2, (room, y), host, rooms, now, ttl);
  }

  /** Two approvals that each found the one free place before the other wrote: both are on the stage. */
  lemma OverlappingApprovalsOverflow(rooms: Directory, room: string, x: string, y: string, now: int, ttl: int)
    requires ttl > 0 && room in rooms && x != y && x != rooms[room].host && y != rooms[room].host && rooms[room].maxSpeakers == 1
    ensures var w := AfterHalves(AT_REST, BothApproved(rooms, room, x, y, now), rooms, ttl).w;
      w.presence == Three(rooms, room, x, Speaker, y, Speaker, now) && !Fits(rooms, w.presence, now, ttl)
  {
    var halves := BothWaiting(rooms, room, x, y, now);
    BothAreWaiting(rooms, room, x, y, now, ttl);
    OneMore(AT_REST, halves, now, Write(1), rooms, ttl);
    OneMore(AT_REST, halves + [(now, Write(1))], now, Write(2), rooms, ttl);
    BothArePromoted(AfterHalves(AT_REST, halves, rooms, ttl), rooms, room, x, y, now, ttl);
    TwoAreTooMany(rooms, room, x, y, now, ttl);
  }

  // A reconnection of x has looked; x is removed, and y joins and is approved for its place; then it writes.
  function BackOnAFullStage(rooms: Directory, room: string, x: string, y: string, now: int): seq<(int, Half)>
    requires room in rooms
  {
    OnStage(rooms, room, x, now) + [(now, Whole(RemoveSpeaker(room, rooms[room].host, x, ALL_WELL)))] + [(now, Whole(Join((room, y), ALL_WELL)))]
    + [(now, Whole(Approve(room, rooms[room].host, y, ALL_WELL)))] + [(now, Write(1))]
  }

  /** No two approvals overlap, and there are two speakers for one place all the same. */
  lemma ReconnectionOverflows(rooms: Directory, room: string, x: string, y: string, now: int, ttl: int)
    requires ttl > 0 && room in rooms && x != y && x != rooms[room].host && y != rooms[room].host && rooms[room].maxSpeakers == 1
    ensures var w := AfterHalves(AT_REST, BackOnAFullStage(rooms, room, x, y, now), rooms, ttl).w;
      w.presence == Three(rooms, room, x, Speaker, y, Speaker, now) && !Fits(rooms, w.presence, now, ttl)
  {
    var halves, host := OnStage(rooms, room, x, now), rooms[room].host;
    var remove, join, approve := Whole(RemoveSpeaker(room, host, x, ALL_WELL)), Whole(Join((room, y), ALL_WELL)), Whole(Approve(room, host, y, ALL_WELL));
    OnStageIsReached(rooms, room, x, now, ttl);
    OneMore(AT_REST, halves, now, remove, rooms, ttl);
    OneMore(AT_REST, halves + [(now, remove)], now, join, rooms, ttl);
    OneMore(AT_REST, halves + [(now, remove)] + [(now, join)], now, approve, rooms, ttl);
    OneMore(AT_REST, halves + [(now, remove)] + [(now, join)] + [(now, approve)], now, Write(1), rooms, ttl);
    PlaceTakenOver(AfterHalves(AT_REST, halves, rooms, ttl), rooms, room, x, y, now, ttl);
    TwoAreTooMany(rooms, room, x, y, now, ttl);
  }

  lemma PlaceTakenOver(s: Race, rooms: Directory, room: string, x: string, y: string, now: int, ttl: int)
    requires ttl > 0 && room in rooms && x != y && x != rooms[room].host && y != rooms[room].host && rooms[room].maxSpeakers >= 1
    requires IsOnStage(s, rooms, room, x, now)
    ensures var host := rooms[room].host;
      var s1 := NextHalf(s, Whole(RemoveSpeaker(room, host, x, ALL_WELL)), rooms, now, ttl);
      var s2 := NextHalf(s1, Whole(Join((room, y), ALL_WELL)), rooms, now, ttl);
      var s3 := NextHalf(s2, Whole(Approve(room, host, y, ALL_WELL)), rooms, now, ttl);
      NextHalf(s3, Write(1), rooms, now, ttl).w.presence == Three(rooms, room, x, Speaker, y, Speaker, now)
  {
    var host, k := rooms[room].host, (room, x);
    var s1 := NextHalf(s, Whole(RemoveSpeaker(room, host, x, ALL_WELL)), rooms, now, ttl);
    TakenBack(s, rooms, room, x, RemoveSpeaker(room, host, x, ALL_WELL), now, ttl);
    var s2 := NextHalf(s1, Whole(Join((room, y), ALL_WELL)), rooms, now, ttl);
    ArrivalWrites(s1.w, rooms, (room, y), now, ttl);
    assert s2.w.presence == Three(rooms, room, x, Listener, y, Listener, now);
    var s3 := NextHalf(s2, Whole(Approve(room, host, y, ALL_WELL)), rooms, now, ttl);
    SecondIsApproved(s2.w, rooms, room, x, y, now, ttl);
    assert s3.w.presence == Three(rooms, room, x, Listener, y, Speaker, now) && s3.plans == s.plans;
    ReturnWrites(s3, rooms, k, now, ttl);
  }

  lemma ArrivalWrites(w: World, rooms: Directory, k: Key, now: int, ttl: int)
    requires ttl > 0 && k.0 in rooms && k.1 != rooms[k.0].host && k !in w.presence
    ensures Next(w, Join(k, ALL_WELL), rooms, now, ttl).presence == w.presence[k := Entry(Listener, false, now, None)]
  {
  }

  lemma SecondIsApproved(w: World, rooms: Directory, room: string, x: string, y: string, now: int, ttl: int)
    requires ttl > 0 && room in rooms && x != y && x != rooms[room].host && y != rooms[room].host && rooms[room].maxSpeakers >= 1
    requires w.presence == Three(rooms, room, x, Listener, y, Listener, now)
    ensures Next(w, Approve(room, rooms[room].host, y, ALL_WELL), rooms, now, ttl).presence == Three(rooms, room, x, Listener, y, Speaker, now)
  {
    assert SpeakersOn(w.presence, room, rooms[room].host, now, ttl) == {};
    ApprovalTakesAPlace(w, rooms, room, rooms[room].host, y, ALL_WELL, now, ttl);
  }

  lemma ReturnWrites(s: Race, rooms: Directory, k: Key, now: int, ttl: int)
    requires 1 in s.plans && s.plans[1] == Decision(k, Enter(Some(Entry(Speaker, false, now, None)))) && k.0 in rooms && ttl > 0
    requires k in s.w.presence && s.w.presence[k].hand == None
    ensures NextHalf(s, Write(1), rooms, now, ttl).w.presence == s.w.presence[k := Entry(Speaker, false, now, None)]
  {
  }
}
