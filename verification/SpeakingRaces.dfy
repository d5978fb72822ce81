/**
 * Use cases of the stage interleaved, each between its reads and its writes. Not all guarantees of the sequential
 * runs survive this: the use cases write what they decided on an earlier look. It is said exactly when that puts
 * more speakers on a stage than it holds, and exactly when it gives out a credential that nothing warrants.
 */
module SpeakingRaces {
  import opened Common
  import opened PresenceSpec
  import opened Speaking
  import opened SpeakingRuns
  import opened SpeakingExact

  // ---- looking and writing at different moments ----

  // What a use case has decided to write about a member.
  datatype Plan =
    | Enter(existing: Option<Entry>)
    | Promote(host: Key, good: bool)
    | Alter(change: Change, what: What)
    | ShowHand(raised: bool)

  datatype Decision = Decision(k: Key, plan: Plan)

  function DecidedIf(b: bool, k: Key, plan: Plan): Option<Decision> {
    if b then Some(Decision(k, plan)) else None
  }

  // The reads of a use case, all guards included. Leaving, heartbeats and sweeps have none that matter.
  function Decide(w: World, a: Act, rooms: Directory, now: int, ttl: int): Option<Decision> {
    match a
    case Join(k, facts) =>
      DecidedIf(CanAct(facts) && facts.withinLimit && k.0 in rooms && facts.joinable, k, Enter(GetMember(w.presence, k, now, ttl)))
    case Approve(room, actor, target, facts) =>
      DecidedIf(MayApprove(w, rooms, room, actor, target, facts, now, ttl), (room, target), Promote((room, actor), facts.targetGood))
    case RemoveSpeaker(room, actor, target, facts) =>
      var member := GetMember(w.presence, (room, target), now, ttl);
      DecidedIf(CanModerate(facts, GetMember(w.presence, (room, actor), now, ttl), target, actor) && member.Some? && member.value.role != Listener,
        (room, target), Alter(SetRole(Listener), Demoted))
    case StepDown(k) =>
      DecidedIf(IsSpeaker(GetMember(w.presence, k, now, ttl)), k, Alter(SetRole(Listener), Demoted))
    case Mute(room, actor, target, muted, facts) =>
      DecidedIf(CanModerate(facts, GetMember(w.presence, (room, actor), now, ttl), target, actor) && GetMember(w.presence, (room, target), now, ttl).Some?,
        (room, target), Alter(SetMuted(muted), if muted then HostMuted else Unmuted))
    case RaiseHand(k, raised, facts) =>
      var member := GetMember(w.presence, k, now, ttl);
      DecidedIf(facts.withinLimit && CanAct(facts) && member.Some? && !member.value.muted && (raised ==> member.value.role == Listener), k, ShowHand(raised))
    case Leave(_) => None
    case Beat(_) => None
    case Reap(_) => None
  }

  // The writes that follow.
  function Carry(w: World, d: Decision, rooms: Directory, now: int, ttl: int): World {
    match d.plan
    case Enter(existing) => if d.k.0 in rooms then JoinWith(w, rooms[d.k.0], d.k, existing, true, now, ttl) else w
    case Promote(host, good) => ApproveWith(w, d.k, host, good, now, ttl).0
    case Alter(change, what) => Changing(w, d.k, change, what, now)
    case ShowHand(raised) => w.(presence := Patch(w.presence, d.k, SetHand(raised), now))
  }

  predicate IsSplit(a: Act) {
    !a.Leave? && !a.Beat? && !a.Reap?
  }

  /** With nothing between its look and its writes, a use case is the act of the sequential runs. */
  lemma AtOnceIsNext(w: World, a: Act, rooms: Directory, now: int, ttl: int)
    requires IsSplit(a)
    ensures var d := Decide(w, a, rooms, now, ttl);
      Next(w, a, rooms, now, ttl) == if d.Some? then Carry(w, d.value, rooms, now, ttl) else w
  {
  }

  // An act as a whole, or one half of one.
  datatype Half = Whole(a: Act) | Look(id: nat, act: Act) | Write(id: nat)

  datatype Race = Race(w: World, plans: map<nat, Decision>)

  const AT_REST := Race(START, map[])

  function NextHalf(s: Race, h: Half, rooms: Directory, now: int, ttl: int): Race {
    match h
    case Whole(a) => s.(w := Next(s.w, a, rooms, now, ttl))
    case Look(id, a) =>
      var d := Decide(s.w, a, rooms, now, ttl);
      if d.Some? then s.(plans := s.plans[id := d.value]) else s
    case Write(id) =>
      if id in s.plans then Race(Carry(s.w, s.plans[id], rooms, now, ttl), s.plans - {id}) else s
  }

  function AfterHalves(s: Race, halves: seq<(int, Half)>, rooms: Directory, ttl: int): Race
    decreases |halves|
  {
    if halves == [] then s
    else AfterHalves(NextHalf(s, halves[0].1, rooms, halves[0].0, ttl), halves[1..], rooms, ttl)
  }

  predicate InOrder(start: int, halves: seq<(int, Half)>) {
    (forall i :: 0 <= i < |halves| ==> start <= halves[i].0) && (forall i, j :: 0 <= i < j < |halves| ==> halves[i].0 <= halves[j].0)
  }

  function LastOf(halves: seq<(int, Half)>, start: int): int {
    if halves == [] then start else halves[|halves| - 1].0
  }

  // The role and the mute a join carries over.
  function Carried(existing: Option<Entry>): Option<Standing> {
    if existing.Some? then Some(Standing(existing.value.role, existing.value.muted)) else None
  }

  // Whoever has this membership, or none, may speak.
  predicate MaySpeak(rooms: Directory, k: Key, member: Option<Entry>) {
    if member.Some? then AtLeast(member.value.role, Speaker) && !member.value.muted else IsHost(rooms, k)
  }

  predicate IsMuted(member: Option<Entry>) {
    member.Some? && member.value.muted
  }

  predicate IsSpeaker(member: Option<Entry>) {
    member.Some? && member.value.role == Speaker
  }

  // ---- the cap ----

  /**
   * The writes put one speaker too many on a stage that is full: they bring a speaker back who is none any
   * more, or promote a live member who is none yet.
   */
  predicate Overflows(w: World, d: Decision, rooms: Directory, now: int, ttl: int) {
    && d.k.0 in rooms && d.k.1 != rooms[d.k.0].host
    && var member := GetMember(w.presence, d.k, now, ttl);
      && !IsSpeaker(member)
      && (match d.plan {
        case Enter(existing) => IsSpeaker(existing)
        case Promote(_, _) => member.Some?
        case Alter(change, _) => change == SetRole(Speaker) && member.Some?
        case ShowHand(_) => false
      })
      && |SpeakersOn(w.presence, d.k.0, rooms[d.k.0].host, now, ttl)| >= rooms[d.k.0].maxSpeakers
  }

  /** Whatever the look was and whenever it was: writing breaks the cap in exactly this case. */
  lemma WriteOverflowsIff(w: World, d: Decision, rooms: Directory, now: int, ttl: int)
    requires ttl > 0 && Fits(rooms, w.presence, now, ttl)
    ensures !Fits(rooms, Carry(w, d, rooms, now, ttl).presence, now, ttl) <==> Overflows(w, d, rooms, now, ttl)
  {
    var m := Carry(w, d, rooms, now, ttl).presence;
    CarryWrites(w, d, rooms, now, ttl);
    if m != w.presence { EntryFitsIff(rooms, w.presence, d.k, m[d.k], now, ttl); }
  }

  // The writes change at most the entry of their member, which counts afterwards as said here.
  lemma CarryWrites(w: World, d: Decision, rooms: Directory, now: int, ttl: int)
    requires ttl > 0
    ensures var m, member := Carry(w, d, rooms, now, ttl).presence, GetMember(w.presence, d.k, now, ttl);
      && (m == w.presence || (d.k in m && m == w.presence[d.k := m[d.k]]))
      && (d.k.0 in rooms && d.k.1 != rooms[d.k.0].host ==>
        (IsSpeaker(GetMember(m, d.k, now, ttl)) <==>
          match d.plan {
            case Enter(existing) => IsSpeaker(existing)
            case Promote(_, _) => member.Some?
            case Alter(change, _) => member.Some? && (if change.SetRole? then change.role == Speaker else IsSpeaker(member))
            case ShowHand(_) => IsSpeaker(member)
          }))
  {
  }

  // Writing one entry breaks the cap if and only if it makes one more speaker in a room that is full.
  lemma EntryFitsIff(rooms: Directory, m: TtlMap, k: Key, e: Entry, now: int, ttl: int)
    requires Fits(rooms, m, now, ttl)
    ensures Fits(rooms, m[k := e], now, ttl) <==>
      !(k.0 in rooms && !Counts(m, k, rooms[k.0].host, now, ttl) && Counts(m[k := e], k, rooms[k.0].host, now, ttl)
        && |SpeakersOn(m, k.0, rooms[k.0].host, now, ttl)| >= rooms[k.0].maxSpeakers)
  {
    forall room | room in rooms && room != k.0
      ensures |SpeakersOn(m[k := e], room, rooms[room].host, now, ttl)| <= rooms[room].maxSpeakers
    {
      assert SpeakersOn(m[k := e], room, rooms[room].host, now, ttl) == SpeakersOn(m, room, rooms[room].host, now, ttl);
    }
    if k.0 in rooms { SpeakersAfter(m, k, e, rooms[k.0].host, now, ttl); }
  }

  predicate HalfOverflows(s: Race, h: Half, rooms: Directory, now: int, ttl: int) {
    h.Write? && h.id in s.plans && Overflows(s.w, s.plans[h.id], rooms, now, ttl)
  }

  lemma HalfFitsIff(s: Race, h: Half, rooms: Directory, now: int, ttl: int)
    requires ttl > 0 && Fits(rooms, s.w.presence, now, ttl)
    ensures Fits(rooms, NextHalf(s, h, rooms, now, ttl).w.presence, now, ttl) <==> !HalfOverflows(s, h, rooms, now, ttl)
  {
    match h
    case Whole(a) => StepFits(s.w, a, rooms, now, ttl);
    case Look(_, _) =>
    case Write(id) => if id in s.plans { WriteOverflowsIff(s.w, s.plans[id], rooms, now, ttl); }
  }

  // Every room is within its limit after each half.
  ghost predicate AlwaysFits(s: Race, halves: seq<(int, Half)>, rooms: Directory, ttl: int)
    decreases |halves|
  {
    halves == [] ||
    (var s' := NextHalf(s, halves[0].1, rooms, halves[0].0, ttl);
     Fits(rooms, s'.w.presence, halves[0].0, ttl) && AlwaysFits(s', halves[1..], rooms, ttl))
  }

  predicate NoneOverflows(s: Race, halves: seq<(int, Half)>, rooms: Directory, ttl: int)
    decreases |halves|
  {
    halves == [] ||
    (!HalfOverflows(s, halves[0].1, rooms, halves[0].0, ttl) && NoneOverflows(NextHalf(s, halves[0].1, rooms, halves[0].0, ttl), halves[1..], rooms, ttl))
  }

  /**
   * Over every run of use cases overlapping in any way, any number of approvals among them: the stage is
   * within its limit throughout if and only if no write put one speaker too many on a full one.
   */
  lemma CapHoldsIff(halves: seq<(int, Half)>, rooms: Directory, start: int, ttl: int)
    requires ttl > 0 && InOrder(start, halves)
    ensures AlwaysFits(AT_REST, halves, rooms, ttl) <==> NoneOverflows(AT_REST, halves, rooms, ttl)
  {
    EmptyFits(rooms, start, ttl);
    FitsThroughoutIff(AT_REST, halves, rooms, start, ttl);
  }

  lemma {:induction false} FitsThroughoutIff(s: Race, halves: seq<(int, Half)>, rooms: Directory, start: int, ttl: int)
    requires ttl > 0 && InOrder(start, halves) && Fits(rooms, s.w.presence, start, ttl)
    ensures AlwaysFits(s, halves, rooms, ttl) <==> NoneOverflows(s, halves, rooms, ttl)
    decreases |halves|
  {
    if halves != [] {
      var (now, h) := halves[0];
      LaterFits(rooms, s.w.presence, start, now, ttl);
      HalfFitsIff(s, h, rooms, now, ttl);
      if !HalfOverflows(s, h, rooms, now, ttl) {
        FitsThroughoutIff(NextHalf(s, h, rooms, now, ttl), halves[1..], rooms, now, ttl);
      }
    }
  }

  /** And then the live speakers of a room, its host apart, are within its limit at every later moment. */
  lemma CapHoldsAfterwards(halves: seq<(int, Half)>, rooms: Directory, start: int, now: int, ttl: int, room: string)
    requires ttl > 0 && InOrder(start, halves) && NoneOverflows(AT_REST, halves, rooms, ttl) && LastOf(halves, start) <= now && room in rooms
    ensures |SpeakersOn(AfterHalves(AT_REST, halves, rooms, ttl).w.presence, room, rooms[room].host, now, ttl)| <= rooms[room].maxSpeakers
  {
    EmptyFits(rooms, start, ttl);
    FitsAtTheEnd(AT_REST, halves, rooms, start, ttl);
    LaterFits(rooms, AfterHalves(AT_REST, halves, rooms, ttl).w.presence, LastOf(halves, start), now, ttl);
  }

  lemma {:induction false} FitsAtTheEnd(s: Race, halves: seq<(int, Half)>, rooms: Directory, start: int, ttl: int)
    requires ttl > 0 && InOrder(start, halves) && Fits(rooms, s.w.presence, start, ttl) && NoneOverflows(s, halves, rooms, ttl)
    ensures Fits(rooms, AfterHalves(s, halves, rooms, ttl).w.presence, LastOf(halves, start), ttl)
    decreases |halves|
  {
    if halves != [] {
      var (now, h) := halves[0];
      LaterFits(rooms, s.w.presence, start, now, ttl);
      HalfFitsIff(s, h, rooms, now, ttl);
      FitsAtTheEnd(NextHalf(s, h, rooms, now, ttl), halves[1..], rooms, now, ttl);
    }
  }

  /** A join that finds the role it read never overflows the stage: of timely joins and approvals, only an approval can. */
  lemma OnlyApprovalsOverflow(s: Race, h: Half, rooms: Directory, now: int, ttl: int)
    requires HalfOverflows(s, h, rooms, now, ttl) && IsTimely(s, h, now, ttl)
    requires forall id :: id in s.plans ==> IsLawful(rooms, s.plans[id])
    ensures s.plans[h.id].plan.Promote?
  {
  }

  /**
   * Two approvals that both found a free place before either wrote take two: they fit exactly if there were
   * two. One after the other, the second would have been refused with one.
   */
  lemma OverlappingApprovalsNeedTwoPlaces(w: World, rooms: Directory, room: string, x: string, y: string, now: int, ttl: int)
    requires room in rooms && x != y && x != rooms[room].host && y != rooms[room].host
    requires (room, x) in w.presence && (room, y) in w.presence
    requires Live(w.presence[(room, x)], now, ttl) && Live(w.presence[(room, y)], now, ttl)
    requires w.presence[(room, x)].role == Listener == w.presence[(room, y)].role
    requires |SpeakersOn(w.presence, room, rooms[room].host, now, ttl)| < rooms[room].maxSpeakers
    ensures var host, before := (room, rooms[room].host), |SpeakersOn(w.presence, room, rooms[room].host, now, ttl)|;
      var both := ApproveWith(ApproveWith(w, (room, x), host, true, now, ttl).0, (room, y), host, true, now, ttl).0;
      |SpeakersOn(both.presence, room, rooms[room].host, now, ttl)| <= rooms[room].maxSpeakers <==> before + 2 <= rooms[room].maxSpeakers
  {
    var host := (room, rooms[room].host);
    PromotionAddsOne(w, rooms, room, x, now, ttl);
    PromotionAddsOne(ApproveWith(w, (room, x), host, true, now, ttl).0, rooms, room, y, now, ttl);
  }

  lemma PromotionAddsOne(w: World, rooms: Directory, room: string, x: string, now: int, ttl: int)
    requires room in rooms && x != rooms[room].host && (room, x) in w.presence
    requires Live(w.presence[(room, x)], now, ttl) && w.presence[(room, x)].role == Listener
    ensures var w' := ApproveWith(w, (room, x), (room, rooms[room].host), true, now, ttl).0;
      && |SpeakersOn(w'.presence, room, rooms[room].host, now, ttl)| == |SpeakersOn(w.presence, room, rooms[room].host, now, ttl)| + 1
      && forall k :: k != (room, x) ==> (k in w'.presence <==> k in w.presence) && (k in w.presence ==> w'.presence[k] == w.presence[k])
  {
    var w' := ApproveWith(w, (room, x), (room, rooms[room].host), true, now, ttl).0;
    assert w'.presence == w.presence[(room, x) := w'.presence[(room, x)]];
    SpeakersAfter(w.presence, (room, x), w'.presence[(room, x)], rooms[room].host, now, ttl);
  }

  // ---- credentials ----

  // The writes of a join find the standing that its look found; no other use case needs that.
  predicate IsTimely(s: Race, h: Half, now: int, ttl: int) {
    h.Write? && h.id in s.plans && s.plans[h.id].plan.Enter? ==>
      Carried(s.plans[h.id].plan.existing) == Carried(GetMember(s.w.presence, s.plans[h.id].k, now, ttl))
  }

  predicate AllTimely(s: Race, halves: seq<(int, Half)>, rooms: Directory, ttl: int)
    decreases |halves|
  {
    halves == [] ||
    (IsTimely(s, halves[0].1, halves[0].0, ttl) && AllTimely(NextHalf(s, halves[0].1, rooms, halves[0].0, ttl), halves[1..], rooms, ttl))
  }

  // The log as the writes of a join leave it, before the credential.
  function LogAtCredential(w: World, k: Key, now: int, ttl: int): seq<Event> {
    w.log + [Event(if GetMember(w.presence, k, now, ttl).Some? then Touched else Arrived, k, now)]
  }

  // By the log, k is muted at this instant; by the log, k has the floor.
  ghost predicate MutedByLog(log: seq<Event>, k: Key) {
    !NotMuted(log, k)
  }

  ghost predicate FloorByLog(rooms: Directory, log: seq<Event>, k: Key, now: int, ttl: int) {
    HasGrant(rooms, log, k, now + 1, ttl)
  }

  /**
   * What a join may issue depends on what it found when it looked, what warrants it on what is there when it
   * writes: for whatever it found, the credential lets it publish if and only if that membership may speak, and
   * publishing is warranted if and only if the membership at the moment of the writes may speak.
   */
  lemma WarrantIffCurrent(w: World, rooms: Directory, k: Key, existing: Option<Entry>, now: int, ttl: int)
    requires ttl > 0 && k.0 in rooms && Sound(w, rooms, now, ttl) && IsRecorded(w, rooms, now, ttl)
    ensures var log := LogAtCredential(w, k, now, ttl);
      && JoinWith(w, rooms[k.0], k, existing, true, now, ttl).log == log + [Event(Issued(MaySpeak(rooms, k, existing)), k, now)]
      && (Warranted(rooms, log, k, now, ttl) <==> MaySpeak(rooms, k, GetMember(w.presence, k, now, ttl)))
  {
    LogShowsStanding(w, rooms, k, now, ttl);
  }

  /**
   * What a join writes agrees with the log, in its mute and in its role, if and only if the mute and the role
   * that it read are the ones there now: otherwise it undoes, or redoes, what was decided in between.
   */
  lemma CarriedIsRightIff(w: World, rooms: Directory, k: Key, existing: Option<Entry>, now: int, ttl: int)
    requires ttl > 0 && k.0 in rooms && Sound(w, rooms, now, ttl) && IsRecorded(w, rooms, now, ttl)
    ensures var log, current := LogAtCredential(w, k, now, ttl), GetMember(w.presence, k, now, ttl);
      var written := GetMember(JoinWith(w, rooms[k.0], k, existing, true, now, ttl).presence, k, now, ttl);
      && ((IsMuted(written) <==> MutedByLog(log, k)) <==> (IsMuted(existing) <==> IsMuted(current)))
      && ((IsSpeaker(written) <==> FloorByLog(rooms, log, k, now, ttl)) <==> (IsSpeaker(existing) <==> IsSpeaker(current)))
  {
    LogShowsStanding(w, rooms, k, now, ttl);
  }

  lemma LogShowsStanding(w: World, rooms: Directory, k: Key, now: int, ttl: int)
    requires ttl > 0 && AllRest(rooms, w.presence, w.log, now, ttl) && IsRecorded(w, rooms, now, ttl)
    ensures var log, current := LogAtCredential(w, k, now, ttl), GetMember(w.presence, k, now, ttl);
      && (MutedByLog(log, k) <==> IsMuted(current))
      && (FloorByLog(rooms, log, k, now, ttl) <==> IsSpeaker(current))
      && (current.Some? ==> (current.value.role == Host <==> IsHost(rooms, k)))
  {
    if GetMember(w.presence, k, now, ttl).Some? {
      TouchRests(rooms, w.log, k, w.presence[k], now, ttl);
      if w.presence[k].muted { MuteKept(w.log, Event(Touched, k, now), k); }
      if w.presence[k].role == Speaker {
        GrantLasts(rooms, LogAtCredential(w, k, now, ttl), k, now, ttl);
      } else {
        OthersHaveNoGrant(w, rooms, k, now, ttl);
      }
    } else {
      ArrivalEndsAll(rooms, w.log, k, now, ttl);
    }
  }

  lemma GrantLasts(rooms: Directory, log: seq<Event>, k: Key, now: int, ttl: int)
    requires ttl > 0 && HasGrant(rooms, log, k, now + ttl, ttl)
    ensures FloorByLog(rooms, log, k, now, ttl)
  {
    var until := now + ttl;
    var i :| GrantStands(rooms, log, k, i, until, ttl);
    var sooner := now + 1;
    assert GrantStands(rooms, log, k, i, sooner, ttl);
  }

  lemma OthersHaveNoGrant(w: World, rooms: Directory, k: Key, now: int, ttl: int)
    requires AllRest(rooms, w.presence, w.log, now, ttl) && IsRecorded(w, rooms, now, ttl)
    requires k in w.presence && Live(w.presence[k], now, ttl) && w.presence[k].role != Speaker
    ensures !FloorByLog(rooms, w.log + [Event(Touched, k, now)], k, now, ttl)
  {
    var ev := Event(Touched, k, now);
    var touched := World(w.presence[k := w.presence[k].(lastSeenMs := now)], w.mirror, w.log + [ev]);
    ChangeIsRecorded(w, touched, rooms, ev, now, ttl);
    if FloorByLog(rooms, touched.log, k, now, ttl) {
      GrantHasSpeaker(touched, rooms, k, now, ttl);
    }
  }

  // An arrival ends whatever stood before it.
  lemma ArrivalEndsAll(rooms: Directory, log: seq<Event>, k: Key, now: int, ttl: int)
    ensures var log' := log + [Event(Arrived, k, now)]; !MutedByLog(log', k) && !FloorByLog(rooms, log', k, now, ttl)
  {
    var log' := log + [Event(Arrived, k, now)];
    EndedMute(log, Event(Arrived, k, now), k);
    assert EndsGrant(log'[|log|], k);
  }

  // Approvals are the word of the room's host, and nobody alters the host's own role.
  predicate IsLawful(rooms: Directory, d: Decision) {
    match d.plan
    case Enter(_) => true
    case Promote(host, _) => host.0 == d.k.0 && IsHost(rooms, host) && !IsHost(rooms, d.k)
    case Alter(change, what) =>
      || (change == SetRole(Listener) && what == Demoted && !IsHost(rooms, d.k))
      || (change.SetMuted? && what == if change.muted then HostMuted else Unmuted)
    case ShowHand(_) => true
  }

  lemma DecidedIsLawful(w: World, a: Act, rooms: Directory, now: int, ttl: int)
    requires AllRest(rooms, w.presence, w.log, now, ttl) && Decide(w, a, rooms, now, ttl).Some?
    ensures IsLawful(rooms, Decide(w, a, rooms, now, ttl).value)
  {
    match a
    case Approve(room, actor, target, _) => HostIsHost(w, rooms, (room, actor), now, ttl);
    case RemoveSpeaker(room, actor, target, _) => HostIsHost(w, rooms, (room, actor), now, ttl);
    case _ =>
  }

  ghost predicate Holds(s: Race, rooms: Directory, now: int, ttl: int) {
    Sound(s.w, rooms, now, ttl) && IsRecorded(s.w, rooms, now, ttl) && forall id :: id in s.plans ==> IsLawful(rooms, s.plans[id])
  }

  lemma HalfHolds(s: Race, h: Half, rooms: Directory, now: int, ttl: int)
    requires Holds(s, rooms, now, ttl) && IsTimely(s, h, now, ttl)
    ensures Holds(NextHalf(s, h, rooms, now, ttl), rooms, now, ttl)
  {
    match h
    case Whole(a) =>
      StepIsRecorded(s.w, a, rooms, now, ttl);
      StepIsSound(s.w, a, rooms, now, ttl);
    case Look(_, a) =>
      if Decide(s.w, a, rooms, now, ttl).Some? { DecidedIsLawful(s.w, a, rooms, now, ttl); }
    case Write(id) =>
      if id in s.plans { CarryHolds(s.w, s.plans[id], rooms, now, ttl); }
  }

  lemma CarryHolds(w: World, d: Decision, rooms: Directory, now: int, ttl: int)
    requires Sound(w, rooms, now, ttl) && IsRecorded(w, rooms, now, ttl) && IsLawful(rooms, d)
    requires d.plan.Enter? ==> Carried(d.plan.existing) == Carried(GetMember(w.presence, d.k, now, ttl))
    ensures var v := Carry(w, d, rooms, now, ttl); Sound(v, rooms, now, ttl) && IsRecorded(v, rooms, now, ttl)
  {
    match d.plan
    case Enter(existing) => if d.k.0 in rooms { EnterHolds(w, d.k, existing, rooms, now, ttl); }
    case Promote(host, good) => PromoteHolds(w, d.k, host, good, rooms, now, ttl);
    case Alter(change, what) => AlterHolds(w, d.k, change, what, rooms, now, ttl);
    case ShowHand(raised) => HandHolds(w, d.k, raised, rooms, now, ttl);
  }

  // A timely join is the join of the sequential runs.
  lemma EnterHolds(w: World, k: Key, existing: Option<Entry>, rooms: Directory, now: int, ttl: int)
    requires Sound(w, rooms, now, ttl) && IsRecorded(w, rooms, now, ttl) && k.0 in rooms
    requires Carried(existing) == Carried(GetMember(w.presence, k, now, ttl))
    ensures var v := JoinWith(w, rooms[k.0], k, existing, true, now, ttl); Sound(v, rooms, now, ttl) && IsRecorded(v, rooms, now, ttl)
  {
    assert JoinWith(w, rooms[k.0], k, existing, true, now, ttl) == DoJoin(w, rooms, k, ALL_WELL, now, ttl).0;
    JoinIsRecorded(w, rooms, k, ALL_WELL, now, ttl);
    JoinIsSound(w, rooms, k, ALL_WELL, now, ttl);
  }

  // An approval may be late: whoever has left meanwhile is left alone, and anybody present is promoted by the host.
  lemma PromoteHolds(w: World, k: Key, host: Key, good: bool, rooms: Directory, now: int, ttl: int)
    requires Sound(w, rooms, now, ttl) && IsRecorded(w, rooms, now, ttl)
    requires host.0 == k.0 && IsHost(rooms, host) && !IsHost(rooms, k)
    ensures var v := ApproveWith(w, k, host, good, now, ttl).0; Sound(v, rooms, now, ttl) && IsRecorded(v, rooms, now, ttl)
  {
    var v := ApproveWith(w, k, host, good, now, ttl).0;
    if k in w.presence {
      var promoted := Promoted(w, k, host, now);
      ApproveWithWrites(w, k, host, good, now, ttl);
      PromotionIsSound(w, rooms, k, host, now, ttl);
      PromotionIsRecorded(w, rooms, k, host, now, ttl);
      if v != promoted {
        CredentialIsSound(promoted, rooms, k, true, now, ttl);
        CredentialKeepsRecord(rooms, promoted.presence, promoted.log, k, true, now, ttl);
      }
    } else {
      OnlyMirrorHolds(w, v, rooms, now, ttl);
    }
  }

  lemma OnlyMirrorHolds(w: World, v: World, rooms: Directory, now: int, ttl: int)
    requires Sound(w, rooms, now, ttl) && IsRecorded(w, rooms, now, ttl)
    requires v.presence == w.presence && v.log == w.log && forall k :: k in w.presence ==> k in v.mirror && k in w.mirror && v.mirror[k] == w.mirror[k]
    ensures Sound(v, rooms, now, ttl) && IsRecorded(v, rooms, now, ttl)
  {
  }

  lemma AlterHolds(w: World, k: Key, change: Change, what: What, rooms: Directory, now: int, ttl: int)
    requires Sound(w, rooms, now, ttl) && IsRecorded(w, rooms, now, ttl) && IsLawful(rooms, Decision(k, Alter(change, what)))
    ensures var v := Changing(w, k, change, what, now); Sound(v, rooms, now, ttl) && IsRecorded(v, rooms, now, ttl)
  {
    if k in w.presence {
      PatchIsRecorded(w, rooms, k, change, what, now, ttl);
      if change.SetMuted? {
        MuteRests(rooms, w.log, k, w.presence[k], change.muted, now, ttl);
        EntryIsSound(w, rooms, k, w.presence[k].(muted := change.muted), Event(what, k, now), now, ttl);
      } else {
        DemotionIsSound(w, rooms, k, now, ttl);
      }
    } else {
      OnlyMirrorHolds(w, Changing(w, k, change, what, now), rooms, now, ttl);
    }
  }

  lemma HandHolds(w: World, k: Key, raised: bool, rooms: Directory, now: int, ttl: int)
    requires Sound(w, rooms, now, ttl) && IsRecorded(w, rooms, now, ttl)
    ensures var v := w.(presence := Patch(w.presence, k, SetHand(raised), now)); Sound(v, rooms, now, ttl) && IsRecorded(v, rooms, now, ttl)
  {
    var v := w.(presence := Patch(w.presence, k, SetHand(raised), now));
    HandIsRecorded(w, rooms, k, raised, now, ttl);
    if k in w.presence {
      assert v.presence == w.presence[k := w.presence[k].(hand := v.presence[k].hand)];
      HandKeepsRest(rooms, w.presence, w.log, k, v.presence[k].hand, now, ttl);
      SameStandingIsMirrored(w, v);
      Conclude(v, rooms, now, ttl);
    }
  }

  lemma SameStandingIsMirrored(w: World, v: World)
    requires Mirrored(w.presence, w.mirror) && v.mirror == w.mirror
    requires forall k :: k in v.presence ==> k in w.presence && v.presence[k].role == w.presence[k].role && v.presence[k].muted == w.presence[k].muted
    ensures Mirrored(v.presence, v.mirror)
  {
  }

  lemma {:induction false} TimelyRunHolds(s: Race, halves: seq<(int, Half)>, rooms: Directory, start: int, ttl: int)
    requires Holds(s, rooms, start, ttl) && InOrder(start, halves) && AllTimely(s, halves, rooms, ttl)
    ensures Holds(AfterHalves(s, halves, rooms, ttl), rooms, LastOf(halves, start), ttl)
    decreases |halves|
  {
    if halves != [] {
      var (now, h) := halves[0];
      LaterHolds(s, rooms, start, now, ttl);
      HalfHolds(s, h, rooms, now, ttl);
      TimelyRunHolds(NextHalf(s, h, rooms, now, ttl), halves[1..], rooms, now, ttl);
    }
  }

  lemma LaterHolds(s: Race, rooms: Directory, now: int, later: int, ttl: int)
    requires Holds(s, rooms, now, ttl) && now <= later
    ensures Holds(s, rooms, later, ttl)
  {
    LaterIsSound(s.w, rooms, now, later, ttl);
    LaterIsRecorded(rooms, s.w.presence, s.w.log, now, later, ttl);
  }

  /**
   * However use cases overlap, as long as each join finds, when it writes, the role and the mute it read:
   * every credential to publish is warranted.
   */
  lemma TimelyJoinsAreWarranted(halves: seq<(int, Half)>, rooms: Directory, start: int, ttl: int, n: nat)
    requires InOrder(start, halves) && AllTimely(AT_REST, halves, rooms, ttl)
    requires n < |AfterHalves(AT_REST, halves, rooms, ttl).w.log| && AfterHalves(AT_REST, halves, rooms, ttl).w.log[n].what == Issued(true)
    ensures var log := AfterHalves(AT_REST, halves, rooms, ttl).w.log; Warranted(rooms, log[..n], log[n].who, log[n].at, ttl)
  {
    TimelyRunHolds(AT_REST, halves, rooms, start, ttl);
  }

  // The decision is to let somebody in who could speak at the look, and cannot any more.
  predicate GoesWrong(w: World, d: Decision, rooms: Directory, now: int, ttl: int) {
    && d.plan.Enter? && d.k.0 in rooms
    && MaySpeak(rooms, d.k, d.plan.existing) && !MaySpeak(rooms, d.k, GetMember(w.presence, d.k, now, ttl))
  }

  /**
   * And the next use case to write, timely or not, leaves a credential that nothing warrants in exactly one
   * case: it is a join, the membership it read may speak, and the one there now may not.
   */
  lemma WriteGoesWrongIff(halves: seq<(int, Half)>, rooms: Directory, start: int, now: int, ttl: int, id: nat)
    requires ttl > 0 && InOrder(start, halves) && AllTimely(AT_REST, halves, rooms, ttl) && LastOf(halves, start) <= now
    requires id in AfterHalves(AT_REST, halves, rooms, ttl).plans
    ensures var s := AfterHalves(AT_REST, halves, rooms, ttl);
      !AllWarranted(rooms, NextHalf(s, Write(id), rooms, now, ttl).w.log, ttl) <==> GoesWrong(s.w, s.plans[id], rooms, now, ttl)
  {
    TimelyRunHolds(AT_REST, halves, rooms, start, ttl);
    var s := AfterHalves(AT_REST, halves, rooms, ttl);
    LaterHolds(s, rooms, LastOf(halves, start), now, ttl);
    CarryGoesWrongIff(s.w, s.plans[id], rooms, now, ttl);
  }

  lemma CarryGoesWrongIff(w: World, d: Decision, rooms: Directory, now: int, ttl: int)
    requires ttl > 0 && Sound(w, rooms, now, ttl) && IsRecorded(w, rooms, now, ttl) && IsLawful(rooms, d)
    ensures !AllWarranted(rooms, Carry(w, d, rooms, now, ttl).log, ttl) <==> GoesWrong(w, d, rooms, now, ttl)
  {
    if d.plan.Enter? {
      if d.k.0 in rooms { JoinGoesWrongIff(w, rooms, d.k, d.plan.existing, now, ttl); }
    } else {
      CarryHolds(w, d, rooms, now, ttl);
    }
  }

  lemma JoinGoesWrongIff(w: World, rooms: Directory, k: Key, existing: Option<Entry>, now: int, ttl: int)
    requires ttl > 0 && k.0 in rooms && Sound(w, rooms, now, ttl) && IsRecorded(w, rooms, now, ttl)
    ensures !AllWarranted(rooms, JoinWith(w, rooms[k.0], k, existing, true, now, ttl).log, ttl)
      <==> MaySpeak(rooms, k, existing) && !MaySpeak(rooms, k, GetMember(w.presence, k, now, ttl))
  {
    WarrantIffCurrent(w, rooms, k, existing, now, ttl);
    EventKeepsWarrants(rooms, w.log, LogAtCredential(w, k, now, ttl)[|w.log|], ttl);
    LastWarrantDecides(rooms, LogAtCredential(w, k, now, ttl), Event(Issued(MaySpeak(rooms, k, existing)), k, now), ttl);
  }

  lemma LastWarrantDecides(rooms: Directory, log: seq<Event>, issued: Event, ttl: int)
    requires AllWarranted(rooms, log, ttl)
    ensures AllWarranted(rooms, log + [issued], ttl) <==> (issued.what == Issued(true) ==> Warranted(rooms, log, issued.who, issued.at, ttl))
  {
    var log' := log + [issued];
    assert log'[|log|] == issued && log'[..|log|] == log;
    if issued.what == Issued(true) ==> Warranted(rooms, log, issued.who, issued.at, ttl) { EventKeepsWarrants(rooms, log, issued, ttl); }
  }
}
