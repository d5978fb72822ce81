/**
 * Who may be heard in a room: joining, the host's approval and its withdrawal, muting and leaving, over
 * presence and its durable mirror. Every media credential and every decision is written to a log.
 */
module Speaking {
  import opened Common
  import opened PresenceSpec
  import opened MemoryPresence

  // What never changes about a room.
  datatype Room = Room(host: string, maxSpeakers: nat)

  type Directory = map<string, Room>

  // The open membership row of a user in a room.
  datatype Standing = Standing(role: Role, muted: bool)

  datatype What = Arrived | Touched | Approved(host: Key) | Demoted | HostMuted | Unmuted | Left | Issued(publish: bool)

  datatype Event = Event(what: What, who: Key, at: int)

  datatype World = World(presence: TtlMap, mirror: map<Key, Standing>, log: seq<Event>)

  const START := World(map[], map[], [])

  // What a use case learns elsewhere: the accounts' standing, the join limit, the state of the room.
  datatype Facts = Facts(actorActive: bool, actorRestricted: bool, targetExists: bool, targetGood: bool, withinLimit: bool, joinable: bool)

  datatype Outcome = Done | Refused | NotFound | Full

  predicate CanAct(facts: Facts) {
    facts.actorActive && !facts.actorRestricted
  }

  function Rank(role: Role): nat {
    match role
    case Listener => 0
    case Speaker => 1
    case Host => 2
  }

  predicate AtLeast(role: Role, required: Role) {
    Rank(role) >= Rank(required)
  }

  predicate CanPublish(good: bool, member: Option<Entry>) {
    good && member.Some? && AtLeast(member.value.role, Speaker) && !member.value.muted
  }

  predicate CanModerate(facts: Facts, actor: Option<Entry>, target: string, self: string) {
    facts.actorActive && actor.Some? && actor.value.role == Host && target != self
  }

  function InitialRole(isRoomHost: bool): Role {
    if isRoomHost then Host else Listener
  }

  // The speakers who count against the cap.
  function SpeakersOn(m: TtlMap, room: string, host: string, now: int, ttl: int): set<Key> {
    set k | k in m && k.0 == room && k.1 != host && m[k].role == Speaker && Live(m[k], now, ttl)
  }

  function SetMirror(mirror: map<Key, Standing>, k: Key, c: Change): map<Key, Standing> {
    if k !in mirror then mirror
    else match c {
      case SetRole(role) => mirror[k := mirror[k].(role := role)]
      case SetMuted(muted) => mirror[k := mirror[k].(muted := muted)]
      case SetHand(_) => mirror
    }
  }

  // A change written to presence and to the mirror, and logged if there was an entry to change.
  function Changing(w: World, k: Key, c: Change, what: What, now: int): World {
    World(Patch(w.presence, k, c, now), SetMirror(w.mirror, k, c), if k in w.presence then w.log + [Event(what, k, now)] else w.log)
  }

  function DoJoin(w: World, rooms: Directory, k: Key, facts: Facts, now: int, ttl: int): (World, Outcome) {
    if !CanAct(facts) || !facts.withinLimit then (w, Refused)
    else if k.0 !in rooms then (w, NotFound)
    else if !facts.joinable then (w, Refused)
    else (JoinWith(w, rooms[k.0], k, GetMember(w.presence, k, now, ttl), CanAct(facts), now, ttl), Done)
  }

  // The writes of a join, given the membership it found.
  function JoinWith(w: World, room: Room, k: Key, existing: Option<Entry>, good: bool, now: int, ttl: int): World {
    var role := if existing.Some? then existing.value.role else InitialRole(room.host == k.1);
    var muted := existing.Some? && existing.value.muted;
    var (presence, isNew) := SetOnline(w.presence, k, role, muted, now, ttl);
    var publish := CanPublish(good, GetMember(presence, k, now, ttl));
    World(presence, w.mirror[k := Standing(role, muted)],
      w.log + [Event(if isNew then Arrived else Touched, k, now)] + [Event(Issued(publish), k, now)])
  }

  function DoApprove(w: World, rooms: Directory, room: string, actor: string, target: string, facts: Facts, now: int, ttl: int): (World, Outcome) {
    var k := (room, target);
    if room !in rooms then (w, NotFound)
    else
      var host := GetMember(w.presence, (room, actor), now, ttl);
      if !CanAct(facts) || host.None? || host.value.role != Host then (w, Refused)
      else if |SpeakersOn(w.presence, room, rooms[room].host, now, ttl)| >= rooms[room].maxSpeakers then (w, Full)
      else
        var member := GetMember(w.presence, k, now, ttl);
        if member.None? then (w, NotFound)
        else if AtLeast(member.value.role, Speaker) then (w, Done)
        else if !facts.targetExists then (w, NotFound)
        else ApproveWith(w, k, (room, actor), facts.targetGood, now, ttl)
  }

  // The writes of an approval, once it has decided to give k the floor.
  function ApproveWith(w: World, k: Key, host: Key, good: bool, now: int, ttl: int): (World, Outcome) {
    var w' := Changing(w, k, SetRole(Speaker), Approved(host), now);
    var presence := Patch(w'.presence, k, SetHand(false), now);
    if CanPublish(good, GetMember(presence, k, now, ttl))
    then (World(presence, w'.mirror, w'.log + [Event(Issued(true), k, now)]), Done)
    else (World(presence, w'.mirror, w'.log), Refused)
  }

  function DoRemoveSpeaker(w: World, room: string, actor: string, target: string, facts: Facts, now: int, ttl: int): (World, Outcome) {
    var k := (room, target);
    var member := GetMember(w.presence, k, now, ttl);
    if !CanModerate(facts, GetMember(w.presence, (room, actor), now, ttl), target, actor) then (w, Refused)
    else if member.None? then (w, NotFound)
    else if member.value.role == Listener then (w, Done)
    else (Changing(w, k, SetRole(Listener), Demoted, now), Done)
  }

  function DoStepDown(w: World, k: Key, now: int, ttl: int): (World, Outcome) {
    var member := GetMember(w.presence, k, now, ttl);
    if member.None? then (w, NotFound)
    else if member.value.role != Speaker then (w, Done)
    else (Changing(w, k, SetRole(Listener), Demoted, now), Done)
  }

  function DoMute(w: World, room: string, actor: string, target: string, muted: bool, facts: Facts, now: int, ttl: int): (World, Outcome) {
    var k := (room, target);
    if !CanModerate(facts, GetMember(w.presence, (room, actor), now, ttl), target, actor) then (w, Refused)
    else if GetMember(w.presence, k, now, ttl).None? then (w, NotFound)
    else (Changing(w, k, SetMuted(muted), if muted then HostMuted else Unmuted, now), Done)
  }

  function DoLeave(w: World, k: Key, now: int): World {
    World(SetOffline(w.presence, k), w.mirror - {k}, w.log + [Event(Left, k, now)])
  }

  function DoRaiseHand(w: World, k: Key, raised: bool, facts: Facts, now: int, ttl: int): (World, Outcome) {
    var member := GetMember(w.presence, k, now, ttl);
    if !facts.withinLimit || !CanAct(facts) || member.None? || member.value.muted then (w, Refused)
    else if raised && member.value.role != Listener then (w, Done)
    else (w.(presence := Patch(w.presence, k, SetHand(raised), now)), Done)
  }

  function DoHeartbeat(w: World, k: Key, now: int, ttl: int): World {
    var (presence, refreshed) := Heartbeat(w.presence, k, now, ttl);
    if refreshed then World(presence, w.mirror, w.log + [Event(Touched, k, now)]) else w
  }

  function DoReap(w: World, batch: set<Key>, now: int, ttl: int): World {
    w.(presence := Swept(w.presence, batch, now, ttl))
  }

  // ---- the use cases as the service runs them ----

  class Stage {
    const rooms: Directory
    const presence: MemoryPresenceStore
    var mirror: map<Key, Standing>
    ghost var log: seq<Event>

    constructor (rooms: Directory, presence: MemoryPresenceStore)
      ensures this.rooms == rooms && this.presence == presence && mirror == map[] && log == []
    {
      this.rooms, this.presence := rooms, presence;
      mirror, log := map[], [];
    }

    ghost function State(): World
      reads this, presence
    {
      World(presence.Presence(), mirror, log)
    }

    method Join(room: string, user: string, facts: Facts, now: int) returns (r: Outcome, publish: bool)
      modifies this, presence
      ensures (State(), r) == DoJoin(old(State()), rooms, (room, user), facts, now, presence.ttlMs)
      ensures r == Done ==> log[|log| - 1] == Event(Issued(publish), (room, user), now)
    {
      publish := false;
      if !CanAct(facts) || !facts.withinLimit {
        return Refused, false;
      }
      if room !in rooms {
        return NotFound, false;
      }
      if !facts.joinable {
        return Refused, false;
      }
      var existing := presence.GetMember(room, user, now);
      var role, muted := InitialRole(rooms[room].host == user), false;
      if existing.Some? {
        role, muted := existing.value.role, existing.value.muted;
      }
      var isNewArrival := presence.SetOnline(room, user, role, muted, now);
      mirror := mirror[(room, user) := Standing(role, muted)];
      var membership := presence.GetMember(room, user, now);
      publish := CanPublish(CanAct(facts), membership);
      log := log + [Event(if isNewArrival then Arrived else Touched, (room, user), now)] + [Event(Issued(publish), (room, user), now)];
      return Done, publish;
    }

    method UpdateBoth(room: string, user: string, change: Change, ghost what: What, now: int)
      modifies this, presence
      ensures State() == Changing(old(State()), (room, user), change, what, now)
    {
      if (room, user) in presence.Presence() {
        log := log + [Event(what, (room, user), now)];
      }
      presence.Patch(room, user, change, now);
      mirror := SetMirror(mirror, (room, user), change);
    }

    method ApproveSpeaker(room: string, host: string, user: string, facts: Facts, now: int) returns (r: Outcome)
      modifies this, presence
      ensures (State(), r) == DoApprove(old(State()), rooms, room, host, user, facts, now, presence.ttlMs)
    {
      if room !in rooms {
        return NotFound;
      }
      var hostMembership := presence.GetMember(room, host, now);
      var speakerCount := CountSpeakers(room, now);
      if !CanAct(facts) || hostMembership.None? || hostMembership.value.role != Host {
        return Refused;
      }
      if speakerCount >= rooms[room].maxSpeakers {
        return Full;
      }
      var target := presence.GetMember(room, user, now);
      if target.None? {
        return NotFound;
      }
      if AtLeast(target.value.role, Speaker) {
        return Done;
      }
      if !facts.targetExists {
        return NotFound;
      }
      UpdateBoth(room, user, SetRole(Speaker), Approved((room, host)), now);
      presence.Patch(room, user, SetHand(false), now);
      var updated := presence.GetMember(room, user, now);
      if !CanPublish(facts.targetGood, updated) {
        return Refused;
      }
      log := log + [Event(Issued(true), (room, user), now)];
      return Done;
    }

    method CountSpeakers(room: string, now: int) returns (count: nat)
      requires room in rooms
      ensures count == |SpeakersOn(presence.Presence(), room, rooms[room].host, now, presence.ttlMs)|
    {
      var members := presence.GetRoomMembers(room, now);
      var speakers := set m | m in members && m.1.role == Speaker && m.0 != rooms[room].host;
      SpeakersAreMembers(presence.Presence(), members, room, rooms[room].host, now, presence.ttlMs);
      return |speakers|;
    }

    method RemoveSpeaker(room: string, host: string, user: string, facts: Facts, now: int) returns (r: Outcome)
      modifies this, presence
      ensures (State(), r) == DoRemoveSpeaker(old(State()), room, host, user, facts, now, presence.ttlMs)
    {
      var hostMembership := presence.GetMember(room, host, now);
      if !CanModerate(facts, hostMembership, user, host) {
        return Refused;
      }
      var target := presence.GetMember(room, user, now);
      if target.None? {
        return NotFound;
      }
      if target.value.role == Listener {
        return Done;
      }
      UpdateBoth(room, user, SetRole(Listener), Demoted, now);
      return Done;
    }

    method StepDown(room: string, user: string, now: int) returns (r: Outcome)
      modifies this, presence
      ensures (State(), r) == DoStepDown(old(State()), (room, user), now, presence.ttlMs)
    {
      var membership := presence.GetMember(room, user, now);
      if membership.None? {
        return NotFound;
      }
      if membership.value.role != Speaker {
        return Done;
      }
      UpdateBoth(room, user, SetRole(Listener), Demoted, now);
      return Done;
    }

    method MuteSpeaker(room: string, host: string, user: string, muted: bool, facts: Facts, now: int) returns (r: Outcome)
      modifies this, presence
      ensures (State(), r) == DoMute(old(State()), room, host, user, muted, facts, now, presence.ttlMs)
    {
      var hostMembership := presence.GetMember(room, host, now);
      if !CanModerate(facts, hostMembership, user, host) {
        return Refused;
      }
      var target := presence.GetMember(room, user, now);
      if target.None? {
        return NotFound;
      }
      UpdateBoth(room, user, SetMuted(muted), if muted then HostMuted else Unmuted, now);
      return Done;
    }

    method LeaveRoom(room: string, user: string, now: int)
      modifies this, presence
      ensures State() == DoLeave(old(State()), (room, user), now)
    {
      presence.SetOffline(room, user);
      mirror := mirror - {(room, user)};
      log := log + [Event(Left, (room, user), now)];
    }

    method RaiseHand(room: string, user: string, raised: bool, facts: Facts, now: int) returns (r: Outcome)
      modifies presence
      ensures (State(), r) == DoRaiseHand(old(State()), (room, user), raised, facts, now, presence.ttlMs)
    {
      if !facts.withinLimit {
        return Refused;
      }
      var membership := presence.GetMember(room, user, now);
      if !CanAct(facts) || membership.None? || membership.value.muted {
        return Refused;
      }
      if raised && membership.value.role != Listener {
        return Done;
      }
      presence.Patch(room, user, SetHand(raised), now);
      return Done;
    }
  }

  // Counting members by name is counting their keys.
  lemma SpeakersAreMembers(m: TtlMap, members: set<(string, Entry)>, room: string, host: string, now: int, ttl: int)
    requires members == RoomMembers(m, room, now, ttl)
    ensures |set x | x in members && x.1.role == Speaker && x.0 != host| == |SpeakersOn(m, room, host, now, ttl)|
  {
    var named := set x | x in members && x.1.role == Speaker && x.0 != host;
    var keys := SpeakersOn(m, room, host, now, ttl);
    forall x | x in named ensures (room, x.0) in keys && m[(room, x.0)] == x.1 {
      var k :| k in m && k.0 == room && Live(m[k], now, ttl) && (k.1, m[k]) == x;
      assert k == (room, x.0);
    }
    forall k | k in keys ensures exists x :: x in named && (room, x.0) == k {
      assert (k.1, m[k]) in members;
      assert (k.1, m[k]) in named;
    }
    RenamingKeepsSize(named, keys, (x: (string, Entry)) => (room, x.0));
  }
}
