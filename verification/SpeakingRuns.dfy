/**
 * What holds over every run of a stage: a credential to publish needs the host's standing approval, a
 * mute outlives reconnecting, the stage never overflows, and the durable mirror agrees with presence.
 */
module SpeakingRuns {
  import opened Common
  import opened PresenceSpec
  import opened Speaking

  datatype Act =
    | Join(k: Key, facts: Facts)
    | Approve(room: string, actor: string, target: string, facts: Facts)
    | RemoveSpeaker(room: string, actor: string, target: string, facts: Facts)
    | StepDown(k: Key)
    | Mute(room: string, actor: string, target: string, muted: bool, facts: Facts)
    | Leave(k: Key)
    | RaiseHand(k: Key, raised: bool, facts: Facts)
    | Beat(k: Key)
    | Reap(batch: set<Key>)

  type Timed = (int, Act)

  function Next(w: World, a: Act, rooms: Directory, now: int, ttl: int): World {
    match a
    case Join(k, facts) => DoJoin(w, rooms, k, facts, now, ttl).0
    case Approve(room, actor, target, facts) => DoApprove(w, rooms, room, actor, target, facts, now, ttl).0
    case RemoveSpeaker(room, actor, target, facts) => DoRemoveSpeaker(w, room, actor, target, facts, now, ttl).0
    case StepDown(k) => DoStepDown(w, k, now, ttl).0
    case Mute(room, actor, target, muted, facts) => DoMute(w, room, actor, target, muted, facts, now, ttl).0
    case Leave(k) => DoLeave(w, k, now)
    case RaiseHand(k, raised, facts) => DoRaiseHand(w, k, raised, facts, now, ttl).0
    case Beat(k) => DoHeartbeat(w, k, now, ttl)
    case Reap(batch) => DoReap(w, batch, now, ttl)
  }

  predicate Nondecreasing(start: int, acts: seq<Timed>) {
    (forall i :: 0 <= i < |acts| ==> start <= acts[i].0) && (forall i, j :: 0 <= i < j < |acts| ==> acts[i].0 <= acts[j].0)
  }

  function After(w: World, acts: seq<Timed>, rooms: Directory, ttl: int): World
    decreases |acts|
  {
    if acts == [] then w else After(Next(w, acts[0].1, rooms, acts[0].0, ttl), acts[1..], rooms, ttl)
  }

  function EndOf(acts: seq<Timed>, start: int): int {
    if acts == [] then start else acts[|acts| - 1].0
  }

  // ---- what the log must show ----

  predicate IsHost(rooms: Directory, k: Key) {
    k.0 in rooms && rooms[k.0].host == k.1
  }

  predicate IsSign(e: Event, k: Key) {
    e.who == k && (e.what == Arrived || e.what == Touched)
  }

  // At instant t the last join or heartbeat was younger than the time to live.
  ghost predicate PresentAt(log: seq<Event>, k: Key, t: int, ttl: int) {
    exists s :: 0 <= s < |log| && IsSign(log[s], k) && log[s].at <= t < log[s].at + ttl
  }

  predicate EndsGrant(e: Event, k: Key) {
    e.who == k && (e.what == Demoted || e.what == Left || e.what == Arrived)
  }

  /**
   * The host approved k in event i, and since then k was neither demoted, nor left, nor arrived anew, and
   * was present at every instant up to the given one.
   */
  ghost predicate GrantStands(rooms: Directory, log: seq<Event>, k: Key, i: int, until: int, ttl: int) {
    && 0 <= i < |log| && log[i].who == k
    && log[i].what.Approved? && log[i].what.host.0 == k.0 && IsHost(rooms, log[i].what.host)
    && (forall j :: i < j < |log| ==> !EndsGrant(log[j], k))
    && (forall t :: log[i].at <= t < until ==> PresentAt(log, k, t, ttl))
  }

  ghost predicate HasGrant(rooms: Directory, log: seq<Event>, k: Key, until: int, ttl: int) {
    exists i :: GrantStands(rooms, log, k, i, until, ttl)
  }

  predicate EndsMute(e: Event, k: Key) {
    e.who == k && (e.what == Unmuted || e.what == Left || e.what == Arrived)
  }

  // Every time the host muted k, something ended it later.
  ghost predicate NotMuted(log: seq<Event>, k: Key) {
    forall j :: 0 <= j < |log| && log[j].who == k && log[j].what == HostMuted ==> exists l :: j < l < |log| && EndsMute(log[l], k)
  }

  // What a credential to publish, issued as the next event, must rest on.
  ghost predicate Warranted(rooms: Directory, log: seq<Event>, k: Key, now: int, ttl: int) {
    NotMuted(log, k) && (IsHost(rooms, k) || HasGrant(rooms, log, k, now + 1, ttl))
  }

  // ---- what an entry rests on ----

  ghost predicate Rests(rooms: Directory, log: seq<Event>, k: Key, e: Entry, ttl: int) {
    && (exists s :: 0 <= s < |log| && IsSign(log[s], k) && log[s].at == e.lastSeenMs)
    && (e.role == Host <==> IsHost(rooms, k))
    && (e.role == Speaker ==> HasGrant(rooms, log, k, e.lastSeenMs + ttl, ttl))
    && (!e.muted ==> NotMuted(log, k))
  }

  lemma PresentStays(log: seq<Event>, e: Event, k: Key, t: int, ttl: int)
    requires PresentAt(log, k, t, ttl)
    ensures PresentAt(log + [e], k, t, ttl)
  {
    var s :| 0 <= s < |log| && IsSign(log[s], k) && log[s].at <= t < log[s].at + ttl;
    assert (log + [e])[s] == log[s];
  }

  // One more event leaves a grant standing, and a sign of life carries it further.
  lemma GrantGrows(rooms: Directory, log: seq<Event>, e: Event, k: Key, i: int, until: int, longer: int, ttl: int)
    requires GrantStands(rooms, log, k, i, until, ttl) && !EndsGrant(e, k)
    requires longer <= until || (IsSign(e, k) && e.at <= until && longer <= e.at + ttl)
    ensures GrantStands(rooms, log + [e], k, i, longer, ttl)
  {
    var log' := log + [e];
    forall t | log'[i].at <= t < longer ensures PresentAt(log', k, t, ttl) {
      if t < until {
        PresentStays(log, e, k, t, ttl);
      } else {
        assert IsSign(log'[|log|], k) && log'[|log|].at <= t < log'[|log|].at + ttl;
      }
    }
  }

  lemma NotMutedStays(log: seq<Event>, e: Event, k: Key)
    requires NotMuted(log, k) && !(e.who == k && e.what == HostMuted)
    ensures NotMuted(log + [e], k)
  {
    var log' := log + [e];
    forall j | 0 <= j < |log'| && log'[j].who == k && log'[j].what == HostMuted ensures exists l :: j < l < |log'| && EndsMute(log'[l], k) {
      assert log[j] == log'[j];
      var l :| j < l < |log| && EndsMute(log[l], k);
      assert log'[l] == log[l];
    }
  }

  lemma EndedMute(log: seq<Event>, e: Event, k: Key)
    requires EndsMute(e, k)
    ensures NotMuted(log + [e], k)
  {
    var log' := log + [e];
    assert EndsMute(log'[|log|], k);
  }

  lemma SignStays(log: seq<Event>, e: Event, k: Key, at: int)
    requires exists s :: 0 <= s < |log| && IsSign(log[s], k) && log[s].at == at
    ensures var log' := log + [e]; exists s :: 0 <= s < |log'| && IsSign(log'[s], k) && log'[s].at == at
  {
    var s :| 0 <= s < |log| && IsSign(log[s], k) && log[s].at == at;
    assert (log + [e])[s] == log[s];
  }

  // Events about others, and credentials, take nothing away.
  lemma OthersEventKeeps(rooms: Directory, log: seq<Event>, ev: Event, k: Key, e: Entry, ttl: int)
    requires Rests(rooms, log, k, e, ttl) && (ev.who != k || ev.what.Issued?)
    ensures Rests(rooms, log + [ev], k, e, ttl)
  {
    SignStays(log, ev, k, e.lastSeenMs);
    if e.role == Speaker {
      var until := e.lastSeenMs + ttl;
      var i :| GrantStands(rooms, log, k, i, until, ttl);
      GrantGrows(rooms, log, ev, k, i, e.lastSeenMs + ttl, e.lastSeenMs + ttl, ttl);
    }
    if !e.muted { NotMutedStays(log, ev, k); }
  }

  lemma ArrivalRests(rooms: Directory, log: seq<Event>, k: Key, hand: Option<int>, now: int, ttl: int)
    requires k.0 in rooms
    ensures Rests(rooms, log + [Event(Arrived, k, now)], k, Entry(InitialRole(rooms[k.0].host == k.1), false, now, hand), ttl)
  {
    var log' := log + [Event(Arrived, k, now)];
    assert IsSign(log'[|log|], k);
    EndedMute(log, Event(Arrived, k, now), k);
  }

  lemma TouchRests(rooms: Directory, log: seq<Event>, k: Key, e: Entry, now: int, ttl: int)
    requires Rests(rooms, log, k, e, ttl) && Live(e, now, ttl)
    ensures Rests(rooms, log + [Event(Touched, k, now)], k, e.(lastSeenMs := now), ttl)
  {
    var ev := Event(Touched, k, now);
    assert IsSign((log + [ev])[|log|], k);
    if e.role == Speaker {
      var until := e.lastSeenMs + ttl;
      var i :| GrantStands(rooms, log, k, i, until, ttl);
      GrantGrows(rooms, log, ev, k, i, e.lastSeenMs + ttl, now + ttl, ttl);
    }
    if !e.muted { NotMutedStays(log, ev, k); }
  }

  lemma ApprovalRests(rooms: Directory, log: seq<Event>, host: Key, k: Key, e: Entry, now: int, ttl: int)
    requires Rests(rooms, log, k, e, ttl) && e.lastSeenMs <= now && !IsHost(rooms, k) && IsHost(rooms, host) && host.0 == k.0
    ensures Rests(rooms, log + [Event(Approved(host), k, now)], k, e.(role := Speaker, hand := None), ttl)
  {
    var ev := Event(Approved(host), k, now);
    var log' := log + [ev];
    SignStays(log, ev, k, e.lastSeenMs);
    assert log'[|log|] == ev;
    forall t | now <= t < e.lastSeenMs + ttl ensures PresentAt(log', k, t, ttl) {
      var s :| 0 <= s < |log'| && IsSign(log'[s], k) && log'[s].at == e.lastSeenMs;
    }
    assert GrantStands(rooms, log', k, |log|, e.lastSeenMs + ttl, ttl);
    if !e.muted { NotMutedStays(log, ev, k); }
  }

  lemma DemotionRests(rooms: Directory, log: seq<Event>, k: Key, e: Entry, now: int, ttl: int)
    requires Rests(rooms, log, k, e, ttl) && !IsHost(rooms, k)
    ensures Rests(rooms, log + [Event(Demoted, k, now)], k, e.(role := Listener), ttl)
  {
    var ev := Event(Demoted, k, now);
    SignStays(log, ev, k, e.lastSeenMs);
    if !e.muted { NotMutedStays(log, ev, k); }
  }

  lemma MuteRests(rooms: Directory, log: seq<Event>, k: Key, e: Entry, muted: bool, now: int, ttl: int)
    requires Rests(rooms, log, k, e, ttl)
    ensures Rests(rooms, log + [Event(if muted then HostMuted else Unmuted, k, now)], k, e.(muted := muted), ttl)
  {
    var ev := Event(if muted then HostMuted else Unmuted, k, now);
    SignStays(log, ev, k, e.lastSeenMs);
    if e.role == Speaker {
      var until := e.lastSeenMs + ttl;
      var i :| GrantStands(rooms, log, k, i, until, ttl);
      GrantGrows(rooms, log, ev, k, i, e.lastSeenMs + ttl, e.lastSeenMs + ttl, ttl);
    }
    if !muted { EndedMute(log, ev, k); }
  }

  // An entry that may publish now warrants a credential.
  lemma EntryWarrants(rooms: Directory, log: seq<Event>, k: Key, e: Entry, now: int, ttl: int)
    requires Rests(rooms, log, k, e, ttl) && Live(e, now, ttl) && AtLeast(e.role, Speaker) && !e.muted
    ensures Warranted(rooms, log, k, now, ttl)
  {
    if e.role == Speaker {
      var until := e.lastSeenMs + ttl;
      var i :| GrantStands(rooms, log, k, i, until, ttl);
      assert GrantStands(rooms, log, k, i, now + 1, ttl);
    }
  }

  // ---- the invariant ----

  ghost predicate AllRest(rooms: Directory, presence: TtlMap, log: seq<Event>, now: int, ttl: int) {
    forall k :: k in presence ==> presence[k].lastSeenMs <= now && Rests(rooms, log, k, presence[k], ttl)
  }

  ghost predicate Mirrored(presence: TtlMap, mirror: map<Key, Standing>) {
    forall k :: k in presence ==> k in mirror && mirror[k] == Standing(presence[k].role, presence[k].muted)
  }

  ghost predicate AllWarranted(rooms: Directory, log: seq<Event>, ttl: int) {
    forall n :: 0 <= n < |log| && log[n].what == Issued(true) ==> Warranted(rooms, log[..n], log[n].who, log[n].at, ttl)
  }

  ghost predicate Fits(rooms: Directory, presence: TtlMap, now: int, ttl: int) {
    forall room :: room in rooms ==> |SpeakersOn(presence, room, rooms[room].host, now, ttl)| <= rooms[room].maxSpeakers
  }

  ghost predicate Sound(w: World, rooms: Directory, now: int, ttl: int) {
    && AllRest(rooms, w.presence, w.log, now, ttl) && Mirrored(w.presence, w.mirror)
    && AllWarranted(rooms, w.log, ttl)
  }

  lemma EventKeepsWarrants(rooms: Directory, log: seq<Event>, e: Event, ttl: int)
    requires AllWarranted(rooms, log, ttl) && (e.what == Issued(true) ==> Warranted(rooms, log, e.who, e.at, ttl))
    ensures AllWarranted(rooms, log + [e], ttl)
  {
    var log' := log + [e];
    forall n | 0 <= n < |log'| && log'[n].what == Issued(true) ensures Warranted(rooms, log'[..n], log'[n].who, log'[n].at, ttl) {
      assert log'[..n] == log[..n];
      if n == |log| { assert log[..n] == log; }
    }
  }

  // An event about k, with the entry of k changed or removed accordingly.
  lemma EventKeepsRest(rooms: Directory, presence: TtlMap, log: seq<Event>, ev: Event, presence': TtlMap, now: int, ttl: int)
    requires AllRest(rooms, presence, log, now, ttl)
    requires forall k :: k in presence' && k != ev.who ==> k in presence && presence'[k] == presence[k]
    requires ev.who in presence' ==> presence'[ev.who].lastSeenMs <= now && Rests(rooms, log + [ev], ev.who, presence'[ev.who], ttl)
    ensures AllRest(rooms, presence', log + [ev], now, ttl)
  {
    forall k | k in presence' ensures presence'[k].lastSeenMs <= now && Rests(rooms, log + [ev], k, presence'[k], ttl) {
      if k != ev.who { OthersEventKeeps(rooms, log, ev, k, presence[k], ttl); }
    }
  }

  // Whoever is a live speaker in m' now was one in m before.
  ghost predicate NoNewSpeakers(m: TtlMap, now: int, m': TtlMap, later: int, ttl: int) {
    forall k :: k in m' && m'[k].role == Speaker && Live(m'[k], later, ttl) ==> k in m && m[k].role == Speaker && Live(m[k], now, ttl)
  }

  // Fewer speakers always fit, and so do the same speakers later on.
  lemma FewerFit(rooms: Directory, m: TtlMap, m': TtlMap, now: int, later: int, ttl: int)
    requires Fits(rooms, m, now, ttl) && now <= later && NoNewSpeakers(m, now, m', later, ttl)
    ensures Fits(rooms, m', later, ttl)
  {
    forall room | room in rooms ensures |SpeakersOn(m', room, rooms[room].host, later, ttl)| <= rooms[room].maxSpeakers {
      SubsetSize(SpeakersOn(m', room, rooms[room].host, later, ttl), SpeakersOn(m, room, rooms[room].host, now, ttl));
    }
  }

  lemma LaterFits(rooms: Directory, m: TtlMap, now: int, later: int, ttl: int)
    requires Fits(rooms, m, now, ttl) && now <= later
    ensures Fits(rooms, m, later, ttl)
  {
    FewerFit(rooms, m, m, now, later, ttl);
  }

  lemma OneMoreFits(rooms: Directory, m: TtlMap, m': TtlMap, k: Key, now: int, ttl: int)
    requires Fits(rooms, m, now, ttl) && k.0 in rooms && |SpeakersOn(m, k.0, rooms[k.0].host, now, ttl)| < rooms[k.0].maxSpeakers
    requires forall x :: x in m' && x != k ==> x in m && m[x] == m'[x]
    ensures Fits(rooms, m', now, ttl)
  {
    forall room | room in rooms ensures |SpeakersOn(m', room, rooms[room].host, now, ttl)| <= rooms[room].maxSpeakers {
      SpeakersWithin(m, m', k, room, rooms[room].host, now, ttl);
    }
  }

  predicate Counts(m: TtlMap, k: Key, host: string, now: int, ttl: int) {
    k in m && k.1 != host && m[k].role == Speaker && Live(m[k], now, ttl)
  }

  // Writing the entry of k moves k into the speakers of its room, or out of them, and nobody else.
  lemma SpeakersAfter(m: TtlMap, k: Key, e: Entry, host: string, now: int, ttl: int)
    ensures var m' := m[k := e];
      |SpeakersOn(m', k.0, host, now, ttl)| ==
        |SpeakersOn(m, k.0, host, now, ttl)| + (if Counts(m', k, host, now, ttl) then 1 else 0) - (if Counts(m, k, host, now, ttl) then 1 else 0)
  {
    OneApart(m, k, host, now, ttl);
    OneApart(m[k := e], k, host, now, ttl);
    assert m[k := e] - {k} == m - {k};
  }

  lemma OneApart(m: TtlMap, k: Key, host: string, now: int, ttl: int)
    ensures |SpeakersOn(m, k.0, host, now, ttl)| == |SpeakersOn(m - {k}, k.0, host, now, ttl)| + (if Counts(m, k, host, now, ttl) then 1 else 0)
  {
    var rest := SpeakersOn(m - {k}, k.0, host, now, ttl);
    assert SpeakersOn(m, k.0, host, now, ttl) == if Counts(m, k, host, now, ttl) then rest + {k} else rest;
  }

  // A change to the entry of k adds at most k, and only to its own room.
  lemma SpeakersWithin(m: TtlMap, m': TtlMap, k: Key, room: string, host: string, now: int, ttl: int)
    requires forall x :: x in m' && x != k ==> x in m && m[x] == m'[x]
    ensures |SpeakersOn(m', room, host, now, ttl)| <= |SpeakersOn(m, room, host, now, ttl)| + (if room == k.0 then 1 else 0)
  {
    var before := SpeakersOn(m, room, host, now, ttl);
    SubsetSize(SpeakersOn(m', room, host, now, ttl), if room == k.0 then before + {k} else before);
  }

  lemma Conclude(w: World, rooms: Directory, now: int, ttl: int)
    requires AllRest(rooms, w.presence, w.log, now, ttl)
    requires Mirrored(w.presence, w.mirror)
    requires AllWarranted(rooms, w.log, ttl)
    ensures Sound(w, rooms, now, ttl)
  {
  }

  lemma LaterIsSound(w: World, rooms: Directory, now: int, later: int, ttl: int)
    requires Sound(w, rooms, now, ttl) && now <= later
    ensures Sound(w, rooms, later, ttl)
  {
  }

  lemma {:induction false} RunIsSound(w: World, acts: seq<Timed>, rooms: Directory, start: int, ttl: int)
    requires Sound(w, rooms, start, ttl) && Nondecreasing(start, acts)
    ensures Sound(After(w, acts, rooms, ttl), rooms, EndOf(acts, start), ttl)
    decreases |acts|
  {
    if acts != [] {
      var (now, a) := acts[0];
      LaterIsSound(w, rooms, start, now, ttl);
      StepIsSound(w, a, rooms, now, ttl);
      RunIsSound(Next(w, a, rooms, now, ttl), acts[1..], rooms, now, ttl);
    }
  }

  lemma StepIsSound(w: World, a: Act, rooms: Directory, now: int, ttl: int)
    requires Sound(w, rooms, now, ttl)
    ensures Sound(Next(w, a, rooms, now, ttl), rooms, now, ttl)
  {
    match a
    case Join(k, facts) => JoinIsSound(w, rooms, k, facts, now, ttl);
    case Approve(room, actor, target, facts) => ApproveIsSound(w, rooms, room, actor, target, facts, now, ttl);
    case RemoveSpeaker(room, actor, target, facts) => RemovalIsSound(w, rooms, room, actor, target, facts, now, ttl);
    case StepDown(k) => StepDownIsSound(w, rooms, k, now, ttl);
    case Mute(room, actor, target, muted, facts) => MuteIsSound(w, rooms, room, actor, target, muted, facts, now, ttl);
    case Leave(k) => LeaveIsSound(w, rooms, k, now, ttl);
    case RaiseHand(k, raised, facts) => HandIsSound(w, rooms, k, raised, facts, now, ttl);
    case Beat(k) => BeatIsSound(w, rooms, k, now, ttl);
    case Reap(batch) => ReapIsSound(w, rooms, batch, now, ttl);
  }

  lemma HandIsSound(w: World, rooms: Directory, k: Key, raised: bool, facts: Facts, now: int, ttl: int)
    requires Sound(w, rooms, now, ttl)
    ensures Sound(DoRaiseHand(w, k, raised, facts, now, ttl).0, rooms, now, ttl)
  {
    var v := DoRaiseHand(w, k, raised, facts, now, ttl).0;
    if v != w {
      HandKeepsRest(rooms, w.presence, w.log, k, v.presence[k].hand, now, ttl);
      Conclude(v, rooms, now, ttl);
    }
  }

  lemma HandKeepsRest(rooms: Directory, presence: TtlMap, log: seq<Event>, k: Key, hand: Option<int>, now: int, ttl: int)
    requires AllRest(rooms, presence, log, now, ttl) && k in presence
    ensures AllRest(rooms, presence[k := presence[k].(hand := hand)], log, now, ttl)
  {
  }

  lemma ReapIsSound(w: World, rooms: Directory, batch: set<Key>, now: int, ttl: int)
    requires Sound(w, rooms, now, ttl)
    ensures Sound(DoReap(w, batch, now, ttl), rooms, now, ttl)
  {
  }

  // ---- one use case at a time ----

  // A credential, given out to somebody who may publish if it says so.
  lemma CredentialIsSound(w: World, rooms: Directory, k: Key, publish: bool, now: int, ttl: int)
    requires Sound(w, rooms, now, ttl)
    requires publish ==> k in w.presence && Live(w.presence[k], now, ttl) && AtLeast(w.presence[k].role, Speaker) && !w.presence[k].muted
    ensures Sound(w.(log := w.log + [Event(Issued(publish), k, now)]), rooms, now, ttl)
  {
    var ev := Event(Issued(publish), k, now);
    if publish { EntryWarrants(rooms, w.log, k, w.presence[k], now, ttl); }
    if k in w.presence { OthersEventKeeps(rooms, w.log, ev, k, w.presence[k], ttl); }
    EventKeepsRest(rooms, w.presence, w.log, ev, w.presence, now, ttl);
    EventKeepsWarrants(rooms, w.log, ev, ttl);
    Conclude(w.(log := w.log + [ev]), rooms, now, ttl);
  }

  // An event about k that leaves it with entry e.
  lemma EntryIsSound(w: World, rooms: Directory, k: Key, e: Entry, ev: Event, now: int, ttl: int)
    requires Sound(w, rooms, now, ttl) && ev.who == k && !ev.what.Issued? && e.lastSeenMs <= now
    requires Rests(rooms, w.log + [ev], k, e, ttl)
    ensures Sound(World(w.presence[k := e], w.mirror[k := Standing(e.role, e.muted)], w.log + [ev]), rooms, now, ttl)
  {
    var presence := w.presence[k := e];
    EventKeepsRest(rooms, w.presence, w.log, ev, presence, now, ttl);
    EventKeepsWarrants(rooms, w.log, ev, ttl);
    Conclude(World(presence, w.mirror[k := Standing(e.role, e.muted)], w.log + [ev]), rooms, now, ttl);
  }

  lemma JoinIsSound(w: World, rooms: Directory, k: Key, facts: Facts, now: int, ttl: int)
    requires Sound(w, rooms, now, ttl)
    ensures Sound(DoJoin(w, rooms, k, facts, now, ttl).0, rooms, now, ttl)
  {
    if DoJoin(w, rooms, k, facts, now, ttl).1 == Done {
      var e, ev: Event;
      if k in w.presence && Live(w.presence[k], now, ttl) {
        e, ev := w.presence[k].(lastSeenMs := now), Event(Touched, k, now);
        TouchRests(rooms, w.log, k, w.presence[k], now, ttl);
      } else {
        e, ev := Entry(InitialRole(rooms[k.0].host == k.1), false, now, None), Event(Arrived, k, now);
        ArrivalRests(rooms, w.log, k, None, now, ttl);
      }
      EntryIsSound(w, rooms, k, e, ev, now, ttl);
      var entered := World(w.presence[k := e], w.mirror[k := Standing(e.role, e.muted)], w.log + [ev]);
      CredentialIsSound(entered, rooms, k, CanPublish(CanAct(facts), GetMember(entered.presence, k, now, ttl)), now, ttl);
    }
  }

  lemma ApproveIsSound(w: World, rooms: Directory, room: string, actor: string, target: string, facts: Facts, now: int, ttl: int)
    requires Sound(w, rooms, now, ttl)
    ensures Sound(DoApprove(w, rooms, room, actor, target, facts, now, ttl).0, rooms, now, ttl)
  {
    var w' := DoApprove(w, rooms, room, actor, target, facts, now, ttl).0;
    var k := (room, target);
    if w' != w {
      ApproveMeans(w, rooms, room, actor, target, facts, now, ttl);
      var approved := Promoted(w, k, (room, actor), now);
      HostIsHost(w, rooms, (room, actor), now, ttl);
      PromotionIsSound(w, rooms, k, (room, actor), now, ttl);
      if w' != approved {
        CredentialIsSound(approved, rooms, k, true, now, ttl);
      }
    }
  }

  // An approval that changes anything promotes a live listener on the word of a live host, to a free place.
  lemma ApproveMeans(w: World, rooms: Directory, room: string, actor: string, target: string, facts: Facts, now: int, ttl: int)
    requires Mirrored(w.presence, w.mirror) && DoApprove(w, rooms, room, actor, target, facts, now, ttl).0 != w
    ensures var k, host := (room, target), (room, actor);
      && room in rooms && k in w.presence && k in w.mirror && host in w.presence
      && w.presence[k].role == Listener && w.presence[host].role == Host
      && |SpeakersOn(w.presence, room, rooms[room].host, now, ttl)| < rooms[room].maxSpeakers
      && var approved, w' := Promoted(w, k, host, now), DoApprove(w, rooms, room, actor, target, facts, now, ttl).0;
        w' == approved
        || (w' == approved.(log := approved.log + [Event(Issued(true), k, now)]) && Live(approved.presence[k], now, ttl) && !approved.presence[k].muted)
  {
  }

  // What an approval has found once it writes: a live host, a free place, and a live listener who has an account.
  predicate MayApprove(w: World, rooms: Directory, room: string, actor: string, target: string, facts: Facts, now: int, ttl: int) {
    && room in rooms && CanAct(facts) && facts.targetExists
    && |SpeakersOn(w.presence, room, rooms[room].host, now, ttl)| < rooms[room].maxSpeakers
    && var host, member := GetMember(w.presence, (room, actor), now, ttl), GetMember(w.presence, (room, target), now, ttl);
      host.Some? && host.value.role == Host && member.Some? && member.value.role == Listener
  }

  /**
   * An approval changes anything exactly if it may. Then the target is a live speaker and takes a place; and
   * the approval is refused all the same exactly if the target is muted, or may not speak anywhere.
   */
  lemma ApprovalTakesAPlace(w: World, rooms: Directory, room: string, actor: string, target: string, facts: Facts, now: int, ttl: int)
    ensures var (w', r) := DoApprove(w, rooms, room, actor, target, facts, now, ttl);
      && (w' != w <==> MayApprove(w, rooms, room, actor, target, facts, now, ttl))
      && (w' != w ==>
        var k := (room, target);
        && GetMember(w'.presence, k, now, ttl) == Some(w.presence[k].(role := Speaker, hand := None))
        && (r == Refused <==> w.presence[k].muted || !facts.targetGood)
        && (target != rooms[room].host ==>
          |SpeakersOn(w'.presence, room, rooms[room].host, now, ttl)| == |SpeakersOn(w.presence, room, rooms[room].host, now, ttl)| + 1))
  {
    var w', k := DoApprove(w, rooms, room, actor, target, facts, now, ttl).0, (room, target);
    if MayApprove(w, rooms, room, actor, target, facts, now, ttl) {
      assert |w'.log| > |w.log|;
      assert w'.presence == w.presence[k := w.presence[k].(role := Speaker, hand := None)];
      SpeakersAfter(w.presence, k, w'.presence[k], rooms[room].host, now, ttl);
    }
  }

  lemma ApproveWithWrites(w: World, k: Key, host: Key, good: bool, now: int, ttl: int)
    requires k in w.presence && k in w.mirror
    ensures var v, promoted := ApproveWith(w, k, host, good, now, ttl).0, Promoted(w, k, host, now);
      || v == promoted
      || (v == promoted.(log := promoted.log + [Event(Issued(true), k, now)]) && Live(promoted.presence[k], now, ttl) && !promoted.presence[k].muted)
  {
  }

  function Promoted(w: World, k: Key, host: Key, now: int): World
    requires k in w.presence && k in w.mirror
  {
    World(w.presence[k := w.presence[k].(role := Speaker, hand := None)], w.mirror[k := w.mirror[k].(role := Speaker)],
      w.log + [Event(Approved(host), k, now)])
  }

  lemma HostIsHost(w: World, rooms: Directory, k: Key, now: int, ttl: int)
    requires AllRest(rooms, w.presence, w.log, now, ttl) && k in w.presence && w.presence[k].role == Host
    ensures IsHost(rooms, k)
  {
  }

  lemma PromotionIsSound(w: World, rooms: Directory, k: Key, host: Key, now: int, ttl: int)
    requires Sound(w, rooms, now, ttl) && k in w.presence && k in w.mirror && !IsHost(rooms, k)
    requires IsHost(rooms, host) && host.0 == k.0
    ensures Sound(Promoted(w, k, host, now), rooms, now, ttl)
  {
    ApprovalRests(rooms, w.log, host, k, w.presence[k], now, ttl);
    EntryIsSound(w, rooms, k, w.presence[k].(role := Speaker, hand := None), Event(Approved(host), k, now), now, ttl);
  }

  lemma DemotionIsSound(w: World, rooms: Directory, k: Key, now: int, ttl: int)
    requires Sound(w, rooms, now, ttl) && k in w.presence && !IsHost(rooms, k)
    ensures Sound(Changing(w, k, SetRole(Listener), Demoted, now), rooms, now, ttl)
  {
    DemotionRests(rooms, w.log, k, w.presence[k], now, ttl);
    EntryIsSound(w, rooms, k, w.presence[k].(role := Listener), Event(Demoted, k, now), now, ttl);
  }

  // The host is out of reach: nobody else may moderate, and the host not itself.
  lemma RemovalIsSound(w: World, rooms: Directory, room: string, actor: string, target: string, facts: Facts, now: int, ttl: int)
    requires Sound(w, rooms, now, ttl)
    ensures Sound(DoRemoveSpeaker(w, room, actor, target, facts, now, ttl).0, rooms, now, ttl)
  {
    var k := (room, target);
    if DoRemoveSpeaker(w, room, actor, target, facts, now, ttl).0 != w {
      HostIsHost(w, rooms, (room, actor), now, ttl);
      DemotionIsSound(w, rooms, k, now, ttl);
    }
  }

  lemma StepDownIsSound(w: World, rooms: Directory, k: Key, now: int, ttl: int)
    requires Sound(w, rooms, now, ttl)
    ensures Sound(DoStepDown(w, k, now, ttl).0, rooms, now, ttl)
  {
    if DoStepDown(w, k, now, ttl).0 != w {
      DemotionIsSound(w, rooms, k, now, ttl);
    }
  }

  lemma MuteIsSound(w: World, rooms: Directory, room: string, actor: string, target: string, muted: bool, facts: Facts, now: int, ttl: int)
    requires Sound(w, rooms, now, ttl)
    ensures Sound(DoMute(w, room, actor, target, muted, facts, now, ttl).0, rooms, now, ttl)
  {
    var k := (room, target);
    if DoMute(w, room, actor, target, muted, facts, now, ttl).0 != w {
      MuteRests(rooms, w.log, k, w.presence[k], muted, now, ttl);
      EntryIsSound(w, rooms, k, w.presence[k].(muted := muted), Event(if muted then HostMuted else Unmuted, k, now), now, ttl);
    }
  }

  lemma LeaveIsSound(w: World, rooms: Directory, k: Key, now: int, ttl: int)
    requires Sound(w, rooms, now, ttl)
    ensures Sound(DoLeave(w, k, now), rooms, now, ttl)
  {
    var w', ev := DoLeave(w, k, now), Event(Left, k, now);
    EventKeepsRest(rooms, w.presence, w.log, ev, w'.presence, now, ttl);
    EventKeepsWarrants(rooms, w.log, ev, ttl);
    Conclude(w', rooms, now, ttl);
  }

  lemma BeatIsSound(w: World, rooms: Directory, k: Key, now: int, ttl: int)
    requires Sound(w, rooms, now, ttl)
    ensures Sound(DoHeartbeat(w, k, now, ttl), rooms, now, ttl)
  {
    if k in w.presence && Live(w.presence[k], now, ttl) {
      var e := w.presence[k].(lastSeenMs := now);
      TouchRests(rooms, w.log, k, w.presence[k], now, ttl);
      EntryIsSound(w, rooms, k, e, Event(Touched, k, now), now, ttl);
      assert w.mirror[k := Standing(e.role, e.muted)] == w.mirror;
    }
  }

  /**
   * In every run, a credential to publish goes only to the room's host, or to a member whom the host
   * approved and who since then was neither demoted nor gone, not for an instant; and never to a member
   * the host has muted and not unmuted.
   */
  lemma NobodyPublishesWithoutTheHost(acts: seq<Timed>, rooms: Directory, start: int, ttl: int, n: nat)
    requires Nondecreasing(start, acts) && n < |After(START, acts, rooms, ttl).log|
    requires After(START, acts, rooms, ttl).log[n].what == Issued(true)
    ensures var log := After(START, acts, rooms, ttl).log; Warranted(rooms, log[..n], log[n].who, log[n].at, ttl)
  {
    RunIsSound(START, acts, rooms, start, ttl);
  }

  // ---- the cap ----

  lemma JoinFits(w: World, rooms: Directory, k: Key, facts: Facts, now: int, ttl: int)
    requires Fits(rooms, w.presence, now, ttl)
    ensures Fits(rooms, DoJoin(w, rooms, k, facts, now, ttl).0.presence, now, ttl)
  {
    FewerFit(rooms, w.presence, DoJoin(w, rooms, k, facts, now, ttl).0.presence, now, now, ttl);
  }

  lemma ApproveFits(w: World, rooms: Directory, room: string, actor: string, target: string, facts: Facts, now: int, ttl: int)
    requires Fits(rooms, w.presence, now, ttl)
    ensures Fits(rooms, DoApprove(w, rooms, room, actor, target, facts, now, ttl).0.presence, now, ttl)
  {
    var v := DoApprove(w, rooms, room, actor, target, facts, now, ttl).0;
    if v != w { OneMoreFits(rooms, w.presence, v.presence, (room, target), now, ttl); }
  }

  /** Each act, found with every room within its limit, leaves every room within its limit. */
  lemma StepFits(w: World, a: Act, rooms: Directory, now: int, ttl: int)
    requires Fits(rooms, w.presence, now, ttl)
    ensures Fits(rooms, Next(w, a, rooms, now, ttl).presence, now, ttl)
  {
    match a
    case Join(k, facts) => JoinFits(w, rooms, k, facts, now, ttl);
    case Approve(room, actor, target, facts) => ApproveFits(w, rooms, room, actor, target, facts, now, ttl);
    case _ =>
      OthersAddNone(w, a, rooms, now, ttl);
      FewerFit(rooms, w.presence, Next(w, a, rooms, now, ttl).presence, now, now, ttl);
  }

  lemma OthersAddNone(w: World, a: Act, rooms: Directory, now: int, ttl: int)
    requires !a.Join? && !a.Approve?
    ensures NoNewSpeakers(w.presence, now, Next(w, a, rooms, now, ttl).presence, now, ttl)
  {
  }

  lemma {:induction false} RunFits(w: World, acts: seq<Timed>, rooms: Directory, start: int, ttl: int)
    requires Fits(rooms, w.presence, start, ttl) && Nondecreasing(start, acts)
    ensures Fits(rooms, After(w, acts, rooms, ttl).presence, EndOf(acts, start), ttl)
    decreases |acts|
  {
    if acts != [] {
      var (now, a) := acts[0];
      LaterFits(rooms, w.presence, start, now, ttl);
      StepFits(w, a, rooms, now, ttl);
      RunFits(Next(w, a, rooms, now, ttl), acts[1..], rooms, now, ttl);
    }
  }

  lemma EmptyFits(rooms: Directory, now: int, ttl: int)
    ensures Fits(rooms, map[], now, ttl)
  {
    forall room | room in rooms ensures |SpeakersOn(map[], room, rooms[room].host, now, ttl)| <= rooms[room].maxSpeakers {
      assert SpeakersOn(map[], room, rooms[room].host, now, ttl) == {};
    }
  }

  /** In every run, at every moment, the live speakers of a room other than its host never exceed the room's limit. */
  lemma StageNeverOverflows(acts: seq<Timed>, rooms: Directory, start: int, now: int, ttl: int, room: string)
    requires Nondecreasing(start, acts) && EndOf(acts, start) <= now && room in rooms
    ensures |SpeakersOn(After(START, acts, rooms, ttl).presence, room, rooms[room].host, now, ttl)| <= rooms[room].maxSpeakers
  {
    EmptyFits(rooms, start, ttl);
    RunFits(START, acts, rooms, start, ttl);
    var w := After(START, acts, rooms, ttl);
    LaterFits(rooms, w.presence, EndOf(acts, start), now, ttl);
  }

  /** In every run, everybody present has an open membership row with the same role and the same mute. */
  lemma MirrorAgrees(acts: seq<Timed>, rooms: Directory, start: int, ttl: int, k: Key)
    requires Nondecreasing(start, acts) && k in After(START, acts, rooms, ttl).presence
    ensures var w := After(START, acts, rooms, ttl); k in w.mirror && w.mirror[k] == Standing(w.presence[k].role, w.presence[k].muted)
  {
    RunIsSound(START, acts, rooms, start, ttl);
  }

  // ---- approved without the floor ----

  const ALL_WELL := Facts(true, false, true, true, true, true)

  // The host joins, x joins, the host mutes x and then approves it.
  function MutedThenApproved(rooms: Directory, room: string, x: string, now: int): seq<Timed>
    requires room in rooms
  {
    var host := rooms[room].host;
    [(now, Join((room, host), ALL_WELL)), (now, Join((room, x), ALL_WELL)),
     (now, Mute(room, host, x, true, ALL_WELL)), (now, Approve(room, host, x, ALL_WELL))]
  }

  /**
   * Such a run: the approval of somebody muted is refused, x has no credential to publish and yet the place;
   * if it was the only one, every other approval is told that the stage is full.
   */
  lemma MutedListenerTakesAPlace(rooms: Directory, room: string, x: string, y: string, now: int, ttl: int)
    requires ttl > 0 && room in rooms && x != rooms[room].host && rooms[room].maxSpeakers >= 1
    ensures var acts, host := MutedThenApproved(rooms, room, x, now), rooms[room].host;
      var before, w := After(START, acts[..3], rooms, ttl), After(START, acts, rooms, ttl);
      && DoApprove(before, rooms, room, host, x, ALL_WELL, now, ttl) == (w, Refused)
      && SpeakersOn(w.presence, room, host, now, ttl) == {(room, x)}
      && Event(Issued(true), (room, x), now) !in w.log
      && (rooms[room].maxSpeakers == 1 ==> DoApprove(w, rooms, room, host, y, ALL_WELL, now, ttl) == (w, Full))
  {
    var acts, host, k := MutedThenApproved(rooms, room, x, now), (room, rooms[room].host), (room, x);
    var w2 := Next(Next(START, acts[0].1, rooms, now, ttl), acts[1].1, rooms, now, ttl);
    var w3 := Next(w2, acts[2].1, rooms, now, ttl);
    MutedInRoom(rooms, room, x, now, ttl);
    MutedIsPromoted(w3, rooms, room, x, y, now, ttl);
    AfterThree(START, acts[..3], rooms, ttl);
    AfterThree(START, acts, rooms, ttl);
    assert acts[3..] == [acts[3]];
    assert After(w3, [acts[3]], rooms, ttl) == Next(w3, acts[3].1, rooms, now, ttl);
  }

  predicate HasMuted(w: World, rooms: Directory, room: string, x: string, now: int)
    requires room in rooms
  {
    && w.presence == map[(room, rooms[room].host) := Entry(Host, false, now, None), (room, x) := Entry(Listener, true, now, None)]
    && Event(Issued(true), (room, x), now) !in w.log
  }

  lemma MutedInRoom(rooms: Directory, room: string, x: string, now: int, ttl: int)
    requires ttl > 0 && room in rooms && x != rooms[room].host
    ensures var acts := MutedThenApproved(rooms, room, x, now);
      HasMuted(Next(Next(Next(START, acts[0].1, rooms, now, ttl), acts[1].1, rooms, now, ttl), acts[2].1, rooms, now, ttl), rooms, room, x, now)
  {
    var acts, host, k := MutedThenApproved(rooms, room, x, now), (room, rooms[room].host), (room, x);
    var w1 := Next(START, acts[0].1, rooms, now, ttl);
    assert w1.presence == map[host := Entry(Host, false, now, None)];
    var w2 := Next(w1, acts[1].1, rooms, now, ttl);
    assert w2.presence == map[host := Entry(Host, false, now, None), k := Entry(Listener, false, now, None)];
  }

  lemma MutedIsPromoted(w: World, rooms: Directory, room: string, x: string, y: string, now: int, ttl: int)
    requires ttl > 0 && room in rooms && x != rooms[room].host && rooms[room].maxSpeakers >= 1 && HasMuted(w, rooms, room, x, now)
    ensures var host := rooms[room].host;
      var (w', r) := DoApprove(w, rooms, room, host, x, ALL_WELL, now, ttl);
      && r == Refused && SpeakersOn(w'.presence, room, host, now, ttl) == {(room, x)} && Event(Issued(true), (room, x), now) !in w'.log
      && (rooms[room].maxSpeakers == 1 ==> DoApprove(w', rooms, room, host, y, ALL_WELL, now, ttl) == (w', Full))
  {
    assert SpeakersOn(w.presence, room, rooms[room].host, now, ttl) == {};
    ApprovalTakesAPlace(w, rooms, room, rooms[room].host, x, ALL_WELL, now, ttl);
    var w' := DoApprove(w, rooms, room, rooms[room].host, x, ALL_WELL, now, ttl).0;
    assert SpeakersOn(w'.presence, room, rooms[room].host, now, ttl) == {(room, x)};
  }

  lemma AfterThree(w: World, acts: seq<Timed>, rooms: Directory, ttl: int)
    requires |acts| >= 3
    ensures After(w, acts, rooms, ttl) == After(Next(Next(Next(w, acts[0].1, rooms, acts[0].0, ttl), acts[1].1, rooms, acts[1].0, ttl), acts[2].1, rooms, acts[2].0, ttl), acts[3..], rooms, ttl)
  {
    var w1 := Next(w, acts[0].1, rooms, acts[0].0, ttl);
    var w2 := Next(w1, acts[1].1, rooms, acts[1].0, ttl);
    assert acts[1..][1..] == acts[2..] && acts[2..][1..] == acts[3..];
    assert After(w, acts, rooms, ttl) == After(w1, acts[1..], rooms, ttl);
    assert After(w1, acts[1..], rooms, ttl) == After(w2, acts[2..], rooms, ttl);
  }
}
