/**
 * The log as a reference: in every run, who may speak and who is muted is exactly what the log of arrivals,
 * signs of life, approvals, demotions and mutes says, and nothing else.
 */
module SpeakingExact {
  import opened Common
  import opened PresenceSpec
  import opened Speaking
  import opened SpeakingRuns

  // The host approved k in event i, and no later event ended it.
  ghost predicate GrantOpen(rooms: Directory, log: seq<Event>, k: Key, i: int) {
    && 0 <= i < |log| && log[i].who == k
    && log[i].what.Approved? && log[i].what.host.0 == k.0 && IsHost(rooms, log[i].what.host)
    && (forall j :: i < j < |log| ==> !EndsGrant(log[j], k))
  }

  // At some instant of this stretch k was not there.
  ghost predicate Gap(log: seq<Event>, k: Key, from: int, to: int, ttl: int) {
    exists t :: from <= t <= to && !PresentAt(log, k, t, ttl)
  }

  predicate Speaks(presence: TtlMap, k: Key) {
    k in presence && presence[k].role == Speaker
  }

  ghost predicate SignsUpTo(log: seq<Event>, k: Key, at: int) {
    forall s :: 0 <= s < |log| && IsSign(log[s], k) ==> log[s].at <= at
  }

  // What entries owe the log: the converse of resting on it.
  ghost predicate Recorded(rooms: Directory, presence: TtlMap, log: seq<Event>, now: int, ttl: int) {
    && (forall n :: 0 <= n < |log| ==> log[n].at <= now)
    && (forall k :: k in presence ==> presence[k].lastSeenMs <= now && SignsUpTo(log, k, presence[k].lastSeenMs))
    && (forall k, i :: GrantOpen(rooms, log, k, i) ==> Speaks(presence, k) || Gap(log, k, log[i].at, now, ttl))
    && (forall k :: k in presence && presence[k].muted ==> !NotMuted(log, k))
  }

  // ---- one event at a time ----

  // An event about k, and the entry it leaves k with, if any.
  ghost predicate Keeps(presence: TtlMap, presence': TtlMap, ev: Event, now: int, ttl: int) {
    var k := ev.who;
    && ev.at == now
    && (forall x :: x != k ==> (x in presence' <==> x in presence) && (x in presence ==> presence'[x] == presence[x]))
    && (k in presence' ==> if IsSign(ev, k) then presence'[k].lastSeenMs == now else k in presence && presence'[k].lastSeenMs == presence[k].lastSeenMs)
    && (ev.what == Touched ==> k in presence && Live(presence[k], now, ttl))
    && (EndsGrant(ev, k) || Speaks(presence', k) || !Speaks(presence, k))
    && (ev.what.Approved? ==> Speaks(presence', k))
    && (k in presence' && presence'[k].muted ==> ev.what == HostMuted || (k in presence && presence[k].muted && !EndsMute(ev, k)))
  }

  lemma EventKeepsRecord(rooms: Directory, presence: TtlMap, presence': TtlMap, log: seq<Event>, ev: Event, now: int, ttl: int)
    requires Recorded(rooms, presence, log, now, ttl) && Keeps(presence, presence', ev, now, ttl)
    requires ev.what == Touched ==> SeenAt(log, ev.who, presence[ev.who].lastSeenMs)
    ensures Recorded(rooms, presence', log + [ev], now, ttl)
  {
    var log' := log + [ev];
    forall k | k in presence' ensures presence'[k].lastSeenMs <= now && SignsUpTo(log', k, presence'[k].lastSeenMs) {
      SignsKept(presence, presence', log, ev, k, now, ttl);
    }
    forall k, i | GrantOpen(rooms, log', k, i) ensures Speaks(presence', k) || Gap(log', k, log'[i].at, now, ttl) {
      GrantKept(rooms, presence, presence', log, ev, k, i, now, ttl);
    }
    forall k | k in presence' && presence'[k].muted ensures !NotMuted(log', k) {
      MuteKept(log, ev, k);
    }
  }

  ghost predicate SeenAt(log: seq<Event>, k: Key, at: int) {
    exists s :: 0 <= s < |log| && IsSign(log[s], k) && log[s].at == at
  }

  lemma LastSign(rooms: Directory, log: seq<Event>, k: Key, e: Entry, ttl: int)
    requires Rests(rooms, log, k, e, ttl)
    ensures SeenAt(log, k, e.lastSeenMs)
  {
  }

  lemma SignsKept(presence: TtlMap, presence': TtlMap, log: seq<Event>, ev: Event, k: Key, now: int, ttl: int)
    requires Keeps(presence, presence', ev, now, ttl) && k in presence' && presence'[k].lastSeenMs <= now
    requires forall n :: 0 <= n < |log| ==> log[n].at <= now
    requires k in presence ==> SignsUpTo(log, k, presence[k].lastSeenMs)
    ensures SignsUpTo(log + [ev], k, presence'[k].lastSeenMs)
  {
  }

  // A grant still open was open before, unless this event made it; and a gap stays a gap.
  lemma GrantKept(rooms: Directory, presence: TtlMap, presence': TtlMap, log: seq<Event>, ev: Event, k: Key, i: int, now: int, ttl: int)
    requires Keeps(presence, presence', ev, now, ttl) && GrantOpen(rooms, log + [ev], k, i)
    requires GrantOpen(rooms, log, k, i) ==> Speaks(presence, k) || Gap(log, k, log[i].at, now, ttl)
    requires ev.who == k && ev.what == Touched ==> presence[k].lastSeenMs <= now && SeenAt(log, k, presence[k].lastSeenMs)
    ensures Speaks(presence', k) || Gap(log + [ev], k, (log + [ev])[i].at, now, ttl)
  {
    var log' := log + [ev];
    if i < |log| {
      assert log'[|log|] == ev;
      assert GrantOpen(rooms, log, k, i) by {
        forall j | i < j < |log| ensures !EndsGrant(log[j], k) {
          assert log'[j] == log[j];
        }
      }
      if !Speaks(presence, k) {
        var t :| log[i].at <= t <= now && !PresentAt(log, k, t, ttl);
        GapStays(presence, log, ev, k, t, now, ttl);
      }
    }
  }

  lemma GapStays(presence: TtlMap, log: seq<Event>, ev: Event, k: Key, t: int, now: int, ttl: int)
    requires t <= now && !PresentAt(log, k, t, ttl) && ev.at == now
    requires IsSign(ev, k) ==>
      k in presence && Live(presence[k], now, ttl) && presence[k].lastSeenMs <= now
      && SeenAt(log, k, presence[k].lastSeenMs)
    ensures !PresentAt(log + [ev], k, t, ttl)
  {
  }

  lemma MuteKept(log: seq<Event>, ev: Event, k: Key)
    requires (ev.who == k && ev.what == HostMuted) || (!NotMuted(log, k) && !EndsMute(ev, k))
    ensures !NotMuted(log + [ev], k)
  {
    var log' := log + [ev];
    assert log'[|log|] == ev;
    if !(ev.who == k && ev.what == HostMuted) {
      var j :| 0 <= j < |log| && log[j].who == k && log[j].what == HostMuted && forall l :: j < l < |log| ==> !EndsMute(log[l], k);
      forall l | j < l < |log'| ensures !EndsMute(log'[l], k) {
        assert l < |log| ==> log'[l] == log[l];
      }
      assert log'[j] == log[j];
    }
  }

  // ---- runs ----

  // Lapsed entries may go: whoever was approved and is swept away was missing at that moment.
  lemma SweepKeepsRecord(rooms: Directory, presence: TtlMap, presence': TtlMap, log: seq<Event>, now: int, ttl: int)
    requires Recorded(rooms, presence, log, now, ttl)
    requires forall k :: k in presence' ==> k in presence && presence'[k] == presence[k]
    requires forall k :: k in presence && k !in presence' ==> !Live(presence[k], now, ttl)
    ensures Recorded(rooms, presence', log, now, ttl)
  {
    forall k, i | GrantOpen(rooms, log, k, i) ensures Speaks(presence', k) || Gap(log, k, log[i].at, now, ttl) {
      if k in presence && k !in presence' {
        assert !PresentAt(log, k, now, ttl);
      }
    }
  }

  lemma LaterIsRecorded(rooms: Directory, presence: TtlMap, log: seq<Event>, now: int, later: int, ttl: int)
    requires Recorded(rooms, presence, log, now, ttl) && now <= later
    ensures Recorded(rooms, presence, log, later, ttl)
  {
    forall k, i | GrantOpen(rooms, log, k, i) ensures Speaks(presence, k) || Gap(log, k, log[i].at, later, ttl) {
      if !Speaks(presence, k) {
        var t :| log[i].at <= t <= now && !PresentAt(log, k, t, ttl);
        assert log[i].at <= t <= later;
      }
    }
  }

  ghost predicate IsRecorded(w: World, rooms: Directory, now: int, ttl: int) {
    Recorded(rooms, w.presence, w.log, now, ttl)
  }

  // One event, and the entry it is about.
  lemma ChangeIsRecorded(w: World, v: World, rooms: Directory, ev: Event, now: int, ttl: int)
    requires AllRest(rooms, w.presence, w.log, now, ttl) && IsRecorded(w, rooms, now, ttl)
    requires v.log == w.log + [ev] && Keeps(w.presence, v.presence, ev, now, ttl)
    ensures IsRecorded(v, rooms, now, ttl)
  {
    if ev.what == Touched { LastSign(rooms, w.log, ev.who, w.presence[ev.who], ttl); }
    EventKeepsRecord(rooms, w.presence, v.presence, w.log, ev, now, ttl);
  }

  lemma JoinIsRecorded(w: World, rooms: Directory, k: Key, facts: Facts, now: int, ttl: int)
    requires AllRest(rooms, w.presence, w.log, now, ttl) && IsRecorded(w, rooms, now, ttl)
    ensures IsRecorded(DoJoin(w, rooms, k, facts, now, ttl).0, rooms, now, ttl)
  {
    var (v, r) := DoJoin(w, rooms, k, facts, now, ttl);
    if r == Done {
      var ev := JoinKeeps(w, rooms, k, facts, now, ttl);
      var entered := World(v.presence, v.mirror, w.log + [ev]);
      ChangeIsRecorded(w, entered, rooms, ev, now, ttl);
      CredentialKeepsRecord(rooms, v.presence, entered.log, k, CanPublish(CanAct(facts), GetMember(v.presence, k, now, ttl)), now, ttl);
    }
  }

  lemma JoinKeeps(w: World, rooms: Directory, k: Key, facts: Facts, now: int, ttl: int) returns (ev: Event)
    requires DoJoin(w, rooms, k, facts, now, ttl).1 == Done
    ensures var v := DoJoin(w, rooms, k, facts, now, ttl).0;
      && Keeps(w.presence, v.presence, ev, now, ttl)
      && v.log == w.log + [ev] + [Event(Issued(CanPublish(CanAct(facts), GetMember(v.presence, k, now, ttl))), k, now)]
  {
    ev := Event(if k in w.presence && Live(w.presence[k], now, ttl) then Touched else Arrived, k, now);
  }

  lemma ApproveIsRecorded(w: World, rooms: Directory, room: string, actor: string, target: string, facts: Facts, now: int, ttl: int)
    requires Mirrored(w.presence, w.mirror) && IsRecorded(w, rooms, now, ttl)
    ensures IsRecorded(DoApprove(w, rooms, room, actor, target, facts, now, ttl).0, rooms, now, ttl)
  {
    var v := DoApprove(w, rooms, room, actor, target, facts, now, ttl).0;
    var k, host := (room, target), (room, actor);
    if v != w {
      ApproveMeans(w, rooms, room, actor, target, facts, now, ttl);
      var promoted := Promoted(w, k, host, now);
      PromotionIsRecorded(w, rooms, k, host, now, ttl);
      if v != promoted {
        CredentialKeepsRecord(rooms, promoted.presence, promoted.log, k, true, now, ttl);
      }
    }
  }

  lemma PromotionIsRecorded(w: World, rooms: Directory, k: Key, host: Key, now: int, ttl: int)
    requires IsRecorded(w, rooms, now, ttl) && k in w.presence && k in w.mirror
    ensures IsRecorded(Promoted(w, k, host, now), rooms, now, ttl)
  {
    EventKeepsRecord(rooms, w.presence, Promoted(w, k, host, now).presence, w.log, Event(Approved(host), k, now), now, ttl);
  }

  lemma PatchIsRecorded(w: World, rooms: Directory, k: Key, c: Change, what: What, now: int, ttl: int)
    requires AllRest(rooms, w.presence, w.log, now, ttl) && IsRecorded(w, rooms, now, ttl) && k in w.presence
    requires (c == SetRole(Listener) && what == Demoted) || (c == SetMuted(true) && what == HostMuted) || (c == SetMuted(false) && what == Unmuted)
    ensures IsRecorded(Changing(w, k, c, what, now), rooms, now, ttl)
  {
    ChangeIsRecorded(w, Changing(w, k, c, what, now), rooms, Event(what, k, now), now, ttl);
  }

  lemma HandIsRecorded(w: World, rooms: Directory, k: Key, raised: bool, now: int, ttl: int)
    requires IsRecorded(w, rooms, now, ttl)
    ensures IsRecorded(w.(presence := Patch(w.presence, k, SetHand(raised), now)), rooms, now, ttl)
  {
    var presence := Patch(w.presence, k, SetHand(raised), now);
    forall x, i | GrantOpen(rooms, w.log, x, i) ensures Speaks(presence, x) || Gap(w.log, x, w.log[i].at, now, ttl) {
      assert Speaks(presence, x) == Speaks(w.presence, x);
    }
  }

  lemma BeatIsRecorded(w: World, rooms: Directory, k: Key, now: int, ttl: int)
    requires AllRest(rooms, w.presence, w.log, now, ttl) && IsRecorded(w, rooms, now, ttl)
    ensures IsRecorded(DoHeartbeat(w, k, now, ttl), rooms, now, ttl)
  {
    if k in w.presence && Live(w.presence[k], now, ttl) {
      ChangeIsRecorded(w, DoHeartbeat(w, k, now, ttl), rooms, Event(Touched, k, now), now, ttl);
    }
  }

  lemma StepIsRecorded(w: World, a: Act, rooms: Directory, now: int, ttl: int)
    requires Sound(w, rooms, now, ttl) && IsRecorded(w, rooms, now, ttl)
    ensures IsRecorded(Next(w, a, rooms, now, ttl), rooms, now, ttl)
  {
    match a
    case Join(k, facts) => JoinIsRecorded(w, rooms, k, facts, now, ttl);
    case Approve(room, actor, target, facts) => ApproveIsRecorded(w, rooms, room, actor, target, facts, now, ttl);
    case RemoveSpeaker(room, actor, target, facts) =>
      if Next(w, a, rooms, now, ttl) != w { PatchIsRecorded(w, rooms, (room, target), SetRole(Listener), Demoted, now, ttl); }
    case StepDown(k) =>
      if Next(w, a, rooms, now, ttl) != w { PatchIsRecorded(w, rooms, k, SetRole(Listener), Demoted, now, ttl); }
    case Mute(room, actor, target, muted, facts) =>
      if Next(w, a, rooms, now, ttl) != w { PatchIsRecorded(w, rooms, (room, target), SetMuted(muted), if muted then HostMuted else Unmuted, now, ttl); }
    case Leave(k) => ChangeIsRecorded(w, DoLeave(w, k, now), rooms, Event(Left, k, now), now, ttl);
    case RaiseHand(k, raised, facts) => HandIsRecorded(w, rooms, k, raised, now, ttl);
    case Beat(k) => BeatIsRecorded(w, rooms, k, now, ttl);
    case Reap(batch) => SweepKeepsRecord(rooms, w.presence, Swept(w.presence, batch, now, ttl), w.log, now, ttl);
  }

  lemma {:induction false} RunIsRecorded(w: World, acts: seq<Timed>, rooms: Directory, start: int, ttl: int)
    requires Sound(w, rooms, start, ttl) && IsRecorded(w, rooms, start, ttl) && Nondecreasing(start, acts)
    ensures IsRecorded(After(w, acts, rooms, ttl), rooms, EndOf(acts, start), ttl)
    decreases |acts|
  {
    if acts != [] {
      var (now, a) := acts[0];
      LaterIsSound(w, rooms, start, now, ttl);
      LaterIsRecorded(rooms, w.presence, w.log, start, now, ttl);
      StepIsRecorded(w, a, rooms, now, ttl);
      StepIsSound(w, a, rooms, now, ttl);
      RunIsRecorded(Next(w, a, rooms, now, ttl), acts[1..], rooms, now, ttl);
    }
  }

  /**
   * In every run, at every moment: somebody is a live speaker if and only if a host's approval of them stands,
   * that is, it was not ended and they were present at every instant since.
   */
  lemma FloorIsExact(acts: seq<Timed>, rooms: Directory, start: int, now: int, ttl: int, k: Key)
    requires Nondecreasing(start, acts) && EndOf(acts, start) <= now
    ensures var w := After(START, acts, rooms, ttl);
      Speaks(w.presence, k) && Live(w.presence[k], now, ttl) <==> HasGrant(rooms, w.log, k, now + 1, ttl)
  {
    RunIsSound(START, acts, rooms, start, ttl);
    RunIsRecorded(START, acts, rooms, start, ttl);
    var w := After(START, acts, rooms, ttl);
    LaterIsSound(w, rooms, EndOf(acts, start), now, ttl);
    LaterIsRecorded(rooms, w.presence, w.log, EndOf(acts, start), now, ttl);
    SpeakerHasGrant(w, rooms, k, now, ttl);
    if HasGrant(rooms, w.log, k, now + 1, ttl) { GrantHasSpeaker(w, rooms, k, now, ttl); }
  }

  lemma SpeakerHasGrant(w: World, rooms: Directory, k: Key, now: int, ttl: int)
    requires AllRest(rooms, w.presence, w.log, now, ttl)
    ensures Speaks(w.presence, k) && Live(w.presence[k], now, ttl) ==> HasGrant(rooms, w.log, k, now + 1, ttl)
  {
    if Speaks(w.presence, k) && Live(w.presence[k], now, ttl) {
      var until := w.presence[k].lastSeenMs + ttl;
      var i :| GrantStands(rooms, w.log, k, i, until, ttl);
      var longer := now + 1;
      assert GrantStands(rooms, w.log, k, i, longer, ttl);
    }
  }

  lemma GrantHasSpeaker(w: World, rooms: Directory, k: Key, now: int, ttl: int)
    requires IsRecorded(w, rooms, now, ttl) && HasGrant(rooms, w.log, k, now + 1, ttl)
    ensures Speaks(w.presence, k) && Live(w.presence[k], now, ttl)
  {
    var until := now + 1;
    var i :| GrantStands(rooms, w.log, k, i, until, ttl);
    assert GrantOpen(rooms, w.log, k, i);
    assert PresentAt(w.log, k, now, ttl);
  }

  /** In every run, whoever is present is muted if and only if the host muted them and nothing has ended that. */
  lemma MuteIsExact(acts: seq<Timed>, rooms: Directory, start: int, ttl: int, k: Key)
    requires Nondecreasing(start, acts) && k in After(START, acts, rooms, ttl).presence
    ensures var w := After(START, acts, rooms, ttl); w.presence[k].muted <==> !NotMuted(w.log, k)
  {
    RunIsSound(START, acts, rooms, start, ttl);
    RunIsRecorded(START, acts, rooms, start, ttl);
  }

  lemma CredentialKeepsRecord(rooms: Directory, presence: TtlMap, log: seq<Event>, k: Key, publish: bool, now: int, ttl: int)
    requires Recorded(rooms, presence, log, now, ttl)
    ensures Recorded(rooms, presence, log + [Event(Issued(publish), k, now)], now, ttl)
  {
    var ev := Event(Issued(publish), k, now);
    forall x | x in presence ensures SignsUpTo(log + [ev], x, presence[x].lastSeenMs) {
    }
    forall x, i | GrantOpen(rooms, log + [ev], x, i) ensures Speaks(presence, x) || Gap(log + [ev], x, (log + [ev])[i].at, now, ttl) {
      GrantKept(rooms, presence, presence, log, ev, x, i, now, ttl);
    }
    forall x | x in presence && presence[x].muted ensures !NotMuted(log + [ev], x) {
      MuteKept(log, ev, x);
    }
  }
}
