/**
 * The rules of the stage, use case by use case: exactly when each is carried out, exactly which answer it gives
 * otherwise, and what it changes. And over runs: every event goes back to an act whose facts allowed it.
 */
module StageRules {
  import opened Common
  import opened PresenceSpec
  import opened Speaking
  import opened SpeakingRuns

  predicate IsHere(w: World, k: Key, now: int, ttl: int) {
    k in w.presence && now - w.presence[k].lastSeenMs < ttl
  }

  predicate IsHereAs(w: World, k: Key, role: Role, now: int, ttl: int) {
    IsHere(w, k, now, ttl) && w.presence[k].role == role
  }

  // Nothing but the entry and the row of k have changed, and the log has grown by these events.
  ghost predicate OnlyOf(w: World, w': World, k: Key, events: seq<Event>) {
    && w'.presence - {k} == w.presence - {k} && w'.mirror - {k} == w.mirror - {k} && w'.log == w.log + events
  }

  ghost predicate Has(w: World, k: Key, e: Entry) {
    k in w.presence && w.presence[k] == e
  }

  // The open row, where there is one, has this role and mute.
  ghost predicate RowSays(w: World, w': World, k: Key, role: Role, muted: bool) {
    (k in w.mirror <==> k in w'.mirror) && (k in w.mirror ==> w'.mirror[k] == Standing(role, muted))
  }

  // ---- each use case ----

  /** Joining: an account that is active and unrestricted, within the limit, into a room that exists and is open. */
  lemma JoinAnswers(w: World, rooms: Directory, k: Key, facts: Facts, now: int, ttl: int)
    ensures var (w', r) := DoJoin(w, rooms, k, facts, now, ttl);
      var welcome := facts.actorActive && !facts.actorRestricted && facts.withinLimit;
      && (r == Done <==> welcome && k.0 in rooms && facts.joinable)
      && (r == NotFound <==> welcome && k.0 !in rooms)
      && (r == Refused <==> r != Done && r != NotFound)
      && (r != Done ==> w' == w)
  {
  }

  /**
   * Whoever is here comes back with the same role, mute and hand; whoever is not arrives as the host of the room
   * or as a listener. The row says the same, and the credential lets hosts and speakers publish who are not muted.
   */
  lemma JoinEffects(w: World, rooms: Directory, k: Key, facts: Facts, now: int, ttl: int)
    requires ttl > 0 && DoJoin(w, rooms, k, facts, now, ttl).1 == Done
    ensures var w' := DoJoin(w, rooms, k, facts, now, ttl).0;
      && k.0 in rooms
      && var e := if IsHere(w, k, now, ttl) then w.presence[k] else Entry(if rooms[k.0].host == k.1 then Host else Listener, false, 0, None);
        && Has(w', k, Entry(e.role, e.muted, now, e.hand))
        && k in w'.mirror && w'.mirror[k] == Standing(e.role, e.muted)
        && OnlyOf(w, w', k, [Event(if IsHere(w, k, now, ttl) then Touched else Arrived, k, now), Event(Issued(e.role != Listener && !e.muted), k, now)])
  {
    assert OnlyOf(w, DoJoin(w, rooms, k, facts, now, ttl).0, k,
      [Event(if IsHere(w, k, now, ttl) then Touched else Arrived, k, now), DoJoin(w, rooms, k, facts, now, ttl).0.log[|w.log| + 1]]);
  }

  // The speakers who count, written out.
  function OnStageNow(w: World, room: string, host: string, now: int, ttl: int): set<Key> {
    set k | k in w.presence && k.0 == room && k.1 != host && IsHereAs(w, k, Speaker, now, ttl)
  }

  /** Approving: the word of a host who is here, in good standing, for a free place and a target who is here. */
  lemma ApproveAnswers(w: World, rooms: Directory, room: string, actor: string, target: string, facts: Facts, now: int, ttl: int)
    ensures var (w', r) := DoApprove(w, rooms, room, actor, target, facts, now, ttl);
      var k, host := (room, target), (room, actor);
      var entitled := room in rooms && facts.actorActive && !facts.actorRestricted && IsHereAs(w, host, Host, now, ttl);
      var free := room in rooms && |OnStageNow(w, room, rooms[room].host, now, ttl)| < rooms[room].maxSpeakers;
      var listens, speaks := IsHereAs(w, k, Listener, now, ttl), IsHere(w, k, now, ttl) && w.presence[k].role != Listener;
      var promotes := entitled && free && listens && facts.targetExists;
      && (r == Full <==> entitled && !free)
      && (r == NotFound <==> room !in rooms || (entitled && free && !speaks && !(listens && facts.targetExists)))
      && (r == Done <==> (entitled && free && speaks) || (promotes && facts.targetGood && !w.presence[k].muted))
      && (r == Refused <==> (room in rooms && !entitled) || (promotes && !(facts.targetGood && !w.presence[k].muted)))
      && (w' != w <==> promotes)
      && (promotes ==>
        var e := w.presence[k];
        && Has(w', k, Entry(Speaker, e.muted, e.lastSeenMs, None))
        && (k in w.mirror ==> RowSays(w, w', k, Speaker, w.mirror[k].muted))
        && OnlyOf(w, w', k, [Event(Approved(host), k, now)] + if r == Done then [Event(Issued(true), k, now)] else []))
  {
    assert room in rooms ==> SpeakersOn(w.presence, room, rooms[room].host, now, ttl) == OnStageNow(w, room, rooms[room].host, now, ttl);
    var w' := DoApprove(w, rooms, room, actor, target, facts, now, ttl).0;
    if w' != w { ApprovalIsOnlyOf(w, rooms, room, actor, target, facts, now, ttl); }
    if MayApprove(w, rooms, room, actor, target, facts, now, ttl) { assert |w'.log| > |w.log|; }
  }

  lemma ApprovalIsOnlyOf(w: World, rooms: Directory, room: string, actor: string, target: string, facts: Facts, now: int, ttl: int)
    requires DoApprove(w, rooms, room, actor, target, facts, now, ttl).0 != w
    ensures var (w', r) := DoApprove(w, rooms, room, actor, target, facts, now, ttl);
      var k, host := (room, target), (room, actor);
      && k in w.presence && Has(w', k, Entry(Speaker, w.presence[k].muted, w.presence[k].lastSeenMs, None))
      && (k in w.mirror ==> RowSays(w, w', k, Speaker, w.mirror[k].muted))
      && OnlyOf(w, w', k, [Event(Approved(host), k, now)] + if r == Done then [Event(Issued(true), k, now)] else [])
  {
  }

  // Moderating is for a host who is here and active, restricted or not, and on others.
  predicate IsModerator(w: World, room: string, actor: string, target: string, facts: Facts, now: int, ttl: int) {
    facts.actorActive && IsHereAs(w, (room, actor), Host, now, ttl) && target != actor
  }

  /** Removing from the stage: by a moderator, of somebody here; listeners are left alone. */
  lemma RemovalAnswers(w: World, room: string, actor: string, target: string, facts: Facts, now: int, ttl: int)
    ensures var (w', r) := DoRemoveSpeaker(w, room, actor, target, facts, now, ttl);
      var k, entitled := (room, target), IsModerator(w, room, actor, target, facts, now, ttl);
      && (r == Refused <==> !entitled)
      && (r == NotFound <==> entitled && !IsHere(w, k, now, ttl))
      && (r == Done <==> entitled && IsHere(w, k, now, ttl))
      && (if r == Done && w.presence[k].role != Listener then
          && Has(w', k, w.presence[k].(role := Listener)) && OnlyOf(w, w', k, [Event(Demoted, k, now)])
          && (k in w.mirror ==> RowSays(w, w', k, Listener, w.mirror[k].muted))
        else w' == w)
  {
  }

  /** Stepping down: speakers become listeners, hosts stay, and whoever is not here is told so. */
  lemma StepDownAnswers(w: World, k: Key, now: int, ttl: int)
    ensures var (w', r) := DoStepDown(w, k, now, ttl);
      && (r == NotFound <==> !IsHere(w, k, now, ttl))
      && (r == Done <==> IsHere(w, k, now, ttl))
      && (if IsHereAs(w, k, Speaker, now, ttl) then
          && Has(w', k, w.presence[k].(role := Listener)) && OnlyOf(w, w', k, [Event(Demoted, k, now)])
          && (k in w.mirror ==> RowSays(w, w', k, Listener, w.mirror[k].muted))
        else w' == w)
  {
  }

  /** Muting and unmuting: by a moderator, of anybody here, whatever their role. */
  lemma MuteAnswers(w: World, room: string, actor: string, target: string, muted: bool, facts: Facts, now: int, ttl: int)
    ensures var (w', r) := DoMute(w, room, actor, target, muted, facts, now, ttl);
      var k, entitled := (room, target), IsModerator(w, room, actor, target, facts, now, ttl);
      && (r == Refused <==> !entitled)
      && (r == NotFound <==> entitled && !IsHere(w, k, now, ttl))
      && (r == Done <==> entitled && IsHere(w, k, now, ttl))
      && (if r == Done then
          && Has(w', k, w.presence[k].(muted := muted)) && OnlyOf(w, w', k, [Event(if muted then HostMuted else Unmuted, k, now)])
          && (k in w.mirror ==> RowSays(w, w', k, w.mirror[k].role, muted))
        else w' == w)
  {
  }

  /** Raising a hand: by a listener here, in good standing and not muted; lowering it: by anybody here, likewise. A hand that is up keeps its time. */
  lemma RaiseHandAnswers(w: World, k: Key, raised: bool, facts: Facts, now: int, ttl: int)
    ensures var (w', r) := DoRaiseHand(w, k, raised, facts, now, ttl);
      var entitled := facts.withinLimit && facts.actorActive && !facts.actorRestricted && IsHere(w, k, now, ttl) && !w.presence[k].muted;
      && (r == Refused <==> !entitled)
      && (r == Done <==> entitled)
      && (if entitled && (raised ==> w.presence[k].role == Listener) then
          var hand := if !raised then None else if w.presence[k].hand.Some? then w.presence[k].hand else Some(now);
          Has(w', k, w.presence[k].(hand := hand)) && OnlyOf(w, w', k, []) && w'.mirror == w.mirror
        else w' == w)
  {
  }

  /** Leaving: gone from the room and from its open rows, with the event, and nobody else is touched. */
  lemma LeaveEffects(w: World, k: Key, now: int)
    ensures var w' := DoLeave(w, k, now);
      k !in w'.presence && k !in w'.mirror && OnlyOf(w, w', k, [Event(Left, k, now)])
  {
  }

  /** A heartbeat moves the clock of whoever is here, and is lost on others. */
  lemma BeatEffects(w: World, k: Key, now: int, ttl: int)
    ensures var w' := DoHeartbeat(w, k, now, ttl);
      if IsHere(w, k, now, ttl) then
        Has(w', k, w.presence[k].(lastSeenMs := now)) && OnlyOf(w, w', k, [Event(Touched, k, now)]) && w'.mirror == w.mirror
      else w' == w
  {
  }

  /** A sweep takes away those of its batch who are not here any more, and nothing else. */
  lemma ReapEffects(w: World, batch: set<Key>, now: int, ttl: int)
    ensures var w' := DoReap(w, batch, now, ttl);
      && w'.mirror == w.mirror && w'.log == w.log
      && (forall k :: k in w'.presence <==> k in w.presence && (k in batch ==> IsHere(w, k, now, ttl)))
      && (forall k :: k in w'.presence ==> w'.presence[k] == w.presence[k])
  {
  }

  // ---- over runs ----

  // The act that made the event, by somebody who was allowed to.
  predicate Makes(t: Timed, e: Event) {
    var (now, a) := t;
    && now == e.at
    && match e.what {
      case Arrived => a.Join? && a.k == e.who && IsWelcome(a.facts)
      case Touched => a == Beat(e.who) || (a.Join? && a.k == e.who && IsWelcome(a.facts))
      case Approved(host) => a.Approve? && (a.room, a.target) == e.who && (a.room, a.actor) == host && a.facts.actorActive && !a.facts.actorRestricted
      case Demoted => a == StepDown(e.who) || (a.RemoveSpeaker? && (a.room, a.target) == e.who && a.facts.actorActive && a.target != a.actor)
      case HostMuted => a.Mute? && a.muted && (a.room, a.target) == e.who && a.facts.actorActive && a.target != a.actor
      case Unmuted => a.Mute? && !a.muted && (a.room, a.target) == e.who && a.facts.actorActive && a.target != a.actor
      case Left => a == Leave(e.who)
      case Issued(publish) =>
        || (a.Join? && a.k == e.who && IsWelcome(a.facts))
        || (publish && a.Approve? && (a.room, a.target) == e.who && a.facts.actorActive && !a.facts.actorRestricted && a.facts.targetExists && a.facts.targetGood)
    }
  }

  predicate IsWelcome(facts: Facts) {
    facts.actorActive && !facts.actorRestricted && facts.withinLimit && facts.joinable
  }

  /**
   * In every run, every event was made by an act of that instant: nobody arrived, was approved or was given a
   * credential on an act of an account that was inactive or restricted, and nobody was muted by one inactive.
   */
  lemma EveryEventHasItsAct(acts: seq<Timed>, rooms: Directory, ttl: int, n: nat)
    requires n < |After(START, acts, rooms, ttl).log|
    ensures exists t :: t in acts && Makes(t, After(START, acts, rooms, ttl).log[n])
  {
    RunMakesEvents(START, acts, rooms, ttl, n);
  }

  lemma {:induction false} RunMakesEvents(w: World, acts: seq<Timed>, rooms: Directory, ttl: int, n: nat)
    requires |w.log| <= n < |After(w, acts, rooms, ttl).log|
    ensures exists t :: t in acts && Makes(t, After(w, acts, rooms, ttl).log[n])
    decreases |acts|
  {
    var (now, a) := acts[0];
    var w' := Next(w, a, rooms, now, ttl);
    StepMakesEvents(w, a, rooms, now, ttl);
    if n < |w'.log| {
      LogGrows(w', acts[1..], rooms, ttl);
      assert acts[0] in acts;
      assert After(w, acts, rooms, ttl).log[n] == w'.log[n];
    } else {
      RunMakesEvents(w', acts[1..], rooms, ttl, n);
    }
  }

  lemma StepMakesEvents(w: World, a: Act, rooms: Directory, now: int, ttl: int)
    ensures var w' := Next(w, a, rooms, now, ttl);
      w.log <= w'.log && forall n :: |w.log| <= n < |w'.log| ==> Makes((now, a), w'.log[n])
  {
  }

  lemma {:induction false} LogGrows(w: World, acts: seq<Timed>, rooms: Directory, ttl: int)
    ensures w.log <= After(w, acts, rooms, ttl).log
    decreases |acts|
  {
    if acts != [] {
      StepMakesEvents(w, acts[0].1, rooms, acts[0].0, ttl);
      LogGrows(Next(w, acts[0].1, rooms, acts[0].0, ttl), acts[1..], rooms, ttl);
    }
  }
}
