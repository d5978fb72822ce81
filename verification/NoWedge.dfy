/**
 * No pair can be locked out of calling each other: a lock left by a browser that died stops counting at
 * a known instant, with nothing running, and from every reachable state there is a way to a ringing phone.
 */
module NoWedge {
  import opened Common
  import opened Relationships
  import opened Connections
  import opened Consent

  const NO_OBSTACLE := Facts(true, true, Good, true, true)

  // From when on a line that is taken counts as left over.
  function Deadline(rel: Relationship): int {
    rel.updatedAt + if rel.requestedBy.Some? then CALL_RING_TIMEOUT_MS else CALL_MAX_DURATION_MS
  }

  /**
   * A taken line is left over from its deadline on and not before, for exactly one of the two reasons, and
   * dialling succeeds exactly then, without anybody else doing anything.
   */
  lemma LineFreesItself(rows: Rows, caller: UserId, target: UserId, now: int)
    requires Read(rows, caller, target, now).state == CallOpen
    ensures var rel := Read(rows, caller, target, now);
      var (rows', r) := Perform(rows, Act(InviteToCall, caller, target), NO_OBSTACLE, now);
      && (IsRingStale(rel, now) || IsCallAbandoned(rel, now) <==> Deadline(rel) <= now)
      && !(IsRingStale(rel, now) && IsCallAbandoned(rel, now))
      && (if Deadline(rel) <= now then r == Done && IsRinging(Read(rows', caller, target, now), caller) && Read(rows', caller, target, now).updatedAt == now
          else r == Denied(CallBusy) && rows' == rows)
  {
  }

  // What the two of them can do to get from a state to a ringing phone.
  function WayBack(rel: Relationship, caller: UserId, other: UserId): seq<Act> {
    var dial := Act(InviteToCall, caller, other);
    var ask, agree := Act(RequestDm, caller, other), Act(AcceptDm, other, caller);
    match rel.state
    case Nothing => [ask, agree, dial]
    case DmRequested => if rel.requestedBy == Some(caller) then [agree, dial] else [Act(AcceptDm, caller, other), dial]
    case DmOpen | CallOpen => [dial]
    case Blocked => (if rel.blockedBy == Some(caller) then [Act(UnblockUser, caller, other)] else [Act(UnblockUser, other, caller)]) + [ask, agree, dial]
  }

  function Steps(acts: seq<Act>, now: int): seq<Step>
    decreases |acts|
  {
    if acts == [] then [] else [Step(acts[0], NO_OBSTACLE, now)] + Steps(acts[1..], now)
  }

  // The direction fields name one of the two, wherever the next step depends on them.
  predicate Directed(rel: Relationship, a: UserId, b: UserId) {
    && (rel.state == DmRequested ==> rel.requestedBy == Some(a) || rel.requestedBy == Some(b))
    && (rel.state == Blocked ==> rel.blockedBy == Some(a) || rel.blockedBy == Some(b))
  }

  /** From every state that any run can reach, two willing users get to a ringing phone, from the deadline of a taken line on. */
  lemma NeverWedged(steps: seq<Step>, caller: UserId, other: UserId, now: int)
    requires caller != other && Bare(caller) && Bare(other) && BareSteps(steps)
    requires var rel := Read(Run(map[], steps), caller, other, now); rel.state == CallOpen ==> Deadline(rel) <= now
    ensures var rows := Run(map[], steps);
      var script := Steps(WayBack(Read(rows, caller, other, now), caller, other), now);
      IsRinging(Read(Run(rows, script), caller, other, now), caller)
  {
    var rows := Run(map[], steps);
    var rel := Read(rows, caller, other, now);
    EveryRunIsAStory(steps, caller, other, now);
    var log := PairLog(map[], steps, caller, other);
    if rel.state == DmRequested { PendingRequest(caller, other, log, rel); assert log[|log| - 1] in log; }
    if rel.state == Blocked { BlockedByLastAct(caller, other, log, rel); assert log[|log| - 1] in log; }
    WayBackWorks(rows, caller, other, now);
  }

  lemma WayBackWorks(rows: Rows, caller: UserId, other: UserId, now: int)
    requires caller != other
    requires var rel := Read(rows, caller, other, now); Directed(rel, caller, other) && (rel.state == CallOpen ==> Deadline(rel) <= now)
    ensures IsRinging(Read(Run(rows, Steps(WayBack(Read(rows, caller, other, now), caller, other), now)), caller, other, now), caller)
  {
    var rel := Read(rows, caller, other, now);
    match rel.state
    case Nothing => AskWorks(rows, caller, other, now);
    case DmRequested =>
      if rel.requestedBy == Some(caller) {
        AgreeWorks(rows, other, caller, caller, other, now);
      } else {
        AgreeWorks(rows, caller, other, caller, other, now);
      }
    case DmOpen => DialWorks(rows, caller, other, now);
    case CallOpen => DialWorks(rows, caller, other, now);
    case Blocked =>
      var lift := if rel.blockedBy == Some(caller) then Act(UnblockUser, caller, other) else Act(UnblockUser, other, caller);
      var ask, agree, dial := Act(RequestDm, caller, other), Act(AcceptDm, other, caller), Act(InviteToCall, caller, other);
      OrderedPairNamesPair(caller, other, other, caller);
      assert ([lift] + [ask, agree, dial])[1..] == [ask, agree, dial];
      RunFirst(rows, [lift] + [ask, agree, dial], now);
      AskWorks(Perform(rows, lift, NO_OBSTACLE, now).0, caller, other, now);
  }

  lemma RunFirst(rows: Rows, acts: seq<Act>, now: int)
    requires acts != []
    ensures Run(rows, Steps(acts, now)) == Run(Perform(rows, acts[0], NO_OBSTACLE, now).0, Steps(acts[1..], now))
  {
  }

  lemma AskWorks(rows: Rows, caller: UserId, other: UserId, now: int)
    requires Read(rows, caller, other, now).state == Nothing
    ensures var acts := [Act(RequestDm, caller, other), Act(AcceptDm, other, caller), Act(InviteToCall, caller, other)];
      IsRinging(Read(Run(rows, Steps(acts, now)), caller, other, now), caller)
  {
    var acts := [Act(RequestDm, caller, other), Act(AcceptDm, other, caller), Act(InviteToCall, caller, other)];
    RunFirst(rows, acts, now);
    AgreeWorks(Perform(rows, acts[0], NO_OBSTACLE, now).0, other, caller, caller, other, now);
  }

  lemma AgreeWorks(rows: Rows, actor: UserId, requester: UserId, caller: UserId, other: UserId, now: int)
    requires SamePair(actor, requester, caller, other)
    requires var rel := Read(rows, caller, other, now); rel.state == DmRequested && rel.requestedBy == Some(requester)
    ensures var acts := [Act(AcceptDm, actor, requester), Act(InviteToCall, caller, other)];
      IsRinging(Read(Run(rows, Steps(acts, now)), caller, other, now), caller)
  {
    var acts := [Act(AcceptDm, actor, requester), Act(InviteToCall, caller, other)];
    OrderedPairNamesPair(actor, requester, caller, other);
    RunFirst(rows, acts, now);
    DialWorks(Perform(rows, acts[0], NO_OBSTACLE, now).0, caller, other, now);
  }

  lemma DialWorks(rows: Rows, caller: UserId, other: UserId, now: int)
    requires var rel := Read(rows, caller, other, now); rel.state == DmOpen || (rel.state == CallOpen && Deadline(rel) <= now)
    ensures IsRinging(Read(Run(rows, Steps([Act(InviteToCall, caller, other)], now)), caller, other, now), caller)
  {
    RunFirst(rows, [Act(InviteToCall, caller, other)], now);
  }
}
