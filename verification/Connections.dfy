/**
 * The use cases that move a pair of users up and down the ladder: asking, accepting and declining a
 * conversation, dialling, answering and ending a call, blocking and unblocking. Each reads the row,
 * decides, and then makes one or two compare-and-set transitions.
 */
module Connections {
  import opened Common
  import opened Relationships

  datatype Kind = RequestDm | AcceptDm | DeclineDm | InviteToCall | AcceptCall | EndCall | BlockUser | UnblockUser

  datatype Act = Act(kind: Kind, actor: UserId, other: UserId)

  datatype Outcome = Done | Invalid | TooMany | NotFound | Denied(reason: Denial) | Conflict | LineBusy | NoLongerAvailable

  // What a use case wants, having read the row: to stop, or to make these transitions in order.
  datatype Plan = Stop(outcome: Outcome) | Proceed(writes: seq<Write>)

  function Decide(act: Act, rel: Relationship, facts: Facts, now: int): Plan {
    var (actor, other) := (act.actor, act.other);
    match act.kind
    case RequestDm =>
      if !facts.withinLimit then Stop(TooMany)
      else if !facts.targetExists then Stop(NotFound)
      else if CanRequestDm(rel, facts).Some? then Stop(Denied(CanRequestDm(rel, facts).value))
      else Proceed([Write(rel.state, DmRequested, Some(actor), None)])
    case AcceptDm =>
      if rel.state != DmRequested || rel.requestedBy != Some(other) || !facts.targetExists then Stop(NotFound)
      else Proceed([Write(DmRequested, DmOpen, None, None)])
    case DeclineDm =>
      if rel.state != DmRequested || rel.requestedBy != Some(other) then Stop(Done)
      else Proceed([Write(DmRequested, Nothing, None, None)])
    case InviteToCall =>
      if !facts.withinLimit then Stop(TooMany)
      else if !facts.targetExists then Stop(NotFound)
      else if CanInviteToCall(rel, facts).Some? then Stop(Denied(CanInviteToCall(rel, facts).value))
      else if CanStartRinging(rel, now).Some? then Stop(Denied(CanStartRinging(rel, now).value))
      else if rel.state == CallOpen then Proceed([RELEASE, Claim(actor)])
      else Proceed([Claim(actor)])
    case AcceptCall =>
      if !facts.targetExists then Stop(NotFound)
      else if CanInviteToCall(rel, facts).Some? then Stop(Denied(CanInviteToCall(rel, facts).value))
      else if CanAcceptCall(rel, actor, now).Some? then Stop(Denied(CanAcceptCall(rel, actor, now).value))
      else Proceed([Write(CallOpen, CallOpen, None, None)])
    case EndCall =>
      if rel.state != CallOpen then Stop(Done) else Proceed([RELEASE])
    case BlockUser =>
      if actor == other then Stop(Invalid)
      else if !facts.targetExists then Stop(NotFound)
      else if rel.state == Blocked then Stop(Done)
      else if !CanTransition(rel.state, Blocked) then Stop(Conflict)
      else Proceed([Write(rel.state, Blocked, None, Some(actor))])
    case UnblockUser =>
      if rel.state != Blocked then Stop(Done)
      else if rel.blockedBy != Some(actor) then Stop(NotFound)
      else Proceed([Write(Blocked, Nothing, None, None)])
  }

  const RELEASE := Write(CallOpen, DmOpen, None, None)

  function Claim(caller: UserId): Write {
    Write(DmOpen, CallOpen, Some(caller), None)
  }

  // The answer when a transition found another state than the one decided on. Only blocking looks again.
  function TooLate(kind: Kind, latest: State): Outcome {
    match kind
    case RequestDm | AcceptDm => Conflict
    case BlockUser => if latest == Blocked then Done else Conflict
    case InviteToCall => LineBusy
    case AcceptCall => NoLongerAvailable
    case DeclineDm | EndCall | UnblockUser => Done
  }

  // A whole use case with nothing in between.
  function Perform(rows: Rows, act: Act, facts: Facts, now: int): (Rows, Outcome) {
    match Decide(act, Read(rows, act.actor, act.other, now), facts, now)
    case Stop(outcome) => (rows, outcome)
    case Proceed(writes) => (rows[PairKey(act.actor, act.other) := Written(act.actor, act.other, writes[|writes| - 1], now)], Done)
  }

  // ---- the use cases as the service runs them ----

  class Service {
    const relationships: MemoryRelationshipRepository

    constructor (relationships: MemoryRelationshipRepository)
      ensures this.relationships == relationships
    {
      this.relationships := relationships;
    }

    method RequestDm(actor: UserId, target: UserId, facts: Facts, now: int) returns (r: Outcome)
      modifies relationships
      ensures (relationships.rows, r) == Perform(old(relationships.rows), Act(Kind.RequestDm, actor, target), facts, now)
    {
      if !facts.withinLimit {
        return TooMany;
      }
      if !facts.targetExists {
        return NotFound;
      }
      var rel := relationships.Get(actor, target, now);
      var denial := CanRequestDm(rel, facts);
      if denial.Some? {
        return Denied(denial.value);
      }
      var updated := relationships.Transition(actor, target, Write(rel.state, DmRequested, Some(actor), None), now);
      return if updated.None? then TooLate(Kind.RequestDm, rel.state) else Done;
    }

    method AcceptDm(actor: UserId, requester: UserId, facts: Facts, now: int) returns (r: Outcome)
      modifies relationships
      ensures (relationships.rows, r) == Perform(old(relationships.rows), Act(Kind.AcceptDm, actor, requester), facts, now)
    {
      var rel := relationships.Get(actor, requester, now);
      if rel.state != DmRequested {
        return NotFound;
      }
      if rel.requestedBy != Some(requester) {
        return NotFound;
      }
      if !facts.targetExists {
        return NotFound;
      }
      var updated := relationships.Transition(actor, requester, Write(DmRequested, DmOpen, None, None), now);
      return if updated.None? then TooLate(Kind.AcceptDm, rel.state) else Done;
    }

    method DeclineDm(actor: UserId, requester: UserId, facts: Facts, now: int) returns (r: Outcome)
      modifies relationships
      ensures (relationships.rows, r) == Perform(old(relationships.rows), Act(Kind.DeclineDm, actor, requester), facts, now)
    {
      r := Done;
      var rel := relationships.Get(actor, requester, now);
      if rel.state != DmRequested || rel.requestedBy != Some(requester) {
        return;
      }
      var _ := relationships.Transition(actor, requester, Write(DmRequested, Nothing, None, None), now);
    }

    method InviteToCall(caller: UserId, target: UserId, facts: Facts, now: int) returns (r: Outcome)
      modifies relationships
      ensures (relationships.rows, r) == Perform(old(relationships.rows), Act(Kind.InviteToCall, caller, target), facts, now)
    {
      if !facts.withinLimit {
        return TooMany;
      }
      if !facts.targetExists {
        return NotFound;
      }
      var rel := relationships.Get(caller, target, now);
      var denial := CanInviteToCall(rel, facts);
      if denial.Some? {
        return Denied(denial.value);
      }
      denial := CanStartRinging(rel, now);
      if denial.Some? {
        return Denied(denial.value);
      }
      if rel.state == CallOpen {
        var released := relationships.Transition(caller, target, RELEASE, now);
        if released.None? {
          return TooLate(Kind.InviteToCall, rel.state);
        }
      }
      ghost var before := relationships.rows;
      var ringing := relationships.Transition(caller, target, Claim(caller), now);
      assert before == old(relationships.rows) || relationships.rows == old(relationships.rows)[PairKey(caller, target) := Written(caller, target, Claim(caller), now)];
      return if ringing.None? then TooLate(Kind.InviteToCall, rel.state) else Done;
    }

    method AcceptCall(acceptor: UserId, caller: UserId, facts: Facts, now: int) returns (r: Outcome)
      modifies relationships
      ensures (relationships.rows, r) == Perform(old(relationships.rows), Act(Kind.AcceptCall, acceptor, caller), facts, now)
    {
      if !facts.targetExists {
        return NotFound;
      }
      var rel := relationships.Get(acceptor, caller, now);
      var denial := CanInviteToCall(rel, facts);
      if denial.Some? {
        return Denied(denial.value);
      }
      denial := CanAcceptCall(rel, acceptor, now);
      if denial.Some? {
        return Denied(denial.value);
      }
      var connected := relationships.Transition(acceptor, caller, Write(CallOpen, CallOpen, None, None), now);
      return if connected.None? then TooLate(Kind.AcceptCall, rel.state) else Done;
    }

    method EndCall(actor: UserId, other: UserId, facts: Facts, now: int) returns (r: Outcome)
      modifies relationships
      ensures (relationships.rows, r) == Perform(old(relationships.rows), Act(Kind.EndCall, actor, other), facts, now)
    {
      r := Done;
      var rel := relationships.Get(actor, other, now);
      if rel.state != CallOpen {
        return;
      }
      var _ := relationships.Transition(actor, other, RELEASE, now);
    }

    method BlockUser(actor: UserId, target: UserId, facts: Facts, now: int) returns (r: Outcome)
      modifies relationships
      ensures (relationships.rows, r) == Perform(old(relationships.rows), Act(Kind.BlockUser, actor, target), facts, now)
    {
      if actor == target {
        return Invalid;
      }
      if !facts.targetExists {
        return NotFound;
      }
      var current := relationships.Get(actor, target, now);
      if current.state == Blocked {
        return Done;
      }
      if !CanTransition(current.state, Blocked) {
        return Conflict;
      }
      var result := relationships.Transition(actor, target, Write(current.state, Blocked, None, Some(actor)), now);
      var latest := relationships.Get(actor, target, now);
      return if result.None? then TooLate(Kind.BlockUser, latest.state) else Done;
    }

    method UnblockUser(actor: UserId, target: UserId, facts: Facts, now: int) returns (r: Outcome)
      modifies relationships
      ensures (relationships.rows, r) == Perform(old(relationships.rows), Act(Kind.UnblockUser, actor, target), facts, now)
    {
      r := Done;
      var current := relationships.Get(actor, target, now);
      if current.state != Blocked {
        return;
      }
      if current.blockedBy != Some(actor) {
        return NotFound;
      }
      var _ := relationships.Transition(actor, target, Write(Blocked, Nothing, None, None), now);
    }
  }
}
