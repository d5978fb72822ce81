/**
 * The trust ladder, rung by rung: for every use case between two users, exactly when it is carried out, exactly
 * which answer it gives otherwise, and what becomes of the pair. And over runs: nothing was ever written for
 * somebody who was not entitled to it by the facts, so that behind every open conversation lies a meeting.
 */
module Ladder {
  import opened Common
  import opened Relationships
  import opened Connections
  import opened Consent
  import C = Contention
  import M = Memberships

  // ---- the table and the clocks ----

  /** The edges of the state machine, all of them. */
  lemma TransitionTable(x: State, y: State)
    ensures CanTransition(x, y) <==>
      || (x == Nothing && y == DmRequested)
      || (x == DmRequested && y == DmOpen)
      || (x == DmOpen && y == CallOpen)
      || (x == CallOpen && (y == CallOpen || y == DmOpen))
      || (x != Nothing && y == Nothing)
      || (x != Blocked && y == Blocked)
  {
  }

  /** A ring goes stale after a minute, a call is abandoned after two hours, and no other row is either. */
  lemma LeftoverAfter(rel: Relationship, now: int)
    ensures IsRingStale(rel, now) <==> rel.state == CallOpen && rel.requestedBy.Some? && rel.updatedAt + 60_000 <= now
    ensures IsCallAbandoned(rel, now) <==> rel.state == CallOpen && rel.requestedBy.None? && rel.updatedAt + 7_200_000 <= now
  {
  }

  /** When a phone may be made to ring, whoever asks, and why not. */
  lemma RingingAnswers(rel: Relationship, now: int)
    ensures var denial := CanStartRinging(rel, now);
      var busy := rel.state == CallOpen && now < rel.updatedAt + if rel.requestedBy.Some? then 60_000 else 7_200_000;
      && (denial == Some(NotAvailable) <==> rel.state == Blocked)
      && (denial == Some(CallBusy) <==> busy)
      && (denial == Some(DmNotOpen) <==> rel.state == Nothing || rel.state == DmRequested)
      && (denial == None <==> rel.state == DmOpen || (rel.state == CallOpen && !busy))
  {
  }

  // ---- each use case ----

  // The pair is now in this state, and no other row has changed.
  ghost predicate Became(rows: Rows, rows': Rows, act: Act, state: State, requestedBy: Option<UserId>, blockedBy: Option<UserId>, now: int) {
    && PairKey(act.actor, act.other) in rows'
    && var rel := rows'[PairKey(act.actor, act.other)];
      && rel.state == state && rel.requestedBy == requestedBy && rel.blockedBy == blockedBy && rel.updatedAt == now
      && SamePair(rel.userA, rel.userB, act.actor, act.other)
      && forall k :: k != PairKey(act.actor, act.other) ==> (k in rows <==> k in rows') && (k in rows ==> rows[k] == rows'[k])
  }

  /** Asking: only people in good standing, within the limit, who have shared a room with an active user, and are not there yet. */
  lemma RequestDmAnswers(rows: Rows, a: UserId, b: UserId, facts: Facts, now: int)
    ensures var rel := Read(rows, a, b, now);
      var (rows', r) := Perform(rows, Act(RequestDm, a, b), facts, now);
      var served := facts.withinLimit && facts.targetExists;
      var welcome := served && facts.standing == Good && facts.targetActive;
      && (r == TooMany <==> !facts.withinLimit)
      && (r == NotFound <==> facts.withinLimit && !facts.targetExists)
      && (r == Denied(AccountInactive) <==> served && facts.standing == Inactive)
      && (r == Denied(TrustRestricted) <==> served && facts.standing == Restricted)
      && (r == Denied(TargetInactive) <==> served && facts.standing == Good && !facts.targetActive)
      && (r == Denied(NotAvailable) <==> welcome && rel.state == Blocked)
      && (r == Denied(DmAlreadyOpen) <==> welcome && (rel.state == DmOpen || rel.state == CallOpen))
      && (r == Denied(NoSharedRoom) <==> welcome && (rel.state == Nothing || rel.state == DmRequested) && !facts.shared)
      && (r == Done <==> welcome && (rel.state == Nothing || rel.state == DmRequested) && facts.shared)
      && (if r == Done then Became(rows, rows', Act(RequestDm, a, b), DmRequested, Some(a), None, now) else rows' == rows)
  {
  }

  /** Accepting: only what the other side asked for. */
  lemma AcceptDmAnswers(rows: Rows, a: UserId, b: UserId, facts: Facts, now: int)
    ensures var rel := Read(rows, a, b, now);
      var (rows', r) := Perform(rows, Act(AcceptDm, a, b), facts, now);
      && (r == Done <==> rel.state == DmRequested && rel.requestedBy == Some(b) && facts.targetExists)
      && (r == NotFound <==> r != Done)
      && (if r == Done then Became(rows, rows', Act(AcceptDm, a, b), DmOpen, None, None, now) else rows' == rows)
  {
  }

  /** Declining is never answered with anything but Done, and takes back only what the other side asked for. */
  lemma DeclineDmAnswers(rows: Rows, a: UserId, b: UserId, facts: Facts, now: int)
    ensures var rel := Read(rows, a, b, now);
      var (rows', r) := Perform(rows, Act(DeclineDm, a, b), facts, now);
      && r == Done
      && (if rel.state == DmRequested && rel.requestedBy == Some(b) then Became(rows, rows', Act(DeclineDm, a, b), Nothing, None, None, now) else rows' == rows)
  {
  }

  /** Dialling: on an open conversation, unless the phone has rung for less than a minute or the call lasts less than two hours. */
  lemma InviteToCallAnswers(rows: Rows, a: UserId, b: UserId, facts: Facts, now: int)
    ensures var rel := Read(rows, a, b, now);
      var (rows', r) := Perform(rows, Act(InviteToCall, a, b), facts, now);
      var served := facts.withinLimit && facts.targetExists;
      var welcome := served && facts.standing == Good && facts.targetActive;
      var busy := rel.state == CallOpen && now - rel.updatedAt < if rel.requestedBy.Some? then 60_000 else 7_200_000;
      && (r == TooMany <==> !facts.withinLimit)
      && (r == NotFound <==> facts.withinLimit && !facts.targetExists)
      && (r == Denied(AccountInactive) <==> served && facts.standing == Inactive)
      && (r == Denied(TrustRestricted) <==> served && facts.standing == Restricted)
      && (r == Denied(TargetInactive) <==> served && facts.standing == Good && !facts.targetActive)
      && (r == Denied(NotAvailable) <==> welcome && rel.state == Blocked)
      && (r == Denied(DmNotOpen) <==> welcome && (rel.state == Nothing || rel.state == DmRequested))
      && (r == Denied(CallBusy) <==> welcome && busy)
      && (r == Done <==> welcome && (rel.state == DmOpen || rel.state == CallOpen) && !busy)
      && (if r == Done then Became(rows, rows', Act(InviteToCall, a, b), CallOpen, Some(a), None, now) else rows' == rows)
  {
  }

  /** Answering: only the side that was rung, within a minute. */
  lemma AcceptCallAnswers(rows: Rows, a: UserId, b: UserId, facts: Facts, now: int)
    ensures var rel := Read(rows, a, b, now);
      var (rows', r) := Perform(rows, Act(AcceptCall, a, b), facts, now);
      var welcome := facts.targetExists && facts.standing == Good && facts.targetActive;
      var rung := rel.state == CallOpen && rel.requestedBy.Some? && rel.requestedBy.value != a && now - rel.updatedAt < 60_000;
      && (r == NotFound <==> !facts.targetExists)
      && (r == Denied(AccountInactive) <==> facts.targetExists && facts.standing == Inactive)
      && (r == Denied(TrustRestricted) <==> facts.targetExists && facts.standing == Restricted)
      && (r == Denied(TargetInactive) <==> facts.targetExists && facts.standing == Good && !facts.targetActive)
      && (r == Denied(NotAvailable) <==> welcome && rel.state == Blocked)
      && (r == Denied(DmNotOpen) <==> welcome && (rel.state == Nothing || rel.state == DmRequested))
      && (r == Denied(NoPendingCall) <==> welcome && (rel.state == DmOpen || rel.state == CallOpen) && !rung)
      && (r == Done <==> welcome && rung)
      && (if r == Done then Became(rows, rows', Act(AcceptCall, a, b), CallOpen, None, None, now) else rows' == rows)
  {
  }

  /** Hanging up frees a line that rings and one that is connected, and is no error on any other. */
  lemma EndCallAnswers(rows: Rows, a: UserId, b: UserId, facts: Facts, now: int)
    ensures var rel := Read(rows, a, b, now);
      var (rows', r) := Perform(rows, Act(EndCall, a, b), facts, now);
      && r == Done
      && (if rel.state == CallOpen then Became(rows, rows', Act(EndCall, a, b), DmOpen, None, None, now) else rows' == rows)
  {
  }

  /** Blocking works from every state, in the middle of a call too, whatever the standing of either; a block that stands keeps its author. */
  lemma BlockUserAnswers(rows: Rows, a: UserId, b: UserId, facts: Facts, now: int)
    ensures var rel := Read(rows, a, b, now);
      var (rows', r) := Perform(rows, Act(BlockUser, a, b), facts, now);
      && (r == Invalid <==> a == b)
      && (r == NotFound <==> a != b && !facts.targetExists)
      && (r == Done <==> a != b && facts.targetExists)
      && (if r == Done && rel.state != Blocked then Became(rows, rows', Act(BlockUser, a, b), Blocked, None, Some(a), now) else rows' == rows)
  {
  }

  /** Lifting a block is for its author; for others there is none to lift. */
  lemma UnblockUserAnswers(rows: Rows, a: UserId, b: UserId, facts: Facts, now: int)
    ensures var rel := Read(rows, a, b, now);
      var (rows', r) := Perform(rows, Act(UnblockUser, a, b), facts, now);
      && (r == NotFound <==> rel.state == Blocked && rel.blockedBy != Some(a))
      && (r == Done <==> r != NotFound)
      && (if rel.state == Blocked && rel.blockedBy == Some(a) then Became(rows, rows', Act(UnblockUser, a, b), Nothing, None, None, now) else rows' == rows)
  {
  }

  // ---- over runs ----

  // What a change of this kind needs to know of the two accounts, of the limit, and of their past.
  predicate IsLicensed(kind: Kind, facts: Facts) {
    match kind
    case RequestDm => facts.withinLimit && facts.targetExists && facts.standing == Good && facts.targetActive && facts.shared
    case InviteToCall => facts.withinLimit && facts.targetExists && facts.standing == Good && facts.targetActive
    case AcceptCall => facts.targetExists && facts.standing == Good && facts.targetActive
    case AcceptDm | BlockUser => facts.targetExists
    case DeclineDm | EndCall | UnblockUser => true
  }

  lemma PlanIsLicensed(act: Act, rel: Relationship, facts: Facts, now: int)
    requires Decide(act, rel, facts, now).Proceed?
    ensures IsLicensed(act.kind, facts)
  {
  }

  /** In every run, whatever was written for a pair was written by a step whose facts allowed it. */
  lemma {:induction false} CommitsAreLicensed(rows: Rows, steps: seq<Step>, a: UserId, b: UserId, c: Commit)
    requires c in PairLog(rows, steps, a, b)
    ensures exists s :: s in steps && s.act == c.act && s.now == c.at && IsLicensed(c.act.kind, s.facts)
    decreases |steps|
  {
    var s := steps[0];
    if SamePair(s.act.actor, s.act.other, a, b) && c in StepLog(rows, s) {
      var rel := Read(rows, s.act.actor, s.act.other, s.now);
      PlanIsLicensed(s.act, rel, s.facts, s.now);
      CommitsName(s.act, rel, Decide(s.act, rel, s.facts, s.now).writes, s.now, c);
      assert s in steps;
    } else {
      CommitsAreLicensed(Perform(rows, s.act, s.facts, s.now).0, steps[1..], a, b, c);
    }
  }

  lemma {:induction false} CommitsName(act: Act, rel: Relationship, writes: seq<Write>, now: int, c: Commit)
    requires c in Commits(act, rel, writes, now)
    ensures c.act == act && c.at == now
    decreases |writes|
  {
    var after := Written(act.actor, act.other, writes[0], now);
    if c != Commit(act, now, rel, after) { CommitsName(act, after, writes[1..], now, c); }
  }

  // Every use case in flight, and every change made, goes back to a beginning whose facts allowed it.
  ghost predicate GoesBack(w: C.World, past: seq<C.Event>) {
    && (forall id :: id in w.threads ==> HasBegun(past, w.threads[id].act))
    && (forall c :: c in w.log ==> HasBegun(past, c.act))
  }

  ghost predicate HasBegun(past: seq<C.Event>, act: Act) {
    exists e :: e in past && e.Begin? && e.act == act && IsLicensed(act.kind, e.facts)
  }

  /** The same in every interleaving: every change goes back to a use case that began with facts that allowed it. */
  lemma InterleavedCommitsAreLicensed(es: seq<C.Event>, c: Commit)
    requires c in C.After(C.START, es).log
    ensures exists e :: e in es && e.Begin? && e.act == c.act && IsLicensed(c.act.kind, e.facts)
  {
    RunGoesBack(C.START, [], es);
    assert [] + es == es;
    assert HasBegun(es, c.act);
  }

  lemma {:induction false} RunGoesBack(w: C.World, past: seq<C.Event>, es: seq<C.Event>)
    requires GoesBack(w, past)
    ensures GoesBack(C.After(w, es), past + es)
    decreases |es|
  {
    if es == [] {
      assert past + es == past;
    } else {
      StepGoesBack(w, past, es[0]);
      RunGoesBack(C.Next(w, es[0]), past + [es[0]], es[1..]);
      assert past + [es[0]] + es[1..] == past + es;
    }
  }

  lemma StepGoesBack(w: C.World, past: seq<C.Event>, e: C.Event)
    requires GoesBack(w, past)
    ensures GoesBack(C.Next(w, e), past + [e])
  {
    forall act | HasBegun(past, act) ensures HasBegun(past + [e], act) {
      BegunStays(past, e, act);
    }
    match e
    case Begin(id, act, facts, now) =>
      var rel := C.Seen(w.row, act, now);
      if Decide(act, rel, facts, now).Proceed? {
        PlanIsLicensed(act, rel, facts, now);
        assert e in past + [e];
        assert HasBegun(past + [e], act);
      }
    case Advance(id, now) =>
  }

  lemma BegunStays(past: seq<C.Event>, e: C.Event, act: Act)
    requires HasBegun(past, act)
    ensures HasBegun(past + [e], act)
  {
    var b :| b in past && b.Begin? && b.act == act && IsLicensed(act.kind, b.facts);
    assert b in past + [e];
  }

  // The answer of a use case in flight once it has written, or has found that it cannot.
  function AnswerOf(w: C.World, id: nat, now: int): Option<Outcome> {
    if id !in w.threads || |C.Writes(w.threads[id])| <= w.threads[id].made then None
    else
      var th := w.threads[id];
      var c := C.CommitOf(w, th, now);
      if c.before.state != C.Writes(th)[th.made].expected then Some(TooLate(th.act.kind, c.before.state))
      else if th.made + 1 == |C.Writes(th)| then Some(Done)
      else None
  }

  // What the pair is like for whoever was told that it was done.
  predicate IsAsWanted(kind: Kind, rel: Relationship) {
    match kind
    case RequestDm => rel.state == DmRequested
    case AcceptDm => rel.state == DmOpen
    case InviteToCall | AcceptCall => rel.state == CallOpen
    case BlockUser => rel.state == Blocked
    case DeclineDm => rel.state != DmRequested
    case EndCall => rel.state != CallOpen
    case UnblockUser => rel.state != Blocked
  }

  // How a use case says that somebody else was quicker.
  predicate SaysTooLate(kind: Kind, r: Outcome) {
    match kind
    case RequestDm | AcceptDm | BlockUser => r == Conflict
    case InviteToCall => r == LineBusy
    case AcceptCall => r == NoLongerAvailable
    case DeclineDm | EndCall | UnblockUser => false
  }

  /**
   * However use cases interleave: who is told Done has the pair as wanted, whether by the own write or by that of
   * somebody quicker; and who is not is told the conflict of that use case, and nothing was written. Nobody is
   * answered twice, or writes again.
   */
  lemma AnswersAreTrue(w: C.World, id: nat, now: int)
    requires AnswerOf(w, id, now).Some?
    ensures var r, th, w' := AnswerOf(w, id, now).value, w.threads[id], C.Next(w, C.Advance(id, now));
      && (r == Done ==> IsAsWanted(th.act.kind, C.Seen(w'.row, th.act, now)))
      && (r != Done ==> SaysTooLate(th.act.kind, r) && w'.row == w.row && w'.log == w.log)
      && (th.act.kind == BlockUser && C.Seen(w'.row, th.act, now).state == Blocked ==> r == Done)
      && AnswerOf(w', id, now).None? && C.Next(w', C.Advance(id, now)) == w'
  {
  }

  /** Whoever is in flight with something left to write is answered on its next turn, or on the one after. */
  lemma EverybodyIsAnswered(w: C.World, id: nat, now: int, later: int)
    requires id in w.threads && w.threads[id].made < |C.Writes(w.threads[id])|
    ensures AnswerOf(w, id, now).Some? || AnswerOf(C.Next(w, C.Advance(id, now)), id, later).Some?
    ensures |C.Writes(w.threads[id])| == 1 ==> AnswerOf(w, id, now).Some?
  {
  }

  /** Dialling and answering stamp the row with the instant of their decision, all others with that of their write. */
  lemma StampsAre(w: C.World, id: nat, now: int)
    requires id in w.threads && |C.Next(w, C.Advance(id, now)).log| > |w.log|
    ensures var th, w' := w.threads[id], C.Next(w, C.Advance(id, now));
      var at := if th.act.kind == InviteToCall || th.act.kind == AcceptCall then th.at else now;
      && |w'.log| == |w.log| + 1 && w'.log[|w.log|].at == at && w'.log[|w.log|].act == th.act
      && w'.row == Some(w'.log[|w.log|].after) && w'.row.value.updatedAt == at
      && (w.row.Some? ==> w'.log[|w.log|].before == w.row.value)
      && (w.row.None? ==> w'.log[|w.log|].before.state == Nothing && SamePair(w'.log[|w.log|].before.userA, w'.log[|w.log|].before.userB, th.act.actor, th.act.other))
  {
  }

  /** Behind every open conversation: one of the two asked, in good standing, for which the two had to have shared a room. */
  lemma OpenNeedsSharing(steps: seq<Step>, a: UserId, b: UserId, now: int)
    requires a != b && Bare(a) && Bare(b) && BareSteps(steps)
    requires var state := Read(Run(map[], steps), a, b, now).state; state == DmOpen || state == CallOpen
    ensures exists s :: s in steps && s.act.kind == RequestDm && SamePair(s.act.actor, s.act.other, a, b) && s.facts.shared && s.facts.standing == Good
  {
    var log, rel := PairLog(map[], steps, a, b), Read(Run(map[], steps), a, b, now);
    EveryRunIsAStory(steps, a, b, now);
    OpenOnlyByConsent(a, b, log, rel);
    var i, j :| BothAgreed(log, i, j);
    assert log[i] in log;
    CommitsAreLicensed(map[], steps, a, b, log[i]);
  }

  /**
   * The whole ladder: when asking is told what the record of memberships says, and that record is honest, two
   * users with an open conversation were once in one room together.
   */
  lemma OpenMeansTogetherOnce(steps: seq<Step>, acts: seq<M.Timed>, name: UserId -> M.UserId, a: UserId, b: UserId, now: int)
    requires a != b && Bare(a) && Bare(b) && BareSteps(steps)
    requires forall s :: s in steps && s.act.kind == RequestDm && s.facts.shared ==> IsOnRecord(acts, name(s.act.actor), name(s.act.other))
    requires M.IsHonestUpTo(acts, |acts|, name(a), name(b))
    requires var state := Read(Run(map[], steps), a, b, now).state; state == DmOpen || state == CallOpen
    ensures M.EverTogether(acts, |acts|, name(a), name(b))
  {
    OpenNeedsSharing(steps, a, b, now);
    var s :| s in steps && s.act.kind == RequestDm && SamePair(s.act.actor, s.act.other, a, b) && s.facts.shared;
    var n: nat :| n <= |acts| && M.HaveShared(M.After(acts, n), name(s.act.actor), name(s.act.other));
    M.SharedIsSymmetric(M.After(acts, n), name(a), name(b));
    M.EvidenceIsExactIff(acts, |acts|, name(a), name(b));
    assert M.EverTogether(acts, n, name(a), name(b));
  }

  // At some point so far the record said that these two had shared a room.
  ghost predicate IsOnRecord(acts: seq<M.Timed>, a: M.UserId, b: M.UserId) {
    exists n: nat :: n <= |acts| && M.HaveShared(M.After(acts, n), a, b)
  }
}
