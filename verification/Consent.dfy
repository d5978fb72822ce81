/**
 * What a pair's state says about its past. Every committed change of a pair is recorded with the act
 * that made it; from the state alone one can then tell who agreed to what, in every run of the service.
 */
module Consent {
  import opened Common
  import opened Relationships
  import opened Connections

  // One successful transition.
  datatype Commit = Commit(act: Act, at: int, before: Relationship, after: Relationship)

  // A row that says `none` and a missing row are the same thing, whatever else they hold.
  predicate Alike(x: Relationship, y: Relationship) {
    x == y || (x.state == Nothing && y.state == Nothing)
  }

  // The commits lead from one relationship to the other.
  ghost predicate IsChain(start: Relationship, log: seq<Commit>, end: Relationship) {
    if log == [] then Alike(start, end)
    else
      && Alike(start, log[0].before) && Alike(log[|log| - 1].after, end)
      && (forall i, j {:trigger log[i], log[j]} :: 0 <= i && j == i + 1 && j < |log| ==> Alike(log[i].after, log[j].before))
  }

  // The moves: what each act may turn into what.
  predicate Follows(c: Commit) {
    var (actor, b, e) := (c.act.actor, c.before, c.after);
    && e.updatedAt == c.at
    && match c.act.kind {
      case RequestDm => (b.state == Nothing || b.state == DmRequested) && e.state == DmRequested && e.requestedBy == Some(actor)
      case AcceptDm => b.state == DmRequested && e.state == DmOpen
      case DeclineDm => b.state == DmRequested && e.state == Nothing
      case InviteToCall => (b.state == DmOpen && IsRinging(e, actor)) || (b.state == CallOpen && e.state == DmOpen)
      case AcceptCall => b.state == CallOpen && e.state == CallOpen && e.requestedBy.None?
      case EndCall => b.state == CallOpen && e.state == DmOpen
      case BlockUser => b.state != Blocked && e.state == Blocked && e.blockedBy == Some(actor)
      case UnblockUser => b.state == Blocked && e.state == Nothing
    }
  }

  // The rights: whose decision the change is, judged by the row it replaces.
  predicate Entitled(c: Commit) {
    var (actor, other, b) := (c.act.actor, c.act.other, c.before);
    match c.act.kind
    case AcceptDm | DeclineDm => b.requestedBy == Some(other)
    case InviteToCall => b.state == CallOpen ==> IsLeftover(b, c.at)
    case AcceptCall => b.requestedBy.Some? && b.requestedBy != Some(actor) && c.at - b.updatedAt < CALL_RING_TIMEOUT_MS
    case UnblockUser => b.blockedBy == Some(actor)
    case RequestDm | EndCall | BlockUser => true
  }

  predicate Legal(c: Commit) {
    Follows(c) && Entitled(c)
  }

  predicate IsRinging(rel: Relationship, caller: UserId) {
    rel.state == CallOpen && rel.requestedBy == Some(caller)
  }

  predicate IsLeftover(rel: Relationship, now: int) {
    IsRingStale(rel, now) || IsCallAbandoned(rel, now)
  }

  // The whole past of the pair {a, b}, from the days when it had no row.
  ghost predicate IsStory(a: UserId, b: UserId, log: seq<Commit>, end: Relationship) {
    && a != b && IsChain(Empty(a, b, 0), log, end)
    && (forall c :: c in log ==> Legal(c) && SamePair(c.act.actor, c.act.other, a, b))
  }

  lemma StoryPrefix(a: UserId, b: UserId, log: seq<Commit>, end: Relationship)
    requires IsStory(a, b, log, end) && log != []
    ensures IsStory(a, b, log[..|log| - 1], log[|log| - 1].before)
  {
  }

  // ---- what the state proves ----

  // One user asked at i, the other accepted at j, and the pair was never back at `none` from then on.
  ghost predicate BothAgreed(log: seq<Commit>, i: int, j: int) {
    && 0 <= i < j < |log|
    && log[i].act.kind == RequestDm && log[j].act.kind == AcceptDm
    && log[i].act.actor == log[j].act.other && log[j].act.actor == log[i].act.other
    && (forall k :: i <= k < |log| ==> log[k].after.state != Nothing)
  }

  /** A conversation is open only if, since the pair was last `none`, one user asked and the other accepted. */
  lemma {:induction false} OpenOnlyByConsent(a: UserId, b: UserId, log: seq<Commit>, end: Relationship)
    requires IsStory(a, b, log, end) && IsDmOpen(end)
    ensures exists i, j :: BothAgreed(log, i, j)
    decreases |log|
  {
    var n := |log| - 1;
    StoryPrefix(a, b, log, end);
    LastActOpens(a, b, log, end);
    if log[n].act.kind == AcceptDm {
      PendingRequest(a, b, log[..n], log[n].before);
      assert BothAgreed(log, n - 1, n);
    } else {
      OpenOnlyByConsent(a, b, log[..n], log[n].before);
      var i, j :| BothAgreed(log[..n], i, j);
      AgreementStays(log, i, j);
    }
  }

  lemma LastActOpens(a: UserId, b: UserId, log: seq<Commit>, end: Relationship)
    requires IsStory(a, b, log, end) && IsDmOpen(end)
    ensures log != [] && end == log[|log| - 1].after && Legal(log[|log| - 1]) && SamePair(log[|log| - 1].act.actor, log[|log| - 1].act.other, a, b)
    ensures log[|log| - 1].act.kind == AcceptDm || IsDmOpen(log[|log| - 1].before)
  {
  }

  lemma AgreementStays(log: seq<Commit>, i: int, j: int)
    requires log != [] && BothAgreed(log[..|log| - 1], i, j) && log[|log| - 1].after.state != Nothing
    ensures BothAgreed(log, i, j)
  {
  }

  // A pending request was made by the last act.
  lemma PendingRequest(a: UserId, b: UserId, log: seq<Commit>, end: Relationship)
    requires IsStory(a, b, log, end) && end.state == DmRequested
    ensures log != [] && end == log[|log| - 1].after
    ensures log[|log| - 1].act.kind == RequestDm && end.requestedBy == Some(log[|log| - 1].act.actor)
  {
  }

  // A ringing phone was dialled by the last act.
  lemma RingingCall(a: UserId, b: UserId, log: seq<Commit>, end: Relationship)
    requires IsStory(a, b, log, end) && end.state == CallOpen && end.requestedBy.Some?
    ensures log != [] && end == log[|log| - 1].after
    ensures log[|log| - 1].act.kind == InviteToCall && end.requestedBy == Some(log[|log| - 1].act.actor)
  {
  }

  // The last two changes: one side dialled, the other answered within the ring.
  predicate AnsweredInTime(log: seq<Commit>) {
    |log| >= 2
    && var dial, answer := log[|log| - 2], log[|log| - 1];
      dial.act.kind == InviteToCall && IsRinging(dial.after, dial.act.actor)
      && answer.act.kind == AcceptCall && answer.act.actor == dial.act.other && answer.act.other == dial.act.actor
      && answer.at < dial.at + CALL_RING_TIMEOUT_MS
  }

  /** A call is connected only if one user dialled and the other answered, less than sixty seconds later. */
  lemma ConnectedOnlyByAnswer(a: UserId, b: UserId, log: seq<Commit>, end: Relationship)
    requires IsStory(a, b, log, end) && end.state == CallOpen && end.requestedBy.None?
    ensures AnsweredInTime(log) && end == log[|log| - 1].after
  {
    var n := |log| - 1;
    assert log[n] in log;
    StoryPrefix(a, b, log, end);
    RingingCall(a, b, log[..n], log[n].before);
    assert log[n - 1] in log;
  }

  /** A blocked pair was blocked by the last act, and by the user the row names. */
  lemma BlockedByLastAct(a: UserId, b: UserId, log: seq<Commit>, end: Relationship)
    requires IsStory(a, b, log, end) && end.state == Blocked
    ensures log != [] && log[|log| - 1].act.kind == BlockUser && end == log[|log| - 1].after
    ensures end.blockedBy == Some(log[|log| - 1].act.actor)
  {
  }

  /** The next change of a blocked pair is made by the author of the block, who lifts it, down to `none`. */
  lemma BlockHoldsUntilLifted(a: UserId, b: UserId, log: seq<Commit>, end: Relationship, i: nat)
    requires IsStory(a, b, log, end) && i + 1 < |log| && log[i].after.state == Blocked
    ensures log[i].act.kind == BlockUser && log[i + 1].act.kind == UnblockUser
    ensures log[i + 1].act.actor == log[i].act.actor && log[i + 1].after.state == Nothing
  {
  }

  // ---- the service only writes such stories ----

  datatype Step = Step(act: Act, facts: Facts, now: int)

  function Run(rows: Rows, steps: seq<Step>): Rows
    decreases |steps|
  {
    if steps == [] then rows else Run(Perform(rows, steps[0].act, steps[0].facts, steps[0].now).0, steps[1..])
  }

  function Commits(act: Act, rel: Relationship, writes: seq<Write>, now: int): seq<Commit>
    decreases |writes|
  {
    if writes == [] then []
    else
      var after := Written(act.actor, act.other, writes[0], now);
      [Commit(act, now, rel, after)] + Commits(act, after, writes[1..], now)
  }

  function StepLog(rows: Rows, s: Step): seq<Commit> {
    var rel := Read(rows, s.act.actor, s.act.other, s.now);
    match Decide(s.act, rel, s.facts, s.now)
    case Stop(_) => []
    case Proceed(writes) => Commits(s.act, rel, writes, s.now)
  }

  // What the run wrote for the pair {a, b}, among all other pairs.
  function PairLog(rows: Rows, steps: seq<Step>, a: UserId, b: UserId): seq<Commit>
    decreases |steps|
  {
    if steps == [] then []
    else
      var s := steps[0];
      (if SamePair(s.act.actor, s.act.other, a, b) then StepLog(rows, s) else [])
        + PairLog(Perform(rows, s.act, s.facts, s.now).0, steps[1..], a, b)
  }

  predicate BareSteps(steps: seq<Step>) {
    forall s :: s in steps ==> Bare(s.act.actor) && Bare(s.act.other)
  }

  /**
   * In every run over any number of users, the row of every pair is the end of a legal story of that pair.
   */
  lemma EveryRunIsAStory(steps: seq<Step>, a: UserId, b: UserId, now: int)
    requires a != b && Bare(a) && Bare(b) && BareSteps(steps)
    ensures IsStory(a, b, PairLog(map[], steps, a, b), Read(Run(map[], steps), a, b, now))
  {
    RunIsChain(map[], steps, a, b, 0, now);
  }

  /**
   * The ladder over whole runs: whatever all users did, in whatever order, the state of a pair is evidence.
   * An open conversation was asked for and accepted; a connected call was answered by the side that was
   * rung, in time; a block was applied by the user it names.
   */
  lemma {:induction false} StateIsEvidence(steps: seq<Step>, a: UserId, b: UserId, now: int)
    requires a != b && Bare(a) && Bare(b) && BareSteps(steps)
    ensures Evidence(PairLog(map[], steps, a, b), Read(Run(map[], steps), a, b, now))
  {
    EveryRunIsAStory(steps, a, b, now);
    StoryIsEvidence(a, b, PairLog(map[], steps, a, b), Read(Run(map[], steps), a, b, now));
  }

  ghost predicate Evidence(log: seq<Commit>, rel: Relationship) {
    && (IsDmOpen(rel) ==> exists i, j :: BothAgreed(log, i, j))
    && (rel.state == CallOpen && rel.requestedBy.None? ==> AnsweredInTime(log))
    && (rel.state == Blocked ==> log != [] && log[|log| - 1].act.kind == BlockUser && rel.blockedBy == Some(log[|log| - 1].act.actor))
  }

  lemma StoryIsEvidence(a: UserId, b: UserId, log: seq<Commit>, rel: Relationship)
    requires IsStory(a, b, log, rel)
    ensures Evidence(log, rel)
  {
    if IsDmOpen(rel) { OpenOnlyByConsent(a, b, log, rel); }
    if rel.state == CallOpen && rel.requestedBy.None? { ConnectedOnlyByAnswer(a, b, log, rel); }
    if rel.state == Blocked { BlockedByLastAct(a, b, log, rel); }
  }

  lemma {:induction false} RunIsChain(rows: Rows, steps: seq<Step>, a: UserId, b: UserId, earlier: int, now: int)
    requires a != b && Bare(a) && Bare(b) && BareSteps(steps)
    ensures IsChain(Read(rows, a, b, earlier), PairLog(rows, steps, a, b), Read(Run(rows, steps), a, b, now))
    ensures forall c :: c in PairLog(rows, steps, a, b) ==> Legal(c) && SamePair(c.act.actor, c.act.other, a, b)
    decreases |steps|
  {
    if steps != [] {
      var s, rest := steps[0], steps[1..];
      assert s in steps && BareSteps(rest);
      var rows' := Perform(rows, s.act, s.facts, s.now).0;
      var first := if SamePair(s.act.actor, s.act.other, a, b) then StepLog(rows, s) else [];
      StepIsChain(rows, s, a, b, earlier);
      RunIsChain(rows', rest, a, b, s.now, now);
      var log := PairLog(rows', rest, a, b);
      ChainsJoin(Read(rows, a, b, earlier), first, Read(rows', a, b, s.now), log, Read(Run(rows', rest), a, b, now));
      assert PairLog(rows, steps, a, b) == first + log;
    }
  }

  lemma ChainsJoin(start: Relationship, xs: seq<Commit>, middle: Relationship, ys: seq<Commit>, end: Relationship)
    requires IsChain(start, xs, middle) && IsChain(middle, ys, end)
    ensures IsChain(start, xs + ys, end)
  {
  }

  lemma StepIsChain(rows: Rows, s: Step, a: UserId, b: UserId, earlier: int)
    requires a != b && Bare(a) && Bare(b) && Bare(s.act.actor) && Bare(s.act.other)
    ensures var first := if SamePair(s.act.actor, s.act.other, a, b) then StepLog(rows, s) else [];
      && IsChain(Read(rows, a, b, earlier), first, Read(Perform(rows, s.act, s.facts, s.now).0, a, b, s.now))
      && (forall c :: c in first ==> Legal(c) && SamePair(c.act.actor, c.act.other, a, b))
  {
    PairKeyNamesPair(s.act.actor, s.act.other, a, b);
    var rel := Read(rows, s.act.actor, s.act.other, s.now);
    var plan := Decide(s.act, rel, s.facts, s.now);
    if SamePair(s.act.actor, s.act.other, a, b) && plan.Proceed? {
      OrderedPairNamesPair(s.act.actor, s.act.other, a, b);
      PlanIsLegal(s.act, rel, s.facts, s.now);
    }
  }

  // The commits of one undisturbed use case.
  lemma PlanIsLegal(act: Act, rel: Relationship, facts: Facts, now: int)
    requires Decide(act, rel, facts, now).Proceed? && act.actor != act.other
    ensures var writes := Decide(act, rel, facts, now).writes;
      var log := Commits(act, rel, writes, now);
      && writes != [] && |log| == |writes|
      && IsChain(rel, log, Written(act.actor, act.other, writes[|writes| - 1], now))
      && (forall c :: c in log ==> c.act == act && Legal(c))
  {
    var writes := Decide(act, rel, facts, now).writes;
    var first := Written(act.actor, act.other, writes[0], now);
    if |writes| == 1 {
      assert Commits(act, rel, writes, now) == [Commit(act, now, rel, first)];
    } else {
      var second := Written(act.actor, act.other, writes[1], now);
      assert writes[1..] == [writes[1]];
      assert Commits(act, first, writes[1..], now) == [Commit(act, now, first, second)];
      assert Commits(act, rel, writes, now) == [Commit(act, now, rel, first), Commit(act, now, first, second)];
    }
  }
}
