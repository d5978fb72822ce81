/**
 * The same use cases interleaved: any number of them between reading the row and writing it, while the
 * compare-and-set compares nothing but the state. The state machine and its mutex survive; consent
 * survives exactly as far as the row a writer replaces still says what the writer relied on.
 */
module Contention {
  import opened Common
  import opened Relationships
  import opened Connections
  import opened Consent

  // A use case that has decided, from what it saw at an instant, and has made some of its transitions.
  datatype Thread = Thread(act: Act, facts: Facts, seen: Relationship, at: int, made: nat)

  // The row of one pair, the use cases in flight, and the commits so far.
  datatype World = World(row: Option<Relationship>, threads: map<nat, Thread>, log: seq<Commit>)

  const START := World(None, map[], [])

  datatype Event = Begin(id: nat, act: Act, facts: Facts, now: int) | Advance(id: nat, now: int)

  function Seen(row: Option<Relationship>, act: Act, now: int): Relationship {
    row.GetOr(Empty(act.actor, act.other, now))
  }

  function Writes(th: Thread): seq<Write> {
    match Decide(th.act, th.seen, th.facts, th.at)
    case Stop(_) => []
    case Proceed(writes) => writes
  }

  // Dialling and answering read the clock once, right after the row; the others just before they write.
  function StampOf(th: Thread, now: int): int {
    if th.act.kind == InviteToCall || th.act.kind == AcceptCall then th.at else now
  }

  function CommitOf(w: World, th: Thread, now: int): Commit
    requires th.made < |Writes(th)|
  {
    var at := StampOf(th, now);
    Commit(th.act, at, Seen(w.row, th.act, at), Written(th.act.actor, th.act.other, Writes(th)[th.made], at))
  }

  function Next(w: World, e: Event): World {
    match e
    case Begin(id, act, facts, now) =>
      if id in w.threads then w
      else
        var th := Thread(act, facts, Seen(w.row, act, now), now, 0);
        if Writes(th) == [] then w else w.(threads := w.threads[id := th])
    case Advance(id, now) =>
      if id !in w.threads || |Writes(w.threads[id])| <= w.threads[id].made then w
      else
        var th := w.threads[id];
        var c := CommitOf(w, th, now);
        if c.before.state != Writes(th)[th.made].expected then w.(threads := w.threads - {id})
        else World(Some(c.after), w.threads[id := th.(made := th.made + 1)], w.log + [c])
  }

  predicate OnPair(e: Event, a: UserId, b: UserId) {
    e.Begin? ==> SamePair(e.act.actor, e.act.other, a, b)
  }

  function After(w: World, es: seq<Event>): World
    decreases |es|
  {
    if es == [] then w else After(Next(w, es[0]), es[1..])
  }

  // ---- what every interleaving keeps ----

  ghost predicate Past(log: seq<Commit>, rel: Relationship) {
    rel.state == Nothing || exists m :: 0 <= m < |log| && log[m].after == rel
  }

  ghost predicate Sound(w: World, a: UserId, b: UserId) {
    && IsChain(Empty(a, b, 0), w.log, w.row.GetOr(Empty(a, b, 0)))
    && (w.row.Some? && w.row.value.state != Nothing ==> w.log != [] && w.log[|w.log| - 1].after == w.row.value)
    && (forall c :: c in w.log ==> Follows(c) && SamePair(c.act.actor, c.act.other, a, b))
    && (forall id :: id in w.threads ==> Past(w.log, w.threads[id].seen) && SamePair(w.threads[id].act.actor, w.threads[id].act.other, a, b))
    && (forall n :: 0 <= n < |w.log| ==> HasReason(w.log, n))
  }

  // What an act answers to, if it answers to anything.
  predicate Answers(c: Commit, d: Commit) {
    match d.act.kind
    case AcceptDm | DeclineDm => c.act.kind == RequestDm && c.act.actor == d.act.other
    case AcceptCall => c.act.kind == InviteToCall && IsRinging(c.after, d.act.other) && d.at < c.at + CALL_RING_TIMEOUT_MS
    case UnblockUser => c.act.kind == BlockUser && c.act.actor == d.act.actor
    case RequestDm | InviteToCall | EndCall | BlockUser => true
  }

  predicate IsAnswer(kind: Kind) {
    kind == AcceptDm || kind == DeclineDm || kind == AcceptCall || kind == UnblockUser
  }

  ghost predicate HasReason(log: seq<Commit>, n: int)
    requires 0 <= n < |log|
  {
    IsAnswer(log[n].act.kind) ==> exists m :: 0 <= m < n && Answers(log[m], log[n])
  }

  lemma {:induction false} RunIsSound(w: World, es: seq<Event>, a: UserId, b: UserId)
    requires a != b && Sound(w, a, b) && forall e :: e in es ==> OnPair(e, a, b)
    ensures Sound(After(w, es), a, b)
    decreases |es|
  {
    if es != [] {
      assert es[0] in es;
      StepIsSound(w, es[0], a, b);
      RunIsSound(Next(w, es[0]), es[1..], a, b);
    }
  }

  lemma StepIsSound(w: World, e: Event, a: UserId, b: UserId)
    requires a != b && Sound(w, a, b) && OnPair(e, a, b)
    ensures Sound(Next(w, e), a, b)
  {
    match e
    case Begin(id, act, facts, now) => BeginIsSound(w, id, act, facts, now, a, b);
    case Advance(id, now) => AdvanceIsSound(w, id, now, a, b);
  }

  lemma BeginIsSound(w: World, id: nat, act: Act, facts: Facts, now: int, a: UserId, b: UserId)
    requires Sound(w, a, b) && SamePair(act.actor, act.other, a, b)
    ensures Sound(Next(w, Begin(id, act, facts, now)), a, b)
  {
    assert Past(w.log, Seen(w.row, act, now));
  }

  lemma AdvanceIsSound(w: World, id: nat, now: int, a: UserId, b: UserId)
    requires a != b && Sound(w, a, b)
    ensures Sound(Next(w, Advance(id, now)), a, b)
  {
    if id in w.threads && w.threads[id].made < |Writes(w.threads[id])| {
      var th := w.threads[id];
      if CommitOf(w, th, now).before.state == Writes(th)[th.made].expected {
        ThreadIsFair(w, id, a, b);
        CommitFollows(w, th, now);
        CommitHasReason(w, th, now, a, b);
        AppendIsSound(w, id, CommitOf(w, th, now), a, b);
        CommitIsNext(w, id, now);
      } else {
        DropIsSound(w, id, a, b);
      }
    }
  }

  lemma CommitIsNext(w: World, id: nat, now: int)
    requires id in w.threads && w.threads[id].made < |Writes(w.threads[id])|
    requires CommitOf(w, w.threads[id], now).before.state == Writes(w.threads[id])[w.threads[id].made].expected
    ensures var th, c := w.threads[id], CommitOf(w, w.threads[id], now);
      Next(w, Advance(id, now)) == World(Some(c.after), w.threads[id := th.(made := th.made + 1)], w.log + [c])
  {
  }

  lemma ThreadIsFair(w: World, id: nat, a: UserId, b: UserId)
    requires Sound(w, a, b) && id in w.threads
    ensures var th := w.threads[id]; SamePair(th.act.actor, th.act.other, a, b) && Past(w.log, th.seen)
    ensures forall c :: c in w.log ==> Follows(c) && SamePair(c.act.actor, c.act.other, a, b)
  {
  }

  lemma DropIsSound(w: World, id: nat, a: UserId, b: UserId)
    requires Sound(w, a, b)
    ensures Sound(w.(threads := w.threads - {id}), a, b)
  {
  }

  // Whatever happened since, the act is one that the state found allows.
  lemma CommitFollows(w: World, th: Thread, now: int)
    requires th.made < |Writes(th)| && CommitOf(w, th, now).before.state == Writes(th)[th.made].expected
    ensures Follows(CommitOf(w, th, now))
  {
  }

  lemma CommitHasReason(w: World, th: Thread, now: int, a: UserId, b: UserId)
    requires a != b && SamePair(th.act.actor, th.act.other, a, b) && Past(w.log, th.seen) && th.made < |Writes(th)|
    requires forall c :: c in w.log ==> Follows(c) && SamePair(c.act.actor, c.act.other, a, b)
    ensures IsAnswer(th.act.kind) ==> exists m :: 0 <= m < |w.log| && Answers(w.log[m], CommitOf(w, th, now))
  {
  }

  lemma AppendIsSound(w: World, id: nat, c: Commit, a: UserId, b: UserId)
    requires Sound(w, a, b) && id in w.threads && Follows(c) && SamePair(c.act.actor, c.act.other, a, b)
    requires c.before == Seen(w.row, c.act, c.at)
    requires IsAnswer(c.act.kind) ==> exists m :: 0 <= m < |w.log| && Answers(w.log[m], c)
    ensures Sound(World(Some(c.after), w.threads[id := w.threads[id].(made := w.threads[id].made + 1)], w.log + [c]), a, b)
  {
    var log' := w.log + [c];
    assert IsChain(Empty(a, b, 0), log', c.after);
    forall rel | Past(w.log, rel) ensures Past(log', rel) {
      PastStays(w.log, c, rel);
    }
    forall n | 0 <= n < |log'| ensures HasReason(log', n) {
      if n < |w.log| {
        ReasonStays(w.log, c, n);
      } else {
        LastHasReason(w.log, c);
      }
    }
  }

  lemma PastStays(log: seq<Commit>, c: Commit, rel: Relationship)
    requires Past(log, rel)
    ensures Past(log + [c], rel)
  {
    if rel.state != Nothing {
      var m :| 0 <= m < |log| && log[m].after == rel;
      assert (log + [c])[m].after == rel;
    }
  }

  lemma LastHasReason(log: seq<Commit>, c: Commit)
    requires IsAnswer(c.act.kind) ==> exists m :: 0 <= m < |log| && Answers(log[m], c)
    ensures HasReason(log + [c], |log|)
  {
    var log' := log + [c];
    if IsAnswer(c.act.kind) {
      var m :| 0 <= m < |log| && Answers(log[m], c);
      assert Answers(log'[m], log'[|log|]);
    }
  }

  lemma ReasonStays(log: seq<Commit>, c: Commit, n: nat)
    requires n < |log| && HasReason(log, n)
    ensures HasReason(log + [c], n)
  {
    var log' := log + [c];
    if IsAnswer(log[n].act.kind) {
      var m :| 0 <= m < n && Answers(log[m], log[n]);
      assert Answers(log'[m], log'[n]);
    }
  }

  /**
   * In every interleaving, every committed change is an edge of the transition table, except one: asking
   * again while a request is pending, which the rules let through and the table does not list.
   */
  lemma EdgesExceptAskingAgain(es: seq<Event>, a: UserId, b: UserId, i: nat)
    requires a != b && (forall e :: e in es ==> OnPair(e, a, b)) && i < |After(START, es).log|
    ensures var c := After(START, es).log[i];
      CanTransition(c.before.state, c.after.state) <==> !(c.act.kind == RequestDm && c.before.state == DmRequested)
  {
    RunIsSound(START, es, a, b);
    assert After(START, es).log[i] in After(START, es).log;
  }

  /** In every interleaving, between two calls that claimed the line some commit gave it back. */
  lemma OneCallAtATime(es: seq<Event>, a: UserId, b: UserId, i: nat, j: nat)
    requires a != b && (forall e :: e in es ==> OnPair(e, a, b)) && i < j < |After(START, es).log|
    requires IsClaim(After(START, es).log[i]) && IsClaim(After(START, es).log[j])
    ensures exists k :: i < k < j && IsExit(After(START, es).log[k])
  {
    RunIsSound(START, es, a, b);
    ExitBetween(Empty(a, b, 0), After(START, es).log, After(START, es).row.GetOr(Empty(a, b, 0)), i, j);
  }

  predicate IsClaim(c: Commit) {
    c.before.state == DmOpen && c.after.state == CallOpen
  }

  predicate IsExit(c: Commit) {
    c.before.state == CallOpen && c.after.state != CallOpen
  }

  lemma {:induction false} ExitBetween(start: Relationship, log: seq<Commit>, end: Relationship, i: nat, j: nat)
    requires IsChain(start, log, end) && i < j < |log|
    requires log[i].after.state == CallOpen && log[j].before.state != CallOpen
    ensures exists k :: i < k < j && IsExit(log[k])
    decreases j - i
  {
    var next := i + 1;
    assert Alike(log[i].after, log[next].before);
    if log[next].after.state == CallOpen {
      ExitBetween(start, log, end, next, j);
    } else {
      assert IsExit(log[next]);
    }
  }

  /**
   * In every interleaving, whoever accepted had been asked by the other, whoever answered had been rung by
   * the other less than sixty seconds before deciding, and whoever lifted a block had applied one.
   */
  lemma EveryAnswerHadAReason(es: seq<Event>, a: UserId, b: UserId, n: nat)
    requires a != b && (forall e :: e in es ==> OnPair(e, a, b)) && n < |After(START, es).log|
    requires IsAnswer(After(START, es).log[n].act.kind)
    ensures var log := After(START, es).log; exists m :: 0 <= m < n && Answers(log[m], log[n])
  {
    RunIsSound(START, es, a, b);
    assert HasReason(After(START, es).log, n);
  }

  // ---- exactly when consent survives ----

  // The event makes a thread commit its next transition.
  predicate Commits(w: World, e: Event) {
    && e.Advance? && e.id in w.threads && w.threads[e.id].made < |Writes(w.threads[e.id])|
    && var th := w.threads[e.id];
      CommitOf(w, th, e.now).before.state == Writes(th)[th.made].expected
  }

  /**
   * What the compare-and-set does not compare: the row about to be replaced still names who asked, who
   * dialled or who blocked, and the ring is still on, or the line still left over, at the instant of the look.
   */
  predicate StillHolds(row: Option<Relationship>, th: Thread) {
    row.Some? ==>
      var r := row.value;
      match th.act.kind {
        case AcceptDm | DeclineDm => r.requestedBy == th.seen.requestedBy
        case UnblockUser => r.blockedBy == th.seen.blockedBy
        case AcceptCall => r.requestedBy == th.seen.requestedBy && th.at < r.updatedAt + CALL_RING_TIMEOUT_MS
        case InviteToCall =>
          th.made == 0 && th.seen.state == CallOpen ==>
            r.updatedAt + (if r.requestedBy.Some? then CALL_RING_TIMEOUT_MS else CALL_MAX_DURATION_MS) <= th.at
        case RequestDm | EndCall | BlockUser => true
      }
  }

  ghost predicate AllStillHold(w: World, es: seq<Event>)
    decreases |es|
  {
    es == [] || ((Commits(w, es[0]) ==> StillHolds(w.row, w.threads[es[0].id])) && AllStillHold(Next(w, es[0]), es[1..]))
  }

  ghost predicate AllEntitled(log: seq<Commit>) {
    forall c :: c in log ==> Entitled(c)
  }

  /**
   * In every interleaving, every change was its maker's to make if and only if each found the fields it
   * relied on as it had read them; and then the state of the pair is the evidence it is in sequential runs.
   */
  lemma ConsentSurvivesIff(es: seq<Event>, a: UserId, b: UserId)
    requires a != b && forall e :: e in es ==> OnPair(e, a, b)
    ensures AllEntitled(After(START, es).log) <==> AllStillHold(START, es)
    ensures AllStillHold(START, es) ==> Evidence(After(START, es).log, After(START, es).row.GetOr(Empty(a, b, 0)))
  {
    RunIsSound(START, es, a, b);
    EntitledIffAllHold(START, es, a, b);
    var w := After(START, es);
    if AllEntitled(w.log) { StoryIsEvidence(a, b, w.log, w.row.GetOr(Empty(a, b, 0))); }
  }

  lemma {:induction false} EntitledIffAllHold(w: World, es: seq<Event>, a: UserId, b: UserId)
    requires a != b && Sound(w, a, b) && forall e :: e in es ==> OnPair(e, a, b)
    ensures AllEntitled(After(w, es).log) <==> AllEntitled(w.log) && AllStillHold(w, es)
    decreases |es|
  {
    if es != [] {
      assert es[0] in es;
      StepIsSound(w, es[0], a, b);
      StepIsEntitledIff(w, es[0], a, b);
      EntitledIffAllHold(Next(w, es[0]), es[1..], a, b);
    }
  }

  lemma StepIsEntitledIff(w: World, e: Event, a: UserId, b: UserId)
    requires a != b && Sound(w, a, b) && OnPair(e, a, b)
    ensures AllEntitled(Next(w, e).log) <==> AllEntitled(w.log) && (Commits(w, e) ==> StillHolds(w.row, w.threads[e.id]))
  {
    if Commits(w, e) {
      var c := CommitOf(w, w.threads[e.id], e.now);
      EntitledIffStillHolds(w, e, a, b);
      assert Next(w, e).log == w.log + [c];
      assert AllEntitled(w.log + [c]) <==> AllEntitled(w.log) && Entitled(c) by {
        assert c in w.log + [c] && forall x :: x in w.log ==> x in w.log + [c];
      }
    }
  }

  /** One commit is its maker's to make if and only if the fields relied on are as they were read. */
  lemma EntitledIffStillHolds(w: World, e: Event, a: UserId, b: UserId)
    requires a != b && Sound(w, a, b) && Commits(w, e)
    ensures Entitled(CommitOf(w, w.threads[e.id], e.now)) <==> StillHolds(w.row, w.threads[e.id])
  {
    var th := w.threads[e.id];
    if th.act.kind == AcceptCall {
      DialledByOneOfThem(w, w.row.value, a, b);
      DialledByOneOfThem(w, th.seen, a, b);
    }
  }

  lemma DialledByOneOfThem(w: World, rel: Relationship, a: UserId, b: UserId)
    requires Sound(w, a, b) && rel.state == CallOpen && (Past(w.log, rel) || w.row == Some(rel))
    ensures rel.requestedBy.Some? ==> rel.requestedBy == Some(a) || rel.requestedBy == Some(b)
  {
    var m :| 0 <= m < |w.log| && w.log[m].after == rel;
    assert w.log[m] in w.log;
  }

  // A writer replaces the row it read, or the one it has just left behind itself.
  predicate Undisturbed(w: World, e: Event) {
    e.Advance? && e.id in w.threads ==> var th := w.threads[e.id]; w.row.None? || w.row.value == th.seen || th.made > 0
  }

  ghost predicate AllUndisturbed(w: World, es: seq<Event>)
    decreases |es|
  {
    es == [] || (Undisturbed(w, es[0]) && AllUndisturbed(Next(w, es[0]), es[1..]))
  }

  /** In particular, interleaved runs give the same evidence as sequential ones if no writer replaces a row it did not read. */
  lemma UndisturbedRunsConsent(es: seq<Event>, a: UserId, b: UserId)
    requires a != b && (forall e :: e in es ==> OnPair(e, a, b)) && AllUndisturbed(START, es)
    ensures Evidence(After(START, es).log, After(START, es).row.GetOr(Empty(a, b, 0)))
  {
    UndisturbedStillHolds(START, es);
    ConsentSurvivesIff(es, a, b);
  }

  lemma {:induction false} UndisturbedStillHolds(w: World, es: seq<Event>)
    requires AllUndisturbed(w, es)
    ensures AllStillHold(w, es)
    decreases |es|
  {
    if es != [] {
      UndisturbedStillHolds(Next(w, es[0]), es[1..]);
    }
  }

  // ---- and when it does not ----

  const NO_OBSTACLE := Facts(true, true, Good, true, true)

  // A use case nothing comes between.
  function AtOnce(w: World, act: Act, id: nat, now: int): World {
    Next(Next(w, Begin(id, act, NO_OBSTACLE, now)), Advance(id, now))
  }

  lemma AtOnceWrites(w: World, act: Act, id: nat, now: int, write: Write)
    requires id !in w.threads && Decide(act, Seen(w.row, act, now), NO_OBSTACLE, now) == Proceed([write])
    requires write.expected == Seen(w.row, act, now).state
    ensures var v, after := AtOnce(w, act, id, now), Written(act.actor, act.other, write, now);
      && v.row == Some(after) && v.log == w.log + [Commit(act, now, Seen(w.row, act, now), after)]
      && v.threads.Keys == w.threads.Keys + {id} && forall x :: x in w.threads ==> v.threads[x] == w.threads[x]
  {
  }

  // Two acts, then a third that had made up its mind before them.
  function Overtaken(w: World, late: Act, first: Act, second: Act): World {
    Next(AtOnce(AtOnce(Next(w, Begin(1, late, NO_OBSTACLE, 0)), first, 2, 0), second, 3, 0), Advance(1, 0))
  }

  lemma OvertakenWrites(w: World, late: Act, first: Act, second: Act, x: Write, y: Write, z: Write)
    requires 1 !in w.threads && 2 !in w.threads && 3 !in w.threads && w.row.Some?
    requires Decide(late, w.row.value, NO_OBSTACLE, 0) == Proceed([z])
    requires Decide(first, w.row.value, NO_OBSTACLE, 0) == Proceed([x]) && x.expected == w.row.value.state
    requires var r := Written(first.actor, first.other, x, 0);
      Decide(second, r, NO_OBSTACLE, 0) == Proceed([y]) && y.expected == r.state && z.expected == y.to
    ensures var r, r', r'' := Written(first.actor, first.other, x, 0), Written(second.actor, second.other, y, 0), Written(late.actor, late.other, z, 0);
      var v := Overtaken(w, late, first, second);
      && v.row == Some(r'')
      && v.log == w.log + [Commit(first, 0, w.row.value, r)] + [Commit(second, 0, r, r')] + [Commit(late, 0, r', r'')]
  {
    var w1 := Next(w, Begin(1, late, NO_OBSTACLE, 0));
    AtOnceWrites(w1, first, 2, 0, x);
    AtOnceWrites(AtOnce(w1, first, 2, 0), second, 3, 0, y);
    assert Writes(w1.threads[1]) == [z];
  }

  /**
   * Accepting compares the state only. While b is accepting a's request, b declines it and asks instead;
   * the acceptance then opens the conversation on b's own request, though a's is no longer there.
   */
  lemma AcceptingOnesOwnRequest(a: UserId, b: UserId)
    requires a != b
    ensures AcceptsOwn(AtOnce(START, Act(RequestDm, a, b), 0, 0), a, b)
  {
    AtOnceWrites(START, Act(RequestDm, a, b), 0, 0, Write(Nothing, DmRequested, Some(a), None));
    OwnRequestAccepted(AtOnce(START, Act(RequestDm, a, b), 0, 0), a, b);
  }

  ghost predicate AcceptsOwn(w: World, a: UserId, b: UserId) {
    var v := Overtaken(w, Act(AcceptDm, b, a), Act(DeclineDm, b, a), Act(RequestDm, b, a));
    v.row.Some? && v.row.value.state == DmOpen && !exists i, j :: BothAgreed(v.log, i, j)
  }

  lemma OwnRequestAccepted(w: World, a: UserId, b: UserId)
    requires a != b && w.threads.Keys == {0} && w.row.Some? && w.row.value.state == DmRequested && w.row.value.requestedBy == Some(a)
    requires |w.log| == 1 && w.log[0].act == Act(RequestDm, a, b)
    ensures AcceptsOwn(w, a, b)
  {
    var x, y, z := Write(DmRequested, Nothing, None, None), Write(Nothing, DmRequested, Some(b), None), Write(DmRequested, DmOpen, None, None);
    OvertakenWrites(w, Act(AcceptDm, b, a), Act(DeclineDm, b, a), Act(RequestDm, b, a), x, y, z);
    var v := Overtaken(w, Act(AcceptDm, b, a), Act(DeclineDm, b, a), Act(RequestDm, b, a));
    assert |v.log| == 4 && v.log[1].after.state == Nothing;
    assert v.log[2].act.actor == b && v.log[3].act == Act(AcceptDm, b, a);
  }

  /** Lifting a block compares the state only: a lifts a block of its own that is gone, and with it the one b has applied since. */
  lemma LiftingAnothersBlock(a: UserId, b: UserId)
    requires a != b
    ensures LiftsAnothers(AtOnce(START, Act(BlockUser, a, b), 0, 0), a, b)
  {
    AtOnceWrites(START, Act(BlockUser, a, b), 0, 0, Write(Nothing, Blocked, None, Some(a)));
    AnothersBlockLifted(AtOnce(START, Act(BlockUser, a, b), 0, 0), a, b);
  }

  ghost predicate LiftsAnothers(w: World, a: UserId, b: UserId) {
    var v := Overtaken(w, Act(UnblockUser, a, b), Act(UnblockUser, a, b), Act(BlockUser, b, a));
    && v.row.Some? && v.row.value.state == Nothing && v.log != []
    && var last := v.log[|v.log| - 1];
      last.act == Act(UnblockUser, a, b) && last.before.state == Blocked && last.before.blockedBy == Some(b)
  }

  lemma AnothersBlockLifted(w: World, a: UserId, b: UserId)
    requires a != b && w.threads.Keys == {0} && w.row.Some? && w.row.value.state == Blocked && w.row.value.blockedBy == Some(a)
    ensures LiftsAnothers(w, a, b)
  {
    var lift, again := Write(Blocked, Nothing, None, None), Write(Nothing, Blocked, None, Some(b));
    OvertakenWrites(w, Act(UnblockUser, a, b), Act(UnblockUser, a, b), Act(BlockUser, b, a), lift, again, lift);
  }

  // Asked, accepted, and dialled by a.
  function Dialled(a: UserId, b: UserId): World {
    AtOnce(Opened(a, b), Act(InviteToCall, a, b), 5, 0)
  }

  function Opened(a: UserId, b: UserId): World {
    AtOnce(AtOnce(START, Act(RequestDm, a, b), 0, 0), Act(AcceptDm, b, a), 4, 0)
  }

  lemma OpenedIsOpen(a: UserId, b: UserId)
    requires a != b
    ensures var w := Opened(a, b); w.threads.Keys == {0, 4} && w.row == Some(Written(b, a, Write(DmRequested, DmOpen, None, None), 0))
  {
    AtOnceWrites(START, Act(RequestDm, a, b), 0, 0, Write(Nothing, DmRequested, Some(a), None));
    AtOnceWrites(AtOnce(START, Act(RequestDm, a, b), 0, 0), Act(AcceptDm, b, a), 4, 0, Write(DmRequested, DmOpen, None, None));
  }

  /** Answering compares the state only: b answers a's call after ending it and dialling itself, so b connects the call it placed. */
  lemma AnsweringOnesOwnCall(a: UserId, b: UserId)
    requires a != b
    ensures AnswersOwn(Dialled(a, b), a, b)
  {
    OpenedIsOpen(a, b);
    AtOnceWrites(Opened(a, b), Act(InviteToCall, a, b), 5, 0, Claim(a));
    OwnCallAnswered(Dialled(a, b), a, b);
  }

  ghost predicate AnswersOwn(w: World, a: UserId, b: UserId) {
    var v := Overtaken(w, Act(AcceptCall, b, a), Act(EndCall, b, a), Act(InviteToCall, b, a));
    && v.row.Some? && v.row.value.state == CallOpen && v.row.value.requestedBy.None? && v.log != []
    && var last := v.log[|v.log| - 1]; last.act == Act(AcceptCall, b, a) && last.before.requestedBy == Some(b)
  }

  lemma OwnCallAnswered(w: World, a: UserId, b: UserId)
    requires a != b && w.threads.Keys == {0, 4, 5} && w.row == Some(Written(a, b, Claim(a), 0))
    ensures AnswersOwn(w, a, b)
  {
    OvertakenWrites(w, Act(AcceptCall, b, a), Act(EndCall, b, a), Act(InviteToCall, b, a), RELEASE, Claim(b), Write(CallOpen, CallOpen, None, None));
  }

  /** Asking again does commit a change the table does not list, and it turns the request around. */
  lemma AskingBackTurnsRequest(a: UserId, b: UserId)
    requires a != b
    ensures var w := AtOnce(AtOnce(START, Act(RequestDm, a, b), 0, 0), Act(RequestDm, b, a), 1, 0);
      && |w.log| == 2 && w.row == Some(w.log[1].after)
      && w.log[1].before.state == DmRequested == w.log[1].after.state && !CanTransition(DmRequested, DmRequested)
      && w.log[1].before.requestedBy == Some(a) && w.log[1].after.requestedBy == Some(b)
  {
    AtOnceWrites(START, Act(RequestDm, a, b), 0, 0, Write(Nothing, DmRequested, Some(a), None));
    AtOnceWrites(AtOnce(START, Act(RequestDm, a, b), 0, 0), Act(RequestDm, b, a), 1, 0, Write(DmRequested, DmRequested, Some(b), None));
  }
}
