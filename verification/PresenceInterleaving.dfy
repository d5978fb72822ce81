/**
 * Presence with each script or command as one step and any number of processes between any two of
 * them. Reapers claim in one step and clean up in later ones; patches write back fields they read
 * earlier; the room-set clean-up removes what it saw earlier. Arrivals are numbered, so that it can be
 * said which arrival a claim belongs to.
 */
module PresenceInterleaving {
  import opened Common
  import opened PresenceSpec
  import opened PresenceScripts

  // A member claimed by a reaper at an instant, under the number of the arrival that put it there.
  datatype Claim = Claim(arrival: nat, at: int)

  /**
   * `arrival` numbers the arrival behind each member of the index; `touched` is when an arrival was
   * last made, repeated or refreshed. `cleaning` are claimed members whose fields are still to be
   * forgotten, `dropping` the (room, user) pairs some reader found stale and is about to remove.
   */
  datatype World = World(
    redis: Redis,
    arrival: map<string, nat>,
    touched: map<nat, int>,
    next: nat,
    claims: seq<Claim>,
    cleaning: multiset<Key>,
    dropping: multiset<Key>)

  const START := World(EMPTY, map[], map[], 0, [], multiset{}, multiset{})

  datatype Step =
    | Online(room: string, user: string, payload: Stored)
    | Offline(room: string, user: string)
    | Beat(room: string, user: string)
    | WriteBack(key: Key, fields: Stored)
    | ClaimBatch(batch: seq<string>)
    | Forget(key: Key)
    | FindStale(key: Key)
    | DropStale(key: Key)

  ghost predicate Enabled(w: World, step: Step, now: int) {
    match step
    case ClaimBatch(batch) => IsReapBatch(w.redis, batch, now)
    case Forget(key) => key in w.cleaning
    case FindStale(key) => key in w.redis.userRooms && !HasLiveDeadline(w.redis, key.0, key.1, now)
    case DropStale(key) => key in w.dropping
    case _ => true
  }

  function Next(w: World, step: Step, now: int, ttl: int): World {
    match step
    case Online(room, user, payload) =>
      var member := MemberKey(room, user);
      var (s', isNew) := SetOnlineScript(w.redis, room, user, payload, now + ttl, now);
      // The check on w.arrival only makes the numbering total; an indexed member always has one.
      if isNew || member !in w.arrival
      then w.(redis := s', arrival := w.arrival[member := w.next], touched := w.touched[w.next := now], next := w.next + 1)
      else w.(redis := s', touched := w.touched[w.arrival[member] := now])
    case Offline(room, user) =>
      w.(redis := SetOfflineScript(w.redis, room, user), arrival := w.arrival - {MemberKey(room, user)})
    case Beat(room, user) =>
      var member := MemberKey(room, user);
      var (s', ok) := HeartbeatScript(w.redis, member, now, now + ttl);
      if ok && member in w.arrival then w.(redis := s', touched := w.touched[w.arrival[member] := now]) else w.(redis := s')
    case WriteBack(key, fields) => w.(redis := WriteFields(w.redis, key, fields))
    case ClaimBatch(batch) =>
      w.(redis := ReapScript(w.redis, batch), arrival := w.arrival - Elements(batch),
        claims := w.claims + ClaimsOf(w, batch, now), cleaning := w.cleaning + multiset(ParsedKeys(batch)))
    case Forget(key) => w.(redis := ForgetMember(w.redis, key), cleaning := w.cleaning - multiset{key})
    case FindStale(key) => w.(dropping := w.dropping + multiset{key})
    case DropStale(key) => w.(redis := w.redis.(userRooms := w.redis.userRooms - {key}), dropping := w.dropping - multiset{key})
  }

  function ClaimsOf(w: World, batch: seq<string>, now: int): seq<Claim> {
    seq(|batch|, i requires 0 <= i < |batch| => Claim(if batch[i] in w.arrival then w.arrival[batch[i]] else 0, now))
  }

  function ParsedKeys(batch: seq<string>): seq<Key> {
    if batch == [] then []
    else (if ParseMemberKey(batch[0]).Some? then [ParseMemberKey(batch[0]).value] else []) + ParsedKeys(batch[1..])
  }

  type Timed = (int, Step)

  ghost predicate IsRun(w: World, steps: seq<Timed>, start: int, ttl: int)
    decreases |steps|
  {
    steps == [] ||
    (start <= steps[0].0 && Enabled(w, steps[0].1, steps[0].0)
     && IsRun(Next(w, steps[0].1, steps[0].0, ttl), steps[1..], steps[0].0, ttl))
  }

  function After(w: World, steps: seq<Timed>, ttl: int): World
    decreases |steps|
  {
    if steps == [] then w else After(Next(w, steps[0].1, steps[0].0, ttl), steps[1..], ttl)
  }

  // ---- each arrival is claimed at most once, and only after its deadline ----

  ghost predicate Numbered(w: World, ttl: int) {
    && w.arrival.Keys == w.redis.expiry.Keys
    && (forall v :: v in w.arrival ==> w.arrival[v] in w.touched && w.redis.expiry[v] == w.touched[w.arrival[v]] + ttl)
    && (forall v, u :: v in w.arrival && u in w.arrival && v != u ==> w.arrival[v] != w.arrival[u])
    && (forall n :: n in w.touched ==> n < w.next)
    && (forall v, i :: v in w.arrival && 0 <= i < |w.claims| ==> w.arrival[v] != w.claims[i].arrival)
    && ClaimedOnce(w, ttl)
  }

  ghost predicate ClaimedOnce(w: World, ttl: int) {
    && (forall i, j :: 0 <= i < j < |w.claims| ==> w.claims[i].arrival != w.claims[j].arrival)
    && (forall i :: 0 <= i < |w.claims| ==>
      w.claims[i].arrival in w.touched && w.touched[w.claims[i].arrival] + ttl <= w.claims[i].at)
  }

  /**
   * Whatever reapers, joins, leaves, heartbeats and patches interleave: no arrival is claimed twice,
   * and none within a time to live of the last sign of life of that arrival.
   */
  lemma ArrivalsAreClaimedOnce(steps: seq<Timed>, start: int, ttl: int)
    requires IsRun(START, steps, start, ttl)
    ensures ClaimedOnce(After(START, steps, ttl), ttl)
  {
    NumberedThroughout(START, steps, start, ttl);
  }

  lemma {:induction false} NumberedThroughout(w: World, steps: seq<Timed>, start: int, ttl: int)
    requires Numbered(w, ttl) && IsRun(w, steps, start, ttl)
    ensures Numbered(After(w, steps, ttl), ttl)
    decreases |steps|
  {
    if steps != [] {
      var (now, step) := steps[0];
      match step {
        case Online(room, user, payload) => OnlineKeepsNumbers(w, room, user, payload, now, ttl);
        case Beat(room, user) => BeatKeepsNumbers(w, room, user, now, ttl);
        case ClaimBatch(batch) => ClaimKeepsNumbers(w, batch, now, ttl);
        case _ => RestKeepsNumbers(w, step, now, ttl);
      }
      NumberedThroughout(Next(w, step, now, ttl), steps[1..], now, ttl);
    }
  }

  lemma OnlineKeepsNumbers(w: World, room: string, user: string, payload: Stored, now: int, ttl: int)
    requires Numbered(w, ttl)
    ensures Numbered(Next(w, Online(room, user, payload), now, ttl), ttl)
  {
    Touch(w, MemberKey(room, user), now, ttl);
    Arrive(w, MemberKey(room, user), now, ttl);
  }

  lemma BeatKeepsNumbers(w: World, room: string, user: string, now: int, ttl: int)
    requires Numbered(w, ttl)
    ensures Numbered(Next(w, Beat(room, user), now, ttl), ttl)
  {
    Touch(w, MemberKey(room, user), now, ttl);
  }

  // Only the deadlines matter to the numbering.
  function Renewed(w: World, member: string, now: int, ttl: int): World {
    w.(redis := w.redis.(expiry := w.redis.expiry[member := now + ttl]))
  }

  lemma Touch(w: World, member: string, now: int, ttl: int)
    requires Numbered(w, ttl)
    ensures member in w.arrival ==> Numbered(Renewed(w, member, now, ttl).(touched := w.touched[w.arrival[member] := now]), ttl)
  {
  }

  lemma Arrive(w: World, member: string, now: int, ttl: int)
    requires Numbered(w, ttl)
    ensures Numbered(Renewed(w, member, now, ttl).(
      arrival := w.arrival[member := w.next], touched := w.touched[w.next := now], next := w.next + 1), ttl)
  {
  }

  lemma RestKeepsNumbers(w: World, step: Step, now: int, ttl: int)
    requires Numbered(w, ttl) && !step.Online? && !step.Beat? && !step.ClaimBatch?
    ensures Numbered(Next(w, step, now, ttl), ttl)
  {
  }

  lemma ClaimKeepsNumbers(w: World, batch: seq<string>, now: int, ttl: int)
    requires Numbered(w, ttl) && IsReapBatch(w.redis, batch, now)
    ensures Numbered(Next(w, ClaimBatch(batch), now, ttl), ttl)
  {
    var w' := Next(w, ClaimBatch(batch), now, ttl);
    forall i | |w.claims| <= i < |w'.claims|
      ensures var v := batch[i - |w.claims|]; v in batch && v in w.arrival && w'.claims[i] == Claim(w.arrival[v], now)
    {
      assert batch[i - |w.claims|] in batch;
    }
  }

  // ---- a lapsed member stays unseen until it is admitted again ----

  ghost predicate Unseen(s: Redis, room: string, user: string, now: int, ttl: int) {
    && !HasLiveDeadline(s, room, user, now)
    && ReadMember(s, (room, user), now, ttl).None?
    && room !in ReadRoomsOf(s, user, now)
    && MemberKey(room, user) !in LiveMembers(s, now)
    && !HeartbeatScript(s, MemberKey(room, user), now, now + ttl).1
  }

  /**
   * Once a deadline has passed, no heartbeat, write-back or sweep of any process brings the member
   * back: every read at every later instant of the run misses it, until somebody admits it again.
   */
  lemma {:induction false} LapsedStaysUnseen(w: World, steps: seq<Timed>, start: int, ttl: int, room: string, user: string, end: int)
    requires !HasLiveDeadline(w.redis, room, user, start)
    requires IsRun(w, steps, start, ttl)
    requires forall i :: 0 <= i < |steps| ==> !Admits(steps[i].1, MemberKey(room, user))
    requires start <= end && (steps != [] ==> steps[|steps| - 1].0 <= end)
    ensures Unseen(After(w, steps, ttl).redis, room, user, end, ttl)
    decreases |steps|
  {
    if steps != [] {
      var (now, step) := steps[0];
      var w' := Next(w, step, now, ttl);
      StaysLapsed(w, step, start, now, ttl, room, user);
      RunsForward(w', steps[1..], now, ttl);
      LapsedStaysUnseen(w', steps[1..], now, ttl, room, user, end);
    } else {
      LapsedIsUnseen(w.redis, room, user, start, end, ttl);
    }
  }

  predicate Admits(step: Step, member: string) {
    step.Online? && MemberKey(step.room, step.user) == member
  }

  lemma StaysLapsed(w: World, step: Step, start: int, now: int, ttl: int, room: string, user: string)
    requires !HasLiveDeadline(w.redis, room, user, start) && start <= now && !Admits(step, MemberKey(room, user))
    ensures !HasLiveDeadline(Next(w, step, now, ttl).redis, room, user, now)
  {
  }

  lemma LapsedIsUnseen(s: Redis, room: string, user: string, start: int, now: int, ttl: int)
    requires !HasLiveDeadline(s, room, user, start) && start <= now
    ensures Unseen(s, room, user, now, ttl)
  {
    NoDeadlineNoRoom(s, room, user, now);
  }

  lemma NoDeadlineNoRoom(s: Redis, room: string, user: string, now: int)
    requires !HasLiveDeadline(s, room, user, now)
    ensures room !in ReadRoomsOf(s, user, now)
  {
  }

  lemma {:induction false} RunsForward(w: World, steps: seq<Timed>, start: int, ttl: int)
    requires IsRun(w, steps, start, ttl)
    ensures steps != [] ==> start <= steps[|steps| - 1].0
    decreases |steps|
  {
    if |steps| > 1 {
      RunsForward(Next(w, steps[0].1, steps[0].0, ttl), steps[1..], steps[0].0, ttl);
    }
  }

  // ---- when does a live deadline keep its fields? ----

  // Nobody is admitted while an earlier claim or stale reading of theirs still waits to be cleaned up.
  predicate Unhurried(w: World, step: Step) {
    step.Online? ==> (step.room, step.user) !in w.cleaning && (step.room, step.user) !in w.dropping
  }

  ghost predicate AllUnhurried(w: World, steps: seq<Timed>, ttl: int)
    decreases |steps|
  {
    steps == [] || (Unhurried(w, steps[0].1) && AllUnhurried(Next(w, steps[0].1, steps[0].0, ttl), steps[1..], ttl))
  }

  // Ids are minted without bars, so members and keys correspond one to one.
  predicate BareIds(step: Step) {
    match step
    case Online(room, user, _) => Bare(room) && Bare(user)
    case Offline(_, user) => Bare(user)
    case Beat(_, user) => Bare(user)
    case _ => true
  }

  ghost predicate Complete(s: Redis, now: int) {
    forall v :: v in LiveMembers(s, now) ==>
      ParseMemberKey(v).Some? && ParseMemberKey(v).value in s.hash && ParseMemberKey(v).value in s.userRooms
  }

  // Every indexed member has its fields, and its room too unless it has lapsed; what waits to be
  // cleaned up is not indexed, or at least lapsed.
  ghost predicate Tidy(w: World, now: int) {
    && (forall v :: v in w.redis.expiry ==> Indexed(w.redis, v) && (w.redis.expiry[v] > now ==> ParseMemberKey(v).value in w.redis.userRooms))
    && (forall k :: k in w.cleaning ==> Proper(k) && Member(k) !in w.redis.expiry)
    && (forall k :: k in w.dropping ==> Proper(k) && (Member(k) in w.redis.expiry ==> w.redis.expiry[Member(k)] <= now))
    && (forall k :: k in w.redis.userRooms ==> Proper(k))
  }

  predicate Proper(k: Key) {
    ParseMemberKey(Member(k)) == Some(k)
  }

  ghost predicate Indexed(s: Redis, v: string) {
    var k := ParseMemberKey(v);
    k.Some? && Member(k.value) == v && k.value in s.hash && Bare(k.value.1)
  }

  /** With no hurried admission, every live deadline keeps its fields and its place in the user's rooms. */
  lemma {:induction false} FieldsSurvive(w: World, steps: seq<Timed>, start: int, ttl: int)
    requires Tidy(w, start) && IsRun(w, steps, start, ttl) && AllUnhurried(w, steps, ttl)
    requires forall i :: 0 <= i < |steps| ==> BareIds(steps[i].1)
    ensures Complete(After(w, steps, ttl).redis, if steps == [] then start else steps[|steps| - 1].0)
    decreases |steps|
  {
    if steps != [] {
      var (now, step) := steps[0];
      StepKeepsTidy(w, step, now, ttl);
      FieldsSurvive(Next(w, step, now, ttl), steps[1..], now, ttl);
    }
  }

  lemma StepKeepsTidy(w: World, step: Step, now: int, ttl: int)
    requires Tidy(w, now) && Enabled(w, step, now) && Unhurried(w, step) && BareIds(step)
    ensures Tidy(Next(w, step, now, ttl), now)
  {
    match step
    case Online(room, user, payload) =>
      ParsesBackIffBare(room, user);
      OnlineKeepsTidy(w, room, user, payload, now, ttl);
    case Offline(room, user) => OfflineKeepsTidy(w, room, user, now, ttl);
    case ClaimBatch(batch) => ClaimKeepsTidy(w, batch, now, ttl);
    case Beat(room, user) => BeatKeepsTidy(w, room, user, now, ttl);
    case WriteBack(key, fields) =>
    case Forget(key) => ForgetKeepsTidy(w, key, now, ttl);
    case FindStale(key) => StaleKeepsTidy(w, step, now, ttl);
    case DropStale(key) => StaleKeepsTidy(w, step, now, ttl);
  }

  lemma OnlineKeepsTidy(w: World, room: string, user: string, payload: Stored, now: int, ttl: int)
    requires Tidy(w, now) && Unhurried(w, Online(room, user, payload)) && Bare(user) && Proper((room, user))
    ensures Tidy(Next(w, Online(room, user, payload), now, ttl), now)
  {
    forall k | k in w.cleaning || k in w.dropping ensures Member(k) != MemberKey(room, user) {
      assert k != (room, user);
    }
  }

  lemma OfflineKeepsTidy(w: World, room: string, user: string, now: int, ttl: int)
    requires Tidy(w, now) && Bare(user)
    ensures Tidy(Next(w, Offline(room, user), now, ttl), now)
  {
  }

  lemma BeatKeepsTidy(w: World, room: string, user: string, now: int, ttl: int)
    requires Tidy(w, now)
    ensures Tidy(Next(w, Beat(room, user), now, ttl), now)
  {
    RenewKeepsTidy(w, MemberKey(room, user), now, ttl);
  }

  lemma RenewKeepsTidy(w: World, member: string, now: int, ttl: int)
    requires Tidy(w, now)
    ensures member in w.redis.expiry && w.redis.expiry[member] > now ==> Tidy(Renewed(w, member, now, ttl), now)
  {
  }

  lemma ForgetKeepsTidy(w: World, key: Key, now: int, ttl: int)
    requires Tidy(w, now) && key in w.cleaning
    ensures Tidy(Next(w, Forget(key), now, ttl), now)
  {
  }

  lemma StaleKeepsTidy(w: World, step: Step, now: int, ttl: int)
    requires Tidy(w, now) && Enabled(w, step, now) && (step.FindStale? || step.DropStale?)
    ensures Tidy(Next(w, step, now, ttl), now)
  {
  }

  lemma ClaimKeepsTidy(w: World, batch: seq<string>, now: int, ttl: int)
    requires Tidy(w, now) && IsReapBatch(w.redis, batch, now)
    ensures Tidy(Next(w, ClaimBatch(batch), now, ttl), now)
  {
    forall k | k in ParsedKeys(batch) ensures Proper(k) && Member(k) in batch {
      var v := ParsedFrom(batch, k);
      assert Indexed(w.redis, v);
    }
  }

  lemma {:induction false} ParsedFrom(batch: seq<string>, k: Key) returns (v: string)
    requires k in ParsedKeys(batch)
    ensures v in batch && ParseMemberKey(v) == Some(k)
  {
    if ParseMemberKey(batch[0]) == Some(k) {
      v := batch[0];
    } else {
      v := ParsedFrom(batch[1..], k);
    }
  }

  /**
   * The condition is exact. Admitting a member is safe from every clean-up that may run next if and
   * only if none of that member's clean-ups was still waiting.
   */
  lemma AdmissionIsSafeIffUnhurried(w: World, room: string, user: string, payload: Stored, now: int, ttl: int)
    requires Tidy(w, now) && Bare(room) && Bare(user) && ttl > 0
    ensures Unhurried(w, Online(room, user, payload)) <==>
      forall k :: CleanupIsSafe(Next(w, Online(room, user, payload), now, ttl), k, now)
  {
    var step := Online(room, user, payload);
    var w1 := Next(w, step, now, ttl);
    ParsesBackIffBare(room, user);
    if Unhurried(w, step) {
      StepKeepsTidy(w, step, now, ttl);
      forall k ensures CleanupIsSafe(w1, k, now) {
        TidyIsSafe(w1, k, now, ttl);
      }
    } else {
      HurriedIsUnsafe(w, room, user, payload, now, ttl);
    }
  }

  lemma TidyIsSafe(w: World, k: Key, now: int, ttl: int)
    requires Tidy(w, now)
    ensures CleanupIsSafe(w, k, now)
  {
    if k in w.cleaning { ForgetKeepsTidy(w, k, now, ttl); }
    if k in w.dropping { StaleKeepsTidy(w, DropStale(k), now, ttl); }
  }

  lemma HurriedIsUnsafe(w: World, room: string, user: string, payload: Stored, now: int, ttl: int)
    requires Bare(room) && Bare(user) && ttl > 0 && !Unhurried(w, Online(room, user, payload))
    ensures !CleanupIsSafe(Next(w, Online(room, user, payload), now, ttl), (room, user), now)
  {
    ParsesBackIffBare(room, user);
    assert MemberKey(room, user) in LiveMembers(Next(w, Online(room, user, payload), now, ttl).redis, now);
  }

  // No clean-up of this member that may run now strips a live deadline.
  ghost predicate CleanupIsSafe(w: World, k: Key, now: int) {
    && (k in w.cleaning ==> Complete(ForgetMember(w.redis, k), now))
    && (k in w.dropping ==> Complete(w.redis.(userRooms := w.redis.userRooms - {k}), now))
  }

  /**
   * A run that shows it can happen: the member lapses, a reaper claims them, they come back, and the
   * reaper then forgets the new fields. They are counted and every heartbeat succeeds, because the
   * script's HEXISTS guard never fires, yet no read finds them.
   */
  lemma RejoinDuringCleanupLeavesAGhost(ttl: int)
    requires ttl > 0
    ensures exists steps ::
      IsRun(START, steps, 0, ttl) && IsGhost(After(START, steps, ttl).redis, "r", "u", ttl, ttl)
  {
    var m, k := MemberKey("r", "u"), ("r", "u");
    var join, claim, forget := Online("r", "u", Stored(Listener, false, None)), ClaimBatch([m]), Forget(k);
    ParsesBackIffBare("r", "u");
    var w1, w2, w3, w4 := GhostRun(m, k, join, ttl);
    LastStep(w3, (ttl, forget), ttl, ttl);
    OneStep(w2, (ttl, join), [(ttl, forget)], ttl, ttl);
    OneStep(w1, (ttl, claim), [(ttl, join)] + [(ttl, forget)], ttl, ttl);
    OneStep(START, (0, join), [(ttl, claim)] + ([(ttl, join)] + [(ttl, forget)]), 0, ttl);
    var steps: seq<Timed> := [(0, join)] + ([(ttl, claim)] + ([(ttl, join)] + [(ttl, forget)]));
    assert After(START, steps, ttl) == w4;
    GhostIsUnread(w4.redis, "r", "u", ttl, ttl);
  }

  // Counted, and refreshed by a heartbeat, but read by nobody.
  ghost predicate IsGhost(s: Redis, room: string, user: string, now: int, ttl: int) {
    && HeartbeatScript(s, MemberKey(room, user), now, now + ttl).1
    && ReadCountLive(s, now).0 == 1
    && ReadMember(s, (room, user), now, ttl).None?
    && ReadRoom(s, room, now, ttl) == {} && ReadRoomsOf(s, user, now) == {}
  }

  lemma GhostIsUnread(s: Redis, room: string, user: string, now: int, ttl: int)
    requires ttl > 0 && s == Redis(map[], {}, map[MemberKey(room, user) := now + ttl])
    ensures IsGhost(s, room, user, now, ttl)
  {
    assert LiveMembers(s, now) == {MemberKey(room, user)};
  }

  lemma GhostRun(m: string, k: Key, join: Step, ttl: int) returns (w1: World, w2: World, w3: World, w4: World)
    requires ttl > 0 && join.Online? && k == (join.room, join.user) && m == Member(k) && ParseMemberKey(m) == Some(k)
    ensures w1 == Next(START, join, 0, ttl) && w2 == Next(w1, ClaimBatch([m]), ttl, ttl)
    ensures w3 == Next(w2, join, ttl, ttl) && w4 == Next(w3, Forget(k), ttl, ttl)
    ensures Enabled(w1, ClaimBatch([m]), ttl) && Enabled(w3, Forget(k), ttl)
    ensures w4.redis == Redis(map[], {}, map[m := ttl + ttl])
  {
    w1 := Next(START, join, 0, ttl);
    assert w1.redis == Redis(map[k := join.payload], {k}, map[m := ttl]);
    w2 := Next(w1, ClaimBatch([m]), ttl, ttl);
    OnlyOneOverdue(w1.redis, m, ttl);
    ClaimsTheOne(w1, m, k, ttl);
    w3 := Next(w2, join, ttl, ttl);
    assert w3.redis == Redis(map[k := join.payload], {k}, map[m := ttl + ttl]) && w3.cleaning == w2.cleaning;
    w4 := Next(w3, Forget(k), ttl, ttl);
    assert w3.redis.hash - {k} == map[] && w3.redis.userRooms - {k} == {};
  }

  lemma OnlyOneOverdue(s: Redis, m: string, now: int)
    requires s.expiry == map[m := now]
    ensures IsReapBatch(s, [m], now)
  {
    assert Overdue(s, now) == {m};
    assert [m][0] in [m];
  }

  lemma ClaimsTheOne(w: World, m: string, k: Key, ttl: int)
    requires w.redis.expiry.Keys == {m} && ParseMemberKey(m) == Some(k)
    ensures var w' := Next(w, ClaimBatch([m]), ttl, ttl);
      w'.redis == w.redis.(expiry := map[]) && k in w'.cleaning
  {
    assert [m][1..] == [];
    assert ParsedKeys([m]) == [k];
    assert multiset(ParsedKeys([m])) == multiset{k};
  }

  lemma LastStep(w: World, s: Timed, start: int, ttl: int)
    requires start <= s.0 && Enabled(w, s.1, s.0)
    ensures IsRun(w, [s], start, ttl) && After(w, [s], ttl) == Next(w, s.1, s.0, ttl)
  {
  }

  lemma OneStep(w: World, s: Timed, rest: seq<Timed>, start: int, ttl: int)
    requires start <= s.0 && Enabled(w, s.1, s.0) && IsRun(Next(w, s.1, s.0, ttl), rest, s.0, ttl)
    ensures IsRun(w, [s] + rest, start, ttl) && After(w, [s] + rest, ttl) == After(Next(w, s.1, s.0, ttl), rest, ttl)
  {
  }

  // ---- the steps are the store's ----

  /** Admissions, departures, heartbeats and write-backs do to the structures what the scripts do. */
  lemma StepsAreScripts(w: World, room: string, user: string, fields: Stored, now: int, ttl: int)
    ensures Next(w, Online(room, user, fields), now, ttl).redis == SetOnlineScript(w.redis, room, user, fields, now + ttl, now).0
    ensures Next(w, Offline(room, user), now, ttl).redis == SetOfflineScript(w.redis, room, user)
    ensures Next(w, Beat(room, user), now, ttl).redis == HeartbeatScript(w.redis, MemberKey(room, user), now, now + ttl).0
    ensures Next(w, WriteBack((room, user), fields), now, ttl).redis == WriteFields(w.redis, (room, user), fields)
  {
  }

  /** What is numbered as an arrival is exactly what the script reports as one; a reconnection goes on under its number. */
  lemma ArrivalsAreReported(w: World, room: string, user: string, fields: Stored, now: int, ttl: int)
    requires Numbered(w, ttl)
    ensures var w', member := Next(w, Online(room, user, fields), now, ttl), MemberKey(room, user);
      var isNew := SetOnlineScript(w.redis, room, user, fields, now + ttl, now).1;
      && member in w'.arrival
      && (if isNew then w'.next == w.next + 1 && w'.arrival[member] == w.next
        else w'.next == w.next && member in w.arrival && w'.arrival[member] == w.arrival[member])
  {
  }

  /** A member claimed and then forgotten, with nothing in between, is a sweep of that one member, and nothing is left waiting. */
  lemma ClaimedAndForgotten(w: World, room: string, user: string, now: int, ttl: int)
    requires Bare(room) && Bare(user)
    ensures var batch := [MemberKey(room, user)];
      var w' := Next(Next(w, ClaimBatch(batch), now, ttl), Forget((room, user)), now, ttl);
      w'.redis == ForgetAll(ReapScript(w.redis, batch), {(room, user)}) && w'.cleaning == w.cleaning && |w'.claims| == |w.claims| + 1
  {
    ParsesBackIffBare(room, user);
    var batch := [MemberKey(room, user)];
    assert batch[1..] == [];
    assert ParsedKeys(batch) == [(room, user)];
    assert multiset(ParsedKeys(batch)) == multiset{(room, user)};
    ForgetOneMore(ReapScript(w.redis, batch), {}, (room, user));
    assert ForgetAll(ReapScript(w.redis, batch), {}) == ReapScript(w.redis, batch);
    assert {} + {(room, user)} == {(room, user)};
  }

  /** A room found stale and then dropped leaves the set of that user, nothing else changes, and nothing is left waiting. */
  lemma FoundAndDropped(w: World, room: string, user: string, now: int, ttl: int)
    ensures var w' := Next(Next(w, FindStale((room, user)), now, ttl), DropStale((room, user)), now, ttl);
      w' == w.(redis := ForgetStaleRooms(w.redis, user, {room})) && w'.redis.userRooms == w.redis.userRooms - {(room, user)}
  {
    assert w.dropping + multiset{(room, user)} - multiset{(room, user)} == w.dropping;
    assert ForgetStaleRooms(w.redis, user, {room}).userRooms == w.redis.userRooms - {(room, user)};
  }
}
