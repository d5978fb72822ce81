/**
 * The relation between two users: its states, the legal moves, the rules that decide who may do what,
 * and the compare-and-set repository that keeps one row for each unordered pair.
 */
module Relationships {
  import opened Common

  type UserId = string

  datatype State = Nothing | DmRequested | DmOpen | CallOpen | Blocked

  datatype Relationship = Relationship(
    userA: UserId,
    userB: UserId,
    state: State,
    requestedBy: Option<UserId>,
    blockedBy: Option<UserId>,
    updatedAt: int)

  const CALL_RING_TIMEOUT_MS := 60_000
  const CALL_MAX_DURATION_MS := 2 * 60 * 60 * 1000

  function Targets(from: State): set<State> {
    match from
    case Nothing => {DmRequested, Blocked}
    case DmRequested => {DmOpen, Nothing, Blocked}
    case DmOpen => {CallOpen, Nothing, Blocked}
    case CallOpen => {CallOpen, DmOpen, Nothing, Blocked}
    case Blocked => {Nothing}
  }

  predicate CanTransition(from: State, to: State) {
    to in Targets(from)
  }

  predicate IsDmOpen(rel: Relationship) {
    rel.state == DmOpen || rel.state == CallOpen
  }

  predicate IsRingStale(rel: Relationship, now: int) {
    rel.state == CallOpen && rel.requestedBy.Some? && now - rel.updatedAt >= CALL_RING_TIMEOUT_MS
  }

  predicate IsCallAbandoned(rel: Relationship, now: int) {
    rel.state == CallOpen && rel.requestedBy.None? && now - rel.updatedAt >= CALL_MAX_DURATION_MS
  }

  // ---- one name for an unordered pair ----

  // The order of strings: the first difference decides, and a prefix comes first.
  predicate Leq(a: string, b: string) {
    a == "" || (b != "" && (a[0] < b[0] || (a[0] == b[0] && Leq(a[1..], b[1..]))))
  }

  function OrderedPair(a: UserId, b: UserId): (UserId, UserId) {
    if Leq(a, b) then (a, b) else (b, a)
  }

  function PairKey(a: UserId, b: UserId): string {
    var (x, y) := OrderedPair(a, b);
    x + ":" + y
  }

  lemma {:induction false} LeqIsTotalOrder(a: string, b: string)
    ensures Leq(a, b) || Leq(b, a)
    ensures Leq(a, b) && Leq(b, a) ==> a == b
  {
    if a != "" && b != "" && a[0] == b[0] {
      LeqIsTotalOrder(a[1..], b[1..]);
      assert a == [a[0]] + a[1..] && b == [b[0]] + b[1..];
    }
  }

  predicate SamePair(a: UserId, b: UserId, c: UserId, d: UserId) {
    (a == c && b == d) || (a == d && b == c)
  }

  /** An ordered pair names an unordered one: neither more nor less. */
  lemma OrderedPairNamesPair(a: UserId, b: UserId, c: UserId, d: UserId)
    ensures OrderedPair(a, b) == OrderedPair(c, d) <==> SamePair(a, b, c, d)
  {
    LeqIsTotalOrder(a, b);
    LeqIsTotalOrder(c, d);
  }

  predicate Bare(id: UserId) {
    ':' !in id
  }

  lemma FirstColon(x: string, y: string)
    requires Bare(x)
    ensures (x + ":" + y)[|x|] == ':' && forall i :: 0 <= i < |x| ==> (x + ":" + y)[i] != ':'
    ensures (x + ":" + y)[..|x|] == x && (x + ":" + y)[|x| + 1..] == y
  {
  }

  lemma BareSplit(x: string, y: string, u: string, v: string)
    requires Bare(x) && Bare(u) && x + ":" + y == u + ":" + v
    ensures x == u && y == v
  {
    FirstColon(x, y);
    FirstColon(u, v);
    assert |x| == |u|;
  }

  /** Joined by a colon the name is still exact, as long as no id holds a colon itself. */
  lemma PairKeyNamesPair(a: UserId, b: UserId, c: UserId, d: UserId)
    requires Bare(a) && Bare(b) && Bare(c) && Bare(d)
    ensures PairKey(a, b) == PairKey(c, d) <==> SamePair(a, b, c, d)
  {
    OrderedPairNamesPair(a, b, c, d);
    var (x, y) := OrderedPair(a, b);
    var (u, v) := OrderedPair(c, d);
    if PairKey(a, b) == PairKey(c, d) {
      BareSplit(x, y, u, v);
    }
  }

  /** With colons in ids two different pairs can share a row. */
  lemma ColonsMergePairs()
    ensures PairKey("a", "b:c") == PairKey("a:b", "c") && !SamePair("a", "b:c", "a:b", "c")
  {
  }

  // ---- the rules ----

  datatype Standing = Good | Inactive | Restricted

  datatype Denial =
    AccountInactive | TrustRestricted | TargetInactive | NotAvailable | NoSharedRoom |
    DmAlreadyOpen | DmNotOpen | CallBusy | NoPendingCall

  // What a use case learns from other ports before it decides.
  datatype Facts = Facts(withinLimit: bool, targetExists: bool, standing: Standing, targetActive: bool, shared: bool)

  // A decision is the reason to refuse, if there is one.
  function CanAct(facts: Facts): Option<Denial> {
    match facts.standing
    case Good => None
    case Inactive => Some(AccountInactive)
    case Restricted => Some(TrustRestricted)
  }

  function CanRequestDm(rel: Relationship, facts: Facts): Option<Denial> {
    if CanAct(facts).Some? then CanAct(facts)
    else if !facts.targetActive then Some(TargetInactive)
    else if rel.state == Blocked then Some(NotAvailable)
    else if IsDmOpen(rel) then Some(DmAlreadyOpen)
    else if !facts.shared then Some(NoSharedRoom)
    else None
  }

  function CanInviteToCall(rel: Relationship, facts: Facts): Option<Denial> {
    if CanAct(facts).Some? then CanAct(facts)
    else if !facts.targetActive then Some(TargetInactive)
    else if rel.state == Blocked then Some(NotAvailable)
    else if !IsDmOpen(rel) then Some(DmNotOpen)
    else None
  }

  function CanStartRinging(rel: Relationship, now: int): Option<Denial> {
    if rel.state == Blocked then Some(NotAvailable)
    else if rel.state == CallOpen then
      if IsRingStale(rel, now) || IsCallAbandoned(rel, now) then None else Some(CallBusy)
    else if !IsDmOpen(rel) then Some(DmNotOpen)
    else None
  }

  function CanAcceptCall(rel: Relationship, acceptor: UserId, now: int): Option<Denial> {
    if rel.state != CallOpen || rel.requestedBy.None? || rel.requestedBy == Some(acceptor) || IsRingStale(rel, now)
    then Some(NoPendingCall)
    else None
  }

  // ---- the in-memory repository ----

  type Rows = map<string, Relationship>

  function Empty(a: UserId, b: UserId, now: int): Relationship {
    var (x, y) := OrderedPair(a, b);
    Relationship(x, y, Nothing, None, None, now)
  }

  function Read(rows: Rows, a: UserId, b: UserId, now: int): Relationship {
    if PairKey(a, b) in rows then rows[PairKey(a, b)] else Empty(a, b, now)
  }

  // What a transition writes, and the state it insists on finding.
  datatype Write = Write(expected: State, to: State, requestedBy: Option<UserId>, blockedBy: Option<UserId>)

  function Written(a: UserId, b: UserId, w: Write, at: int): Relationship {
    var (x, y) := OrderedPair(a, b);
    Relationship(x, y, w.to, w.requestedBy, w.blockedBy, at)
  }

  function CompareAndSet(rows: Rows, a: UserId, b: UserId, w: Write, at: int): (Rows, Option<Relationship>) {
    if Read(rows, a, b, at).state != w.expected then (rows, None)
    else (rows[PairKey(a, b) := Written(a, b, w, at)], Some(Written(a, b, w, at)))
  }

  // Every row is filed under the name of its pair, and its ids hold no colon.
  ghost predicate Filed(rows: Rows) {
    forall k :: k in rows ==>
      Bare(rows[k].userA) && Bare(rows[k].userB) && k == PairKey(rows[k].userA, rows[k].userB)
        && (rows[k].userA, rows[k].userB) == OrderedPair(rows[k].userA, rows[k].userB)
  }

  lemma OrderedPairIsStable(a: UserId, b: UserId)
    ensures var (x, y) := OrderedPair(a, b); OrderedPair(x, y) == (x, y) && PairKey(x, y) == PairKey(a, b)
  {
    LeqIsTotalOrder(a, b);
  }

  lemma TransitionKeepsFiled(rows: Rows, a: UserId, b: UserId, w: Write, at: int)
    requires Filed(rows) && Bare(a) && Bare(b)
    ensures Filed(CompareAndSet(rows, a, b, w, at).0)
  {
    OrderedPairIsStable(a, b);
  }

  /** The order in which a pair is named changes neither what is read nor what is written. */
  lemma DirectionDoesNotMatter(rows: Rows, a: UserId, b: UserId, w: Write, now: int)
    ensures Read(rows, a, b, now) == Read(rows, b, a, now)
    ensures CompareAndSet(rows, a, b, w, now) == CompareAndSet(rows, b, a, w, now)
  {
    OrderedPairNamesPair(a, b, b, a);
  }

  /** A transition is seen by its own pair and by no other. */
  lemma TransitionIsLocal(rows: Rows, a: UserId, b: UserId, w: Write, at: int, c: UserId, d: UserId, now: int)
    requires Bare(a) && Bare(b) && Bare(c) && Bare(d)
    requires Read(rows, a, b, at).state == w.expected
    ensures Read(CompareAndSet(rows, a, b, w, at).0, c, d, now) ==
      if SamePair(a, b, c, d) then Written(a, b, w, at) else Read(rows, c, d, now)
  {
    PairKeyNamesPair(a, b, c, d);
  }

  function BlockedIds(rows: Rows, user: UserId): set<UserId> {
    set k | k in rows && rows[k].state == Blocked && (rows[k].userA == user || rows[k].userB == user) ::
      if rows[k].userA == user then rows[k].userB else rows[k].userA
  }

  /** The list of people hidden from a user is exactly the blocked pairs, whoever applied the block, so hiding is mutual. */
  lemma HidingIsMutual(rows: Rows, a: UserId, b: UserId, now: int)
    requires Filed(rows) && Bare(a) && Bare(b)
    ensures b in BlockedIds(rows, a) <==> Read(rows, a, b, now).state == Blocked
    ensures b in BlockedIds(rows, a) <==> a in BlockedIds(rows, b)
  {
    HiddenIffBlocked(rows, a, b, now);
    HiddenIffBlocked(rows, b, a, now);
    DirectionDoesNotMatter(rows, a, b, Write(Nothing, Nothing, None, None), now);
  }

  lemma HiddenIffBlocked(rows: Rows, a: UserId, b: UserId, now: int)
    requires Filed(rows) && Bare(a) && Bare(b)
    ensures b in BlockedIds(rows, a) <==> Read(rows, a, b, now).state == Blocked
  {
    var key := PairKey(a, b);
    if key in rows {
      PairKeyNamesPair(a, b, rows[key].userA, rows[key].userB);
    }
    if b in BlockedIds(rows, a) {
      var k :| k in rows && rows[k].state == Blocked && (rows[k].userA == a || rows[k].userB == a)
        && b == if rows[k].userA == a then rows[k].userB else rows[k].userA;
      PairKeyNamesPair(a, b, rows[k].userA, rows[k].userB);
    }
  }

  /** A pair without a row is at none, since now, and is named in order like any other. */
  lemma MissingReadsAsNone(rows: Rows, a: UserId, b: UserId, now: int)
    requires PairKey(a, b) !in rows && Leq(a, b)
    ensures Read(rows, a, b, now) == Relationship(a, b, Nothing, None, None, now)
    ensures a != b ==> Read(rows, b, a, now) == Relationship(a, b, Nothing, None, None, now)
  {
    OrderedPairNamesPair(a, b, b, a);
  }

  class MemoryRelationshipRepository {
    var rows: Rows

    constructor ()
      ensures rows == map[]
    {
      rows := map[];
    }

    method Get(a: UserId, b: UserId, now: int) returns (rel: Relationship)
      ensures rel == Read(rows, a, b, now)
    {
      var key := PairKey(a, b);
      if key in rows {
        return rows[key];
      }
      return Empty(a, b, now);
    }

    method Transition(a: UserId, b: UserId, w: Write, at: int) returns (updated: Option<Relationship>)
      modifies this
      ensures (rows, updated) == CompareAndSet(old(rows), a, b, w, at)
    {
      var key := PairKey(a, b);
      var current := if key in rows then rows[key] else Empty(a, b, at);
      if current.state != w.expected {
        return None;
      }
      var (userA, userB) := OrderedPair(a, b);
      var row := Relationship(userA, userB, w.to, w.requestedBy, w.blockedBy, at);
      rows := rows[key := row];
      return Some(row);
    }

    method ListBlockedIds(user: UserId) returns (out: seq<UserId>)
      ensures Elements(out) == BlockedIds(rows, user)
    {
      out := [];
      var left := rows.Keys;
      while left != {}
        invariant left <= rows.Keys
        invariant forall k :: k in rows.Keys - left && rows[k].state == Blocked && rows[k].userA == user ==> rows[k].userB in out
        invariant forall k :: k in rows.Keys - left && rows[k].state == Blocked && rows[k].userB == user && rows[k].userA != user ==> rows[k].userA in out
        invariant forall x :: x in out ==> x in BlockedIds(rows, user)
        decreases |left|
      {
        var k :| k in left;
        left := left - {k};
        var rel := rows[k];
        if rel.state == Blocked {
          if rel.userA == user {
            assert rel.userB in BlockedIds(rows, user);
            out := out + [rel.userB];
          } else if rel.userB == user {
            assert rel.userA in BlockedIds(rows, user);
            out := out + [rel.userA];
          }
        }
      }
    }
  }
}
