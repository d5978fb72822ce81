/**
 * Revocation against expiry. A tombstone is itself a key that expires, so it only works if it outlives
 * every credential of the session it marks.
 */
module Revocation {
  import opened Common
  import opened TokenStore

  datatype Credential =
    | Access(claims: Claims)
    | Refresh(token: Token, owner: UserId, of: SessionId, expires: int)
  {
    function User(): UserId { if Access? then claims.user else owner }
    function Session(): SessionId { if Access? then claims.session else of }
    // The first millisecond at which the credential has expired by itself.
    function Expiry(): int { if Access? then 1000 * claims.expSec else expires }
  }

  datatype Op =
    | DoIssueAccess(user: UserId, session: SessionId)
    | DoIssueRefresh(user: UserId, session: SessionId, token: Token)
    | DoRotate(token: Token)
    | DoRevoke(session: SessionId)
    | DoRevokeAll(user: UserId)

  // The store, with every credential ever handed out.
  datatype World = World(store: Store, issued: set<Credential>)

  const START := World(EMPTY, {})

  predicate Enabled(w: World, op: Op) {
    op.DoIssueRefresh? ==> op.token !in w.store.records
  }

  function Next(w: World, op: Op, ttl: Ttl, now: int): World {
    match op
    case DoIssueAccess(user, session) =>
      var (s', claims) := IssueAccess(w.store, ttl, user, session, now);
      World(s', w.issued + {Access(claims)})
    case DoIssueRefresh(user, session, token) =>
      World(IssueRefresh(w.store, ttl, user, session, token, now), w.issued + {Refresh(token, user, session, now + 1000 * ttl.refresh)})
    case DoRotate(token) => w.(store := Rotate(w.store, ttl, token, now).0)
    case DoRevoke(session) => w.(store := RevokeSession(w.store, ttl, session, now))
    case DoRevokeAll(user) => w.(store := RevokeAll(w.store, ttl, user, now))
  }

  type Timed = (int, Op)

  ghost predicate IsRun(w: World, ops: seq<Timed>, ttl: Ttl, start: int)
    decreases |ops|
  {
    ops == [] ||
    (start <= ops[0].0 && Enabled(w, ops[0].1) && IsRun(Next(w, ops[0].1, ttl, ops[0].0), ops[1..], ttl, ops[0].0))
  }

  function After(w: World, ops: seq<Timed>, ttl: Ttl): World
    decreases |ops|
  {
    if ops == [] then w else After(Next(w, ops[0].1, ttl, ops[0].0), ops[1..], ttl)
  }

  function EndOf(ops: seq<Timed>, start: int): int {
    if ops == [] then start else ops[|ops| - 1].0
  }

  // Does presenting the credential at this instant get anybody anywhere?
  predicate Accepted(s: Store, c: Credential, ttl: Ttl, now: int) {
    if c.Access? then Verifies(s, c.claims, now) else Rotate(s, ttl, c.token, now).1.Some?
  }

  // ---- the invariant: whatever is unexpired can be found by a revocation, or is already marked ----

  predicate Marked(s: Store, c: Credential) {
    c.Session() in s.revoked && c.Expiry() <= s.revoked[c.Session()]
  }

  predicate Findable(s: Store, c: Credential) {
    && c.User() in s.index
    && c.Session() in s.index[c.User()].sessions
    && c.Expiry() <= s.index[c.User()].expires
  }

  predicate OnRecord(s: Store, c: Credential) {
    c.Refresh? ==>
      c.token in s.records && var r := s.records[c.token]; r.user == c.owner && r.session == c.of && r.expires == c.expires
  }

  // Refresh tokens are followed in any case; access tokens only if they do not outlive refresh tokens.
  predicate Tracked(c: Credential, ttl: Ttl) {
    c.Refresh? || ttl.access <= ttl.refresh
  }

  ghost predicate Covered(w: World, ttl: Ttl, now: int) {
    forall c :: c in w.issued && Tracked(c, ttl) ==>
      && OnRecord(w.store, c)
      && c.Expiry() <= now + 1000 * ttl.refresh
      && (c.Expiry() <= now || Marked(w.store, c) || Findable(w.store, c))
  }

  ghost predicate Dead(w: World, c: Credential, now: int) {
    c in w.issued && (c.Expiry() <= now || Marked(w.store, c))
  }

  lemma DeadIsRefused(w: World, c: Credential, ttl: Ttl, now: int, later: int)
    requires Covered(w, ttl, now) && Tracked(c, ttl) && Dead(w, c, now) && now <= later
    ensures !Accepted(w.store, c, ttl, later)
  {
  }

  lemma StepKeepsCovered(w: World, op: Op, ttl: Ttl, now: int)
    requires Covered(w, ttl, now) && Enabled(w, op)
    ensures Covered(Next(w, op, ttl, now), ttl, now)
  {
  }

  // Tombstones are only ever pushed later, and records keep their owner and expiry.
  lemma StepKeepsDead(w: World, op: Op, ttl: Ttl, now: int, c: Credential)
    requires Covered(w, ttl, now) && Tracked(c, ttl) && Dead(w, c, now)
    ensures Dead(Next(w, op, ttl, now), c, now)
  {
  }

  // What one revocation is aimed at.
  predicate Targets(op: Op, c: Credential) {
    match op
    case DoRevoke(session) => c.Session() == session
    case DoRevokeAll(user) => c.User() == user
    case _ => false
  }

  lemma RevocationKills(w: World, op: Op, ttl: Ttl, now: int, c: Credential)
    requires Covered(w, ttl, now) && c in w.issued && Tracked(c, ttl) && Targets(op, c)
    ensures Dead(Next(w, op, ttl, now), c, now)
  {
  }

  lemma {:induction false} CoveredThroughout(w: World, ops: seq<Timed>, ttl: Ttl, start: int)
    requires Covered(w, ttl, start) && IsRun(w, ops, ttl, start)
    ensures Covered(After(w, ops, ttl), ttl, EndOf(ops, start)) && start <= EndOf(ops, start)
    decreases |ops|
  {
    if ops != [] {
      StepKeepsCovered(w, ops[0].1, ttl, ops[0].0);
      CoveredThroughout(Next(w, ops[0].1, ttl, ops[0].0), ops[1..], ttl, ops[0].0);
    }
  }

  lemma {:induction false} DeadThroughout(w: World, ops: seq<Timed>, ttl: Ttl, start: int, c: Credential)
    requires Covered(w, ttl, start) && IsRun(w, ops, ttl, start) && Tracked(c, ttl) && Dead(w, c, start)
    ensures Dead(After(w, ops, ttl), c, EndOf(ops, start))
    decreases |ops|
  {
    if ops != [] {
      StepKeepsDead(w, ops[0].1, ttl, ops[0].0, c);
      StepKeepsCovered(w, ops[0].1, ttl, ops[0].0);
      DeadThroughout(Next(w, ops[0].1, ttl, ops[0].0), ops[1..], ttl, ops[0].0, c);
    }
  }

  // ---- revocation is final, in every run, exactly when access tokens do not outlive refresh tokens ----

  // A run that issues a credential, revokes its session or its user, carries on, and then presents it.
  ghost predicate Revives(ttl: Ttl, start: int, before: seq<Timed>, revocation: Timed, after: seq<Timed>, c: Credential, t: int) {
    var w := After(START, before, ttl);
    var w' := Next(w, revocation.1, ttl, revocation.0);
    && IsRun(START, before, ttl, start)
    && EndOf(before, start) <= revocation.0
    && c in w.issued && Targets(revocation.1, c)
    && IsRun(w', after, ttl, revocation.0)
    && EndOf(after, revocation.0) <= t
    && Accepted(After(w', after, ttl).store, c, ttl, t)
  }

  ghost predicate RevocationIsFinal(ttl: Ttl) {
    forall start, before, revocation, after, c, t :: !Revives(ttl, start, before, revocation, after, c, t)
  }

  /**
   * No credential issued before a revocation of its session, or of all sessions of its user, is ever
   * accepted again, not even after the tombstone has expired: this holds of all runs if and only if
   * the access lifetime is no longer than the refresh lifetime.
   */
  lemma RevocationIsFinalIffOrdered(ttl: Ttl)
    ensures RevocationIsFinal(ttl) <==> ttl.access <= ttl.refresh
  {
    if ttl.access <= ttl.refresh {
      forall start, before, revocation, after, c, t ensures !Revives(ttl, start, before, revocation, after, c, t) {
        NothingRevives(ttl, start, before, revocation, after, c, t);
      }
    } else {
      LongAccessRevives(ttl);
    }
  }

  lemma NothingRevives(ttl: Ttl, start: int, before: seq<Timed>, revocation: Timed, after: seq<Timed>, c: Credential, t: int)
    requires Tracked(c, ttl)
    ensures !Revives(ttl, start, before, revocation, after, c, t)
  {
    var (now, op) := revocation;
    var w := After(START, before, ttl);
    var w' := Next(w, op, ttl, now);
    if && IsRun(START, before, ttl, start) && EndOf(before, start) <= now && c in w.issued && Targets(op, c)
       && IsRun(w', after, ttl, now) && EndOf(after, now) <= t
    {
      CoveredThroughout(START, before, ttl, start);
      RevocationKills(w, op, ttl, now, c);
      StepKeepsCovered(w, op, ttl, now);
      CoveredThroughout(w', after, ttl, now);
      DeadThroughout(w', after, ttl, now, c);
      DeadIsRefused(After(w', after, ttl), c, ttl, EndOf(after, now), t);
    }
  }

  // With a longer access lifetime the token verifies at the very second the tombstone goes.
  lemma LongAccessRevives(ttl: Ttl)
    requires ttl.refresh < ttl.access
    ensures !RevocationIsFinal(ttl)
  {
    var issue: Timed, revoke: Timed := (0, DoIssueAccess(0, 0)), (0, DoRevoke(0));
    var c := Access(Claims(0, 0, 0, ttl.access));
    var w := Next(START, issue.1, ttl, 0);
    assert After(START, [issue], ttl) == w;
    assert IsRun(START, [issue], ttl, 0);
    var w' := Next(w, revoke.1, ttl, 0);
    assert After(w', [], ttl) == w';
    assert FloorSec(1000 * ttl.refresh) == ttl.refresh;
    assert Revives(ttl, 0, [issue], revoke, [], c, 1000 * ttl.refresh);
  }

  // ---- exactly what a revocation does not reach ----

  // A session is revoked at one instant and a refresh token is issued for it at another, with nothing in between.
  function IssuedAfterRevocation(s: Store, ttl: Ttl, user: UserId, session: SessionId, token: Token, revokedAt: int, issuedAt: int): Store {
    IssueRefresh(RevokeSession(s, ttl, session, revokedAt), ttl, user, session, token, issuedAt)
  }

  /**
   * RefreshSession rotates first and issues afterwards without looking again. When a revocation lands in
   * between, on whatever store, the token issued is accepted at some later instant if and only if the
   * clock has moved since the revocation; and then from the instant the tombstone ends.
   */
  lemma TokenOutlivesRevocationIff(s: Store, ttl: Ttl, user: UserId, session: SessionId, token: Token, revokedAt: int, issuedAt: int)
    requires revokedAt <= issuedAt
    ensures var s' := IssuedAfterRevocation(s, ttl, user, session, token, revokedAt, issuedAt);
      && (forall t :: issuedAt <= t ==>
        (Rotate(s', ttl, token, t).1.Some? <==> revokedAt + 1000 * ttl.refresh <= t < issuedAt + 1000 * ttl.refresh))
      && ((exists t :: issuedAt <= t && Rotate(s', ttl, token, t).1.Some?) <==> revokedAt < issuedAt && 0 < ttl.refresh)
  {
    var s' := IssuedAfterRevocation(s, ttl, user, session, token, revokedAt, issuedAt);
    forall t | issuedAt <= t
      ensures Rotate(s', ttl, token, t).1.Some? <==> revokedAt + 1000 * ttl.refresh <= t < issuedAt + 1000 * ttl.refresh
    {
    }
    if revokedAt < issuedAt && 0 < ttl.refresh {
      var t := Max(issuedAt, revokedAt + 1000 * ttl.refresh);
      assert issuedAt <= t && Rotate(s', ttl, token, t).1.Some?;
    }
  }

  /** The same for the access token: accepted again exactly while it outlives the tombstone, so never if it lasts no longer. */
  lemma AccessOutlivesRevocationIff(s: Store, ttl: Ttl, user: UserId, session: SessionId, revokedAt: int, issuedAt: int, t: int)
    requires revokedAt <= issuedAt <= t
    ensures var (s', claims) := IssueAccess(RevokeSession(s, ttl, session, revokedAt), ttl, user, session, issuedAt);
      Verifies(s', claims, t) <==> revokedAt + 1000 * ttl.refresh <= t < 1000 * (FloorSec(issuedAt) + ttl.access)
  {
  }

  /** Such a run: a login, its token rotated, the session revoked, and the new token issued a moment later. */
  lemma RefreshAcrossRevocationRevivesSession(ttl: Ttl, session: SessionId)
    requires 0 < ttl.refresh
    ensures exists ops: seq<Timed>, t ::
      && |ops| == 4 && IsRun(START, ops, ttl, 0) && EndOf(ops, 0) <= t
      && ops[1].1 == DoRotate(0) && ops[2].1 == DoRevoke(session) && ops[3].1 == DoIssueRefresh(0, session, 1)
      && Rotate(After(START, ops, ttl).store, ttl, 1, t).1 == Some((0, session))
  {
    var login: Timed, rotate: Timed := (0, DoIssueRefresh(0, session, 0)), (0, DoRotate(0));
    var revoke: Timed, issue: Timed := (0, DoRevoke(session)), (1, DoIssueRefresh(0, session, 1));
    var ops := [login, rotate, revoke, issue];
    assert ops[1..] == [rotate, revoke, issue] && ops[1..][1..] == [revoke, issue] && ops[1..][1..][1..] == [issue];
    var w1 := Next(START, login.1, ttl, 0);
    var w2 := Next(w1, rotate.1, ttl, 0);
    var w3 := Next(w2, revoke.1, ttl, 0);
    var w4 := Next(w3, issue.1, ttl, 1);
    assert After(w4, [], ttl) == w4;
    assert After(w3, [issue], ttl) == w4 && IsRun(w3, [issue], ttl, 0);
    assert After(w2, [revoke, issue], ttl) == w4 && IsRun(w2, [revoke, issue], ttl, 0);
    assert After(w1, [rotate, revoke, issue], ttl) == w4 && IsRun(w1, [rotate, revoke, issue], ttl, 0);
    assert After(START, ops, ttl) == w4 && IsRun(START, ops, ttl, 0);
    assert Rotate(w4.store, ttl, 1, 1000 * ttl.refresh).1 == Some((0, session));
  }

  /**
   * revokeAllSessions reads the index and marks what it read. Whatever happened in between, a credential of
   * the user that would be accepted at a later instant still is, if and only if its session was not among
   * those read; and revoking everything once more reaches none of them, for the index is gone.
   */
  lemma EscapesRevokeAllIffNotSeen(w: World, ttl: Ttl, user: UserId, seen: set<SessionId>, now: int, c: Credential, t: int)
    requires Covered(w, ttl, now) && c in w.issued && Tracked(c, ttl) && c.User() == user
    requires now <= t && Accepted(w.store, c, ttl, t)
    ensures var s := MarkAndForget(w.store, ttl, user, seen, now);
      && (Accepted(s, c, ttl, t) <==> c.Session() !in seen)
      && (forall again :: RevokeAll(s, ttl, user, again) == s)
  {
  }

  /** In every run: what is issued for the user between the two steps of revokeAllSessions escapes, exactly if the index read did not name its session. */
  lemma LoginInsideRevokeAll(ops: seq<Timed>, between: seq<Timed>, ttl: Ttl, start: int, user: UserId, read: int, now: int, c: Credential, t: int)
    requires IsRun(START, ops, ttl, start) && EndOf(ops, start) <= read
    requires IsRun(After(START, ops, ttl), between, ttl, read) && EndOf(between, read) <= now <= t
    requires var w := After(After(START, ops, ttl), between, ttl);
      c in w.issued && Tracked(c, ttl) && c.User() == user && Accepted(w.store, c, ttl, t)
    ensures var seen := SessionsOf(After(START, ops, ttl).store, user, read);
      var s := MarkAndForget(After(After(START, ops, ttl), between, ttl).store, ttl, user, seen, now);
      Accepted(s, c, ttl, t) <==> c.Session() !in seen
  {
    var w0 := After(START, ops, ttl);
    CoveredThroughout(START, ops, ttl, start);
    CoveredThroughout(w0, between, ttl, read);
    EscapesRevokeAllIffNotSeen(After(w0, between, ttl), ttl, user, SessionsOf(w0.store, user, read), now, c, t);
  }

  /** Such a run: a login in between leaves a session that is neither marked nor findable. */
  lemma LoginInsideRevokeAllEscapes(ttl: Ttl, user: UserId, known: SessionId, added: SessionId)
    requires 0 < ttl.access && 0 < ttl.refresh && known != added
    ensures
      var s1 := IssueAccess(EMPTY, ttl, user, known, 0).0;
      var seen := SessionsOf(s1, user, 0);
      var (s2, claims) := IssueAccess(s1, ttl, user, added, 0);
      var s3 := MarkAndForget(s2, ttl, user, seen, 0);
      seen == {known} && claims.session == added && Verifies(RevokeAll(s3, ttl, user, 0), claims, 0)
  {
  }
}
