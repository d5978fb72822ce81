/**
 * The credentials of a session and the Redis keys behind them. A key with a time to live is a value
 * with the instant it stops existing. Clock readings are milliseconds, JWT times are whole seconds.
 */
module TokenStore {
  import opened Common

  // Users, sessions and tokens are random identifiers of which only equality matters.
  type UserId = nat
  type SessionId = nat
  type Token = nat

  // Lifetimes in seconds, as configured.
  datatype Ttl = Ttl(access: nat, refresh: nat)

  datatype Claims = Claims(user: UserId, session: SessionId, iatSec: int, expSec: int)

  datatype Record = Record(user: UserId, session: SessionId, used: bool, expires: int)

  datatype SessionIndex = SessionIndex(sessions: set<SessionId>, expires: int)

  datatype Store = Store(
    records: map<Token, Record>,
    revoked: map<SessionId, int>,
    index: map<UserId, SessionIndex>)

  const EMPTY := Store(map[], map[], map[])

  function FloorSec(ms: int): int {
    ms / 1000
  }

  predicate IsRevoked(s: Store, session: SessionId, now: int) {
    session in s.revoked && now < s.revoked[session]
  }

  function SessionsOf(s: Store, user: UserId, now: int): set<SessionId> {
    if user in s.index && now < s.index[user].expires then s.index[user].sessions else {}
  }

  // SADD then EXPIRE in one MULTI.
  function Remember(s: Store, ttl: Ttl, user: UserId, session: SessionId, now: int): Store {
    s.(index := s.index[user := SessionIndex(SessionsOf(s, user, now) + {session}, now + 1000 * ttl.refresh)])
  }

  function IssueAccess(s: Store, ttl: Ttl, user: UserId, session: SessionId, now: int): (Store, Claims) {
    (Remember(s, ttl, user, session, now), Claims(user, session, FloorSec(now), FloorSec(now) + ttl.access))
  }

  function IssueRefresh(s: Store, ttl: Ttl, user: UserId, session: SessionId, token: Token, now: int): Store {
    var s' := Remember(s, ttl, user, session, now);
    s'.(records := s'.records[token := Record(user, session, false, now + 1000 * ttl.refresh)])
  }

  // `exp` is the second on or after which the token is refused (section 4.1.4 of RFC 7519).
  predicate Verifies(s: Store, c: Claims, now: int) {
    FloorSec(now) < c.expSec && !IsRevoked(s, c.session, now)
  }

  predicate Exists(s: Store, token: Token, now: int) {
    token in s.records && now < s.records[token].expires
  }

  function Rotate(s: Store, ttl: Ttl, token: Token, now: int): (Store, Option<(UserId, SessionId)>) {
    if !Exists(s, token, now) then (s, None)
    else
      var r := s.records[token];
      if r.used then (RevokeSession(s, ttl, r.session, now), None)
      else
        var s' := s.(records := s.records[token := r.(used := true)]);
        (s', if IsRevoked(s', r.session, now) then None else Some((r.user, r.session)))
  }

  function RevokeSession(s: Store, ttl: Ttl, session: SessionId, now: int): Store {
    s.(revoked := s.revoked[session := now + 1000 * ttl.refresh])
  }

  function RevokeAll(s: Store, ttl: Ttl, user: UserId, now: int): Store {
    var sessions := SessionsOf(s, user, now);
    if sessions == {} then s else MarkAndForget(s, ttl, user, sessions, now)
  }

  // The MULTI of revokeAllSessions: tombstone the sessions read just before, drop the index.
  function MarkAndForget(s: Store, ttl: Ttl, user: UserId, sessions: set<SessionId>, now: int): Store {
    s.(revoked := s.revoked + (map x | x in sessions :: now + 1000 * ttl.refresh), index := s.index - {user})
  }

  /** The adapter: one object over the three kinds of key. */
  class JwtTokenService {
    const ttl: Ttl
    var records: map<Token, Record>
    var revoked: map<SessionId, int>
    var index: map<UserId, SessionIndex>

    constructor (ttl: Ttl)
      ensures this.ttl == ttl && State() == EMPTY
    {
      this.ttl := ttl;
      records, revoked, index := map[], map[], map[];
    }

    function State(): Store
      reads this
    {
      Store(records, revoked, index)
    }

    method IssueAccessToken(user: UserId, session: SessionId, now: int) returns (token: Claims)
      modifies this`index
      ensures (State(), token) == IssueAccess(old(State()), ttl, user, session, now)
    {
      var issuedAtSec := FloorSec(now);
      AddToIndex(user, session, now);
      return Claims(user, session, issuedAtSec, issuedAtSec + ttl.access);
    }

    method AddToIndex(user: UserId, session: SessionId, now: int)
      modifies this`index
      ensures State() == Remember(old(State()), ttl, user, session, now)
    {
      var sessions: set<SessionId> := {session};
      assert {} + {session} == sessions;
      if user in index && now < index[user].expires {
        sessions := index[user].sessions + {session};
      }
      index := index[user := SessionIndex(sessions, now + 1000 * ttl.refresh)];
    }

    method VerifyAccessToken(token: Claims, now: int) returns (claims: Option<Claims>)
      ensures claims == if Verifies(State(), token, now) then Some(token) else None
    {
      if token.expSec <= FloorSec(now) {
        return None;
      }
      if token.session in revoked && now < revoked[token.session] {
        return None;
      }
      return Some(token);
    }

    method IssueRefreshToken(user: UserId, session: SessionId, newToken: Token, now: int)
      modifies this
      ensures State() == IssueRefresh(old(State()), ttl, user, session, newToken, now)
    {
      records := records[newToken := Record(user, session, false, now + 1000 * ttl.refresh)];
      AddToIndex(user, session, now);
    }

    method RotateRefreshToken(token: Token, now: int) returns (owner: Option<(UserId, SessionId)>)
      modifies this
      ensures (State(), owner) == Rotate(old(State()), ttl, token, now)
    {
      // ROTATE_SCRIPT
      if token !in records || records[token].expires <= now {
        return None;
      }
      var record := records[token];
      if record.used {
        RevokeOne(record.session, now);
        return None;
      }
      records := records[token := record.(used := true)];

      if record.session in revoked && now < revoked[record.session] {
        return None;
      }
      return Some((record.user, record.session));
    }

    method RevokeOne(session: SessionId, now: int)
      modifies this`revoked
      ensures State() == RevokeSession(old(State()), ttl, session, now)
    {
      revoked := revoked[session := now + 1000 * ttl.refresh];
    }

    method RevokeAllSessions(user: UserId, now: int)
      modifies this
      ensures State() == RevokeAll(old(State()), ttl, user, now)
    {
      var sessions := SessionsOf(State(), user, now);
      if sessions != {} {
        MarkAll(sessions, now);
        index := index - {user};
      }
    }

    method MarkAll(sessions: set<SessionId>, now: int)
      modifies this`revoked
      ensures revoked == old(revoked) + map x | x in sessions :: now + 1000 * ttl.refresh
    {
      var left := sessions;
      ghost var was := revoked;
      while left != {}
        invariant left <= sessions
        invariant forall x :: x in revoked <==> x in was || (x in sessions && x !in left)
        invariant forall x :: x in revoked ==> revoked[x] == if x in sessions && x !in left then now + 1000 * ttl.refresh else was[x]
        decreases |left|
      {
        var session :| session in left;
        left := left - {session};
        revoked := revoked[session := now + 1000 * ttl.refresh];
      }
    }
  }

  // ---- what issuing and revoking leave ----

  /** A revocation marks the session until a refresh lifetime from now, and touches nothing else. */
  lemma RevokeEffects(s: Store, ttl: Ttl, session: SessionId, now: int)
    ensures var s' := RevokeSession(s, ttl, session, now);
      && s'.records == s.records && s'.index == s.index
      && session in s'.revoked && s'.revoked[session] == now + 1000 * ttl.refresh && s'.revoked - {session} == s.revoked - {session}
  {
  }

  /** Revoking everything marks each session that the index still knows, until a refresh lifetime from now, and forgets the index. */
  lemma RevokeAllEffects(s: Store, ttl: Ttl, user: UserId, now: int)
    ensures var s' := RevokeAll(s, ttl, user, now);
      var known := user in s.index && now < s.index[user].expires && s.index[user].sessions != {};
      && s'.records == s.records
      && (forall x :: x in s'.revoked <==> x in s.revoked || (known && x in s.index[user].sessions))
      && (forall x :: x in s'.revoked ==> s'.revoked[x] == if known && x in s.index[user].sessions then now + 1000 * ttl.refresh else s.revoked[x])
      && s'.index == if known then s.index - {user} else s.index
  {
  }

  /** An access token is good before its last second, unless its session is marked; it lives an access lifetime from the second of its issue. */
  lemma AccessAnswers(s: Store, ttl: Ttl, user: UserId, session: SessionId, now: int, t: int)
    ensures var (s', c) := IssueAccess(s, ttl, user, session, now);
      && c.user == user && c.session == session && s'.records == s.records && s'.revoked == s.revoked
      && (Verifies(s', c, t) <==> t / 1000 < now / 1000 + ttl.access && !(session in s.revoked && t < s.revoked[session]))
  {
  }
}
