/**
 * The in-memory token service: permanent revocation marks and deleted records, where Redis has
 * tombstones and records that expire. Driven by the same use cases, both exchange the same refresh
 * tokens, as long as nobody shows a used token after it expired: only the memory service reacts to that.
 */
module MemoryTokens {
  import opened Common
  import T = TokenStore
  import R = Revocation
  import C = RefreshChain

  datatype Memory = Memory(
    records: map<T.Token, T.Record>,
    revoked: set<T.SessionId>,
    byUser: map<T.UserId, set<T.SessionId>>)

  const EMPTY := Memory(map[], {}, map[])

  function KnownSessions(byUser: map<T.UserId, set<T.SessionId>>, user: T.UserId): set<T.SessionId> {
    if user in byUser then byUser[user] else {}
  }

  function Remember(m: Memory, user: T.UserId, session: T.SessionId): Memory {
    m.(byUser := m.byUser[user := KnownSessions(m.byUser, user) + {session}])
  }

  function IssueRefresh(m: Memory, ttl: T.Ttl, user: T.UserId, session: T.SessionId, token: T.Token, now: int): Memory {
    var m' := Remember(m, user, session);
    m'.(records := m'.records[token := T.Record(user, session, false, now + 1000 * ttl.refresh)])
  }

  function Rotate(m: Memory, token: T.Token, now: int): (Memory, Option<(T.UserId, T.SessionId)>) {
    if token !in m.records then (m, None)
    else
      var r := m.records[token];
      if r.used then (m.(revoked := m.revoked + {r.session}), None)
      else if r.expires <= now || r.session in m.revoked then (m, None)
      else (m.(records := m.records[token := r.(used := true)]), Some((r.user, r.session)))
  }

  function RevokeSession(m: Memory, session: T.SessionId): Memory {
    m.(revoked := m.revoked + {session},
      records := map t | t in m.records && m.records[t].session != session :: m.records[t])
  }

  function SessionsOwned(records: map<T.Token, T.Record>, user: T.UserId): set<T.SessionId> {
    set t | t in records && records[t].user == user :: records[t].session
  }

  function RevokeAll(m: Memory, user: T.UserId): Memory {
    m.(revoked := m.revoked + KnownSessions(m.byUser, user) + SessionsOwned(m.records, user),
      records := map t | t in m.records && m.records[t].user != user :: m.records[t])
  }

  class MemoryTokenService {
    const ttl: T.Ttl
    var records: map<T.Token, T.Record>
    var revoked: set<T.SessionId>
    var byUser: map<T.UserId, set<T.SessionId>>

    constructor (ttl: T.Ttl)
      ensures this.ttl == ttl && State() == EMPTY
    {
      this.ttl := ttl;
      records, revoked, byUser := map[], {}, map[];
    }

    function State(): Memory
      reads this
    {
      Memory(records, revoked, byUser)
    }

    method RememberSession(user: T.UserId, session: T.SessionId)
      modifies this`byUser
      ensures State() == Remember(old(State()), user, session)
    {
      var sessions := {};
      if user in byUser {
        sessions := byUser[user];
      }
      byUser := byUser[user := sessions + {session}];
    }

    method IssueRefreshToken(user: T.UserId, session: T.SessionId, newToken: T.Token, now: int)
      modifies this
      ensures State() == IssueRefresh(old(State()), ttl, user, session, newToken, now)
    {
      RememberSession(user, session);
      records := records[newToken := T.Record(user, session, false, now + 1000 * ttl.refresh)];
    }

    method RotateRefreshToken(token: T.Token, now: int) returns (owner: Option<(T.UserId, T.SessionId)>)
      modifies this
      ensures (State(), owner) == Rotate(old(State()), token, now)
    {
      if token !in records {
        return None;
      }
      var stored := records[token];
      if stored.used {
        revoked := revoked + {stored.session};
        return None;
      }
      if stored.expires <= now {
        return None;
      }
      if stored.session in revoked {
        return None;
      }
      records := records[token := stored.(used := true)];
      return Some((stored.user, stored.session));
    }

    method RevokeOne(session: T.SessionId)
      modifies this
      ensures State() == RevokeSession(old(State()), session)
    {
      revoked := revoked + {session};
      var left := records.Keys;
      ghost var was := records;
      while left != {}
        invariant left <= was.Keys
        invariant forall t :: t in records <==> t in was && (t in left || was[t].session != session)
        invariant forall t :: t in records ==> records[t] == was[t]
        invariant revoked == old(revoked) + {session} && byUser == old(byUser)
        decreases |left|
      {
        var t :| t in left;
        left := left - {t};
        if records[t].session == session {
          records := records - {t};
        }
      }
    }

    method RevokeAllSessions(user: T.UserId)
      modifies this
      ensures State() == RevokeAll(old(State()), user)
    {
      revoked := revoked + KnownSessions(byUser, user);
      var left := records.Keys;
      ghost var was, marked := records, revoked;
      ghost var owned := SessionsOwned(was, user);
      while left != {}
        invariant left <= was.Keys
        invariant byUser == old(byUser)
        invariant forall t :: t in records <==> t in was && (t in left || was[t].user != user)
        invariant forall t :: t in records ==> records[t] == was[t]
        invariant forall t :: t in was && t !in left && was[t].user == user ==> was[t].session in revoked
        invariant marked <= revoked
        invariant revoked <= marked + owned
        decreases |left|
      {
        var t :| t in left;
        left := left - {t};
        if records[t].user == user {
          assert was[t].session in owned;
          revoked := revoked + {records[t].session};
          records := records - {t};
        }
      }
      AllVisited(was, records, marked, revoked, user);
    }
  }

  // What the loop of revokeAllSessions has done once every record was visited.
  lemma AllVisited(was: map<T.Token, T.Record>, records: map<T.Token, T.Record>, marked: set<T.SessionId>, revoked: set<T.SessionId>, user: T.UserId)
    requires forall t :: t in records <==> t in was && was[t].user != user
    requires forall t :: t in records ==> records[t] == was[t]
    requires forall t :: t in was && was[t].user == user ==> was[t].session in revoked
    requires marked <= revoked <= marked + SessionsOwned(was, user)
    ensures records == map t | t in was && was[t].user != user :: was[t]
    ensures revoked == marked + SessionsOwned(was, user)
  {
  }

  // ---- the same use cases over this service ----

  function Next(m: Memory, u: C.UseCase, ttl: T.Ttl, now: int): (Memory, Option<(T.UserId, T.SessionId)>) {
    match u
    case Login(user, session, token) => (IssueRefresh(Remember(m, user, session), ttl, user, session, token, now), None)
    case RefreshWith(token, replacement, account) =>
      var (m', owner) := Rotate(m, token, now);
      if owner.None? then (m', None)
      else
        var (user, session) := owner.value;
        match account {
          case Missing => (RevokeSession(m', session), owner)
          case Suspended => (RevokeAll(m', user), owner)
          case Active => (IssueRefresh(Remember(m', user, session), ttl, user, session, replacement, now), owner)
        }
    case Logout(session) => (RevokeSession(m, session), None)
    case LogoutEverywhere(user) => (RevokeAll(m, user), None)
  }

  // Whom a refresh was for, when the token was exchanged at all.
  function RedisAnswer(w: C.World, u: C.UseCase, ttl: T.Ttl, now: int): Option<(T.UserId, T.SessionId)> {
    if u.RefreshWith? then T.Rotate(w.base.store, ttl, u.token, now).1 else None
  }

  /**
   * How the two services correspond: the memory service has marked exactly the killed sessions, keeps
   * every record of the others, and knows the sessions of every user.
   */
  ghost predicate Alike(m: Memory, w: C.World) {
    && RecordsAlike(m, w.base.store.records, w.killed)
    && UsersAlike(m.byUser, w.sessions, w.base.store.index)
    && w.base.store.revoked.Keys <= w.killed
  }

  ghost predicate RecordsAlike(m: Memory, records: map<T.Token, T.Record>, killed: set<T.SessionId>) {
    && m.revoked == killed
    && (forall t :: t in m.records ==> t in records && m.records[t].(used := false) == records[t].(used := false))
    && (forall t :: t in records && records[t].session !in killed ==> t in m.records && m.records[t] == records[t])
  }

  ghost predicate UsersAlike(byUser: map<T.UserId, set<T.SessionId>>, sessions: map<T.SessionId, T.UserId>, index: map<T.UserId, T.SessionIndex>) {
    && (forall user, x :: x in KnownSessions(byUser, user) <==> x in sessions && sessions[x] == user)
    && (forall user, x :: user in index && x in index[user].sessions ==> x in sessions && sessions[x] == user)
  }

  // The one thing the services treat differently: a used token of a live session, shown after it expired.
  predicate LateReplay(w: C.World, u: C.UseCase, now: int) {
    && u.RefreshWith? && u.token in w.base.store.records
    && var r := w.base.store.records[u.token];
      r.used && r.expires <= now && r.session !in w.killed
  }

  /** One use case gets the same answer from both services, and keeps them alike exactly if it is not a late replay. */
  lemma StaysAlikeIffNoLateReplay(m: Memory, w: C.World, u: C.UseCase, ttl: T.Ttl, now: int)
    requires C.Consistent(w, ttl, now) && C.Enabled(w, u) && Alike(m, w)
    ensures Next(m, u, ttl, now).1 == RedisAnswer(w, u, ttl, now)
    ensures Alike(Next(m, u, ttl, now).0, C.Next(w, u, ttl, now)) <==> !LateReplay(w, u, now)
  {
    match u
    case Login(user, session, token) =>
      IssueKeepsAlike(m, w, ttl, user, session, token, now);
    case RefreshWith(token, replacement, account) =>
      RotateKeepsAlike(m, w, token, ttl, now);
      var owner := T.Rotate(w.base.store, ttl, token, now).1;
      if owner.Some? {
        C.LiveTokenLiveSession(w, token, ttl, now);
        C.RotateKeepsConsistent(w, token, ttl, now);
        var (user, session) := owner.value;
        var m', w' := Rotate(m, token, now).0, w.(base := R.Next(w.base, R.DoRotate(token), ttl, now));
        match account {
          case Missing => RevokeKeepsAlike(m', w', session, ttl, now);
          case Suspended => RevokeAllKeepsAlike(m', w', user, ttl, now);
          case Active => IssueKeepsAlike(m', w', ttl, user, session, replacement, now);
        }
      }
    case Logout(session) => RevokeKeepsAlike(m, w, session, ttl, now);
    case LogoutEverywhere(user) => RevokeAllKeepsAlike(m, w, user, ttl, now);
  }

  lemma IssueKeepsAlike(m: Memory, w: C.World, ttl: T.Ttl, user: T.UserId, session: T.SessionId, token: T.Token, now: int)
    requires Alike(m, w) && token !in w.base.store.records
    requires session !in w.killed && (session in w.sessions ==> w.sessions[session] == user)
    ensures Alike(IssueRefresh(Remember(m, user, session), ttl, user, session, token, now),
      w.(base := C.Issue(w.base, ttl, user, session, token, now), sessions := w.sessions[session := user]))
    ensures session in w.sessions ==> w.sessions[session := user] == w.sessions
  {
    var m' := IssueRefresh(Remember(m, user, session), ttl, user, session, token, now);
    var w' := w.(base := C.Issue(w.base, ttl, user, session, token, now), sessions := w.sessions[session := user]);
    assert RecordsAlike(m', w'.base.store.records, w'.killed);
    IssueKeepsUsers(m, w, ttl, user, session, token, now);
  }

  lemma IssueKeepsUsers(m: Memory, w: C.World, ttl: T.Ttl, user: T.UserId, session: T.SessionId, token: T.Token, now: int)
    requires UsersAlike(m.byUser, w.sessions, w.base.store.index) && (session in w.sessions ==> w.sessions[session] == user)
    ensures UsersAlike(IssueRefresh(Remember(m, user, session), ttl, user, session, token, now).byUser,
      w.sessions[session := user], C.Issue(w.base, ttl, user, session, token, now).store.index)
  {
    RememberKnows(m, user, session);
    RememberKnows(Remember(m, user, session), user, session);
  }

  lemma RememberKnows(m: Memory, user: T.UserId, session: T.SessionId)
    ensures forall u, x :: x in KnownSessions(Remember(m, user, session).byUser, u) <==> x in KnownSessions(m.byUser, u) || (u == user && x == session)
  {
  }

  // The answers agree in any case; the stores stay alike unless a used token came back too late.
  lemma RotateKeepsAlike(m: Memory, w: C.World, token: T.Token, ttl: T.Ttl, now: int)
    requires C.Consistent(w, ttl, now) && Alike(m, w)
    ensures Rotate(m, token, now).1 == T.Rotate(w.base.store, ttl, token, now).1
    ensures Alike(Rotate(m, token, now).0,
        w.(base := R.Next(w.base, R.DoRotate(token), ttl, now), killed := w.killed + C.Replayed(w.base.store, token, now)))
      <==> !LateReplay(w, C.RefreshWith(token, token, C.Active), now)
  {
    if T.Rotate(w.base.store, ttl, token, now).1.Some? {
      C.LiveTokenLiveSession(w, token, ttl, now);
    }
    RotateAlike(m, w, token, ttl, now);
  }

  lemma RotateAlike(m: Memory, w: C.World, token: T.Token, ttl: T.Ttl, now: int)
    requires Alike(m, w)
    requires T.Rotate(w.base.store, ttl, token, now).1.Some? ==> w.base.store.records[token].session !in w.killed
    ensures Rotate(m, token, now).1 == T.Rotate(w.base.store, ttl, token, now).1
    ensures Alike(Rotate(m, token, now).0,
        w.(base := R.Next(w.base, R.DoRotate(token), ttl, now), killed := w.killed + C.Replayed(w.base.store, token, now)))
      <==> !LateReplay(w, C.RefreshWith(token, token, C.Active), now)
  {
    var records, killed := w.base.store.records, w.killed;
    if token !in m.records {
    } else if m.records[token].used {
      var session := records[token].session;
      assert LateReplay(w, C.RefreshWith(token, token, C.Active), now) <==> records[token].expires <= now && session !in killed;
    } else if token in records && !records[token].used && now < records[token].expires && records[token].session !in killed {
      SpendAlike(m, records, killed, token);
    }
  }

  lemma SpendAlike(m: Memory, records: map<T.Token, T.Record>, killed: set<T.SessionId>, token: T.Token)
    requires RecordsAlike(m, records, killed) && token in m.records
    ensures RecordsAlike(m.(records := m.records[token := m.records[token].(used := true)]),
      records[token := records[token].(used := true)], killed)
  {
  }

  lemma RevokeKeepsAlike(m: Memory, w: C.World, session: T.SessionId, ttl: T.Ttl, now: int)
    requires Alike(m, w)
    ensures Alike(RevokeSession(m, session), w.(base := R.Next(w.base, R.DoRevoke(session), ttl, now), killed := w.killed + {session}))
  {
  }

  lemma RevokeAllKeepsAlike(m: Memory, w: C.World, user: T.UserId, ttl: T.Ttl, now: int)
    requires C.Consistent(w, ttl, now) && Alike(m, w)
    ensures Alike(RevokeAll(m, user), w.(base := R.Next(w.base, R.DoRevokeAll(user), ttl, now), killed := w.killed + C.SessionsOfUser(w, user)))
  {
    forall t | t in w.base.store.records
      ensures var r := w.base.store.records[t]; r.session in w.sessions && w.sessions[r.session] == r.user
    {
      var r := w.base.store.records[t];
      assert R.Refresh(t, r.user, r.session, r.expires) in w.base.issued;
    }
    RevokeAllMarks(m, w.sessions, w.base.store.records, w.base.store.index, w.killed, user);
    RevokeAllAlike(m, w, user, ttl, now);
  }

  // Both ways of finding the sessions to mark find all of them and no others.
  lemma RevokeAllMarks(m: Memory, sessions: map<T.SessionId, T.UserId>, records: map<T.Token, T.Record>,
      index: map<T.UserId, T.SessionIndex>, killed: set<T.SessionId>, user: T.UserId)
    requires RecordsAlike(m, records, killed) && UsersAlike(m.byUser, sessions, index)
    requires forall t :: t in records ==> records[t].session in sessions && sessions[records[t].session] == records[t].user
    ensures RecordsAlike(RevokeAll(m, user), records, killed + (set s | s in sessions && sessions[s] == user))
  {
  }

  lemma RevokeAllAlike(m: Memory, w: C.World, user: T.UserId, ttl: T.Ttl, now: int)
    requires UsersAlike(m.byUser, w.sessions, w.base.store.index) && w.base.store.revoked.Keys <= w.killed
    requires RecordsAlike(RevokeAll(m, user), w.base.store.records, w.killed + C.SessionsOfUser(w, user))
    ensures Alike(RevokeAll(m, user), w.(base := R.Next(w.base, R.DoRevokeAll(user), ttl, now), killed := w.killed + C.SessionsOfUser(w, user)))
  {
  }

  // ---- whole runs ----

  function MemoryAnswers(m: Memory, us: seq<C.Timed>, ttl: T.Ttl): seq<Option<(T.UserId, T.SessionId)>>
    decreases |us|
  {
    if us == [] then []
    else var (m', a) := Next(m, us[0].1, ttl, us[0].0); [a] + MemoryAnswers(m', us[1..], ttl)
  }

  function RedisAnswers(w: C.World, us: seq<C.Timed>, ttl: T.Ttl): seq<Option<(T.UserId, T.SessionId)>>
    decreases |us|
  {
    if us == [] then []
    else [RedisAnswer(w, us[0].1, ttl, us[0].0)] + RedisAnswers(C.Next(w, us[0].1, ttl, us[0].0), us[1..], ttl)
  }

  ghost predicate NoLateReplays(w: C.World, us: seq<C.Timed>, ttl: T.Ttl)
    decreases |us|
  {
    us == [] || (!LateReplay(w, us[0].1, us[0].0) && NoLateReplays(C.Next(w, us[0].1, ttl, us[0].0), us[1..], ttl))
  }

  /** Over every run without late replays the two services exchange exactly the same refresh tokens. */
  lemma {:induction false} ServicesAgree(m: Memory, w: C.World, us: seq<C.Timed>, ttl: T.Ttl, start: int)
    requires C.Consistent(w, ttl, start) && Alike(m, w)
    requires C.IsRun(w, us, ttl, start) && NoLateReplays(w, us, ttl)
    ensures MemoryAnswers(m, us, ttl) == RedisAnswers(w, us, ttl)
    decreases |us|
  {
    if us != [] {
      var (now, u) := us[0];
      assert C.Consistent(w, ttl, now);
      StaysAlikeIffNoLateReplay(m, w, u, ttl, now);
      C.StepKeepsConsistent(w, u, ttl, now);
      ServicesAgree(Next(m, u, ttl, now).0, C.Next(w, u, ttl, now), us[1..], ttl, now);
    }
  }

  /** In particular from the two empty services. */
  lemma ServicesAgreeFromStart(us: seq<C.Timed>, ttl: T.Ttl, start: int)
    requires C.IsRun(C.START, us, ttl, start) && NoLateReplays(C.START, us, ttl)
    ensures MemoryAnswers(EMPTY, us, ttl) == RedisAnswers(C.START, us, ttl)
  {
    ServicesAgree(EMPTY, C.START, us, ttl, start);
  }

  // ---- how they part ----

  // A used token shown again once it has expired, and its replacement, which has not.
  function Parting(user: T.UserId, session: T.SessionId, token: T.Token, replacement: T.Token, other: T.Token, ttl: T.Ttl): seq<C.Timed> {
    [(0, C.Login(user, session, token)), (1, C.RefreshWith(token, replacement, C.Active)),
     (1000 * ttl.refresh, C.RefreshWith(token, other, C.Active)), (1000 * ttl.refresh, C.RefreshWith(replacement, other, C.Active))]
  }

  /**
   * Late replays happen: after a login and a refresh, when the first token has expired and the second has not,
   * the first is shown again; then Redis still exchanges the second, and the memory service no longer does.
   */
  lemma LateReplayPartsThem(user: T.UserId, session: T.SessionId, token: T.Token, replacement: T.Token, other: T.Token, ttl: T.Ttl)
    requires ttl.refresh > 0 && token != replacement && other != token && other != replacement
    ensures var us := Parting(user, session, token, replacement, other, ttl);
      C.IsRun(C.START, us, ttl, 0) && MemoryAnswers(EMPTY, us, ttl) != RedisAnswers(C.START, us, ttl)
    ensures var us := Parting(user, session, token, replacement, other, ttl);
      LateReplay(C.Next(C.Next(C.START, us[0].1, ttl, us[0].0), us[1].1, ttl, us[1].0), us[2].1, us[2].0)
  {
    var us := Parting(user, session, token, replacement, other, ttl);
    var m1, w1 := Next(EMPTY, us[0].1, ttl, us[0].0).0, C.Next(C.START, us[0].1, ttl, us[0].0);
    var m2, w2 := Next(m1, us[1].1, ttl, us[1].0).0, C.Next(w1, us[1].1, ttl, us[1].0);
    var m3, w3 := Next(m2, us[2].1, ttl, us[2].0).0, C.Next(w2, us[2].1, ttl, us[2].0);
    RedisForgets(user, session, token, replacement, other, ttl);
    MemoryRemembers(user, session, token, replacement, other, ttl);
    PartNow(m3, w3, us[3], [], ttl);
    PartLater(m2, w2, us[2], [us[3]], ttl);
    PartLater(m1, w1, us[1], [us[2], us[3]], ttl);
    PartLater(EMPTY, C.START, us[0], [us[1], us[2], us[3]], ttl);
    assert [us[2]] + [us[3]] == [us[2], us[3]] && [us[1]] + [us[2], us[3]] == [us[1], us[2], us[3]] && [us[0]] + [us[1], us[2], us[3]] == us;
    IsRunOfFour(us, ttl);
  }

  lemma IsRunOfFour(us: seq<C.Timed>, ttl: T.Ttl)
    requires |us| == 4 && 0 <= us[0].0 <= us[1].0 <= us[2].0 <= us[3].0
    requires var w1 := C.Next(C.START, us[0].1, ttl, us[0].0);
      var w2 := C.Next(w1, us[1].1, ttl, us[1].0);
      var w3 := C.Next(w2, us[2].1, ttl, us[2].0);
      C.Enabled(C.START, us[0].1) && C.Enabled(w1, us[1].1) && C.Enabled(w2, us[2].1) && C.Enabled(w3, us[3].1)
    ensures C.IsRun(C.START, us, ttl, 0)
  {
    var w1 := C.Next(C.START, us[0].1, ttl, us[0].0);
    var w2 := C.Next(w1, us[1].1, ttl, us[1].0);
    var w3 := C.Next(w2, us[2].1, ttl, us[2].0);
    assert us[1..][1..] == us[2..] && us[2..][1..] == us[3..] && us[3..][1..] == [];
    assert C.IsRun(w3, us[3..], ttl, us[2].0);
    assert C.IsRun(w2, us[2..], ttl, us[1].0);
    assert C.IsRun(w1, us[1..], ttl, us[0].0);
  }

  // Answers that differ at once, or later on.
  lemma PartNow(m: Memory, w: C.World, u: C.Timed, rest: seq<C.Timed>, ttl: T.Ttl)
    requires Next(m, u.1, ttl, u.0).1 != RedisAnswer(w, u.1, ttl, u.0)
    ensures MemoryAnswers(m, [u] + rest, ttl) != RedisAnswers(w, [u] + rest, ttl)
  {
    assert MemoryAnswers(m, [u] + rest, ttl)[0] != RedisAnswers(w, [u] + rest, ttl)[0];
  }

  lemma PartLater(m: Memory, w: C.World, u: C.Timed, rest: seq<C.Timed>, ttl: T.Ttl)
    requires MemoryAnswers(Next(m, u.1, ttl, u.0).0, rest, ttl) != RedisAnswers(C.Next(w, u.1, ttl, u.0), rest, ttl)
    ensures MemoryAnswers(m, [u] + rest, ttl) != RedisAnswers(w, [u] + rest, ttl)
  {
    assert ([u] + rest)[1..] == rest;
    assert MemoryAnswers(m, [u] + rest, ttl)[1..] == MemoryAnswers(Next(m, u.1, ttl, u.0).0, rest, ttl);
    assert RedisAnswers(w, [u] + rest, ttl)[1..] == RedisAnswers(C.Next(w, u.1, ttl, u.0), rest, ttl);
  }

  lemma RedisForgets(user: T.UserId, session: T.SessionId, token: T.Token, replacement: T.Token, other: T.Token, ttl: T.Ttl)
    requires ttl.refresh > 0 && token != replacement && other != token && other != replacement
    ensures var us := Parting(user, session, token, replacement, other, ttl);
      var w1 := C.Next(C.START, us[0].1, ttl, 0);
      var w2 := C.Next(w1, us[1].1, ttl, 1);
      var w3 := C.Next(w2, us[2].1, ttl, us[2].0);
      && C.Enabled(C.START, us[0].1) && C.Enabled(w1, us[1].1) && C.Enabled(w2, us[2].1) && C.Enabled(w3, us[3].1)
      && LateReplay(w2, us[2].1, us[2].0)
      && RedisAnswer(w3, us[3].1, ttl, us[3].0) == Some((user, session))
  {
    var us := Parting(user, session, token, replacement, other, ttl);
    var w1 := C.Next(C.START, us[0].1, ttl, 0);
    assert w1.base.store.records == map[token := T.Record(user, session, false, 1000 * ttl.refresh)] && w1.base.store.revoked == map[];
    var w2 := C.Next(w1, us[1].1, ttl, 1);
    assert w2.base.store.records ==
      map[token := T.Record(user, session, true, 1000 * ttl.refresh), replacement := T.Record(user, session, false, 1 + 1000 * ttl.refresh)];
    assert w2.base.store.revoked == map[] && w2.killed == {};
    var w3 := C.Next(w2, us[2].1, ttl, us[2].0);
    assert w3.base.store == w2.base.store;
  }

  lemma MemoryRemembers(user: T.UserId, session: T.SessionId, token: T.Token, replacement: T.Token, other: T.Token, ttl: T.Ttl)
    requires ttl.refresh > 0 && token != replacement
    ensures var us := Parting(user, session, token, replacement, other, ttl);
      var m1 := Next(EMPTY, us[0].1, ttl, us[0].0).0;
      var m2 := Next(m1, us[1].1, ttl, us[1].0).0;
      var m3 := Next(m2, us[2].1, ttl, us[2].0).0;
      Next(m3, us[3].1, ttl, us[3].0).1 == None
  {
    var us := Parting(user, session, token, replacement, other, ttl);
    var m2 := Next(Next(EMPTY, us[0].1, ttl, us[0].0).0, us[1].1, ttl, us[1].0).0;
    assert m2.records[token] == T.Record(user, session, true, 1000 * ttl.refresh);
    assert m2.records[replacement] == T.Record(user, session, false, 1 + 1000 * ttl.refresh);
  }

  // ---- what revoking leaves ----

  /** Revoking a session marks it for good and forgets its records, and touches nothing of any other session. */
  lemma RevokeEffects(m: Memory, session: T.SessionId)
    ensures var m' := RevokeSession(m, session);
      && (forall x :: x in m'.revoked <==> x in m.revoked || x == session)
      && (forall t :: t in m'.records <==> t in m.records && m.records[t].session != session)
      && (forall t :: t in m'.records ==> m'.records[t] == m.records[t])
      && m'.byUser == m.byUser
  {
  }

  /** Revoking everything marks every session known for the user and every session of a record of theirs, and forgets those records. */
  lemma RevokeAllEffects(m: Memory, user: T.UserId)
    ensures var m' := RevokeAll(m, user);
      && (forall x :: x in m'.revoked <==>
          x in m.revoked || (user in m.byUser && x in m.byUser[user]) || exists t :: t in m.records && m.records[t].user == user && m.records[t].session == x)
      && (forall t :: t in m'.records <==> t in m.records && m.records[t].user != user)
      && (forall t :: t in m'.records ==> m'.records[t] == m.records[t])
      && m'.byUser == m.byUser
  {
  }

  /** The chain of the other service counts as spent exactly the tokens that it answers. */
  lemma SpentIsAnswered(w: C.World, u: C.UseCase, ttl: T.Ttl, now: int)
    ensures C.Next(w, u, ttl, now).spent == w.spent + if RedisAnswer(w, u, ttl, now).Some? then [u.token] else []
  {
    assert w.spent + [] == w.spent;
  }
}
