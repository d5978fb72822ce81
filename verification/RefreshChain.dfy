/**
 * Logging in, refreshing and logging out as whole use cases over the token store. The refresh tokens
 * of a session form a chain: each is spent at most once, at most one is unspent, and a session that
 * was revoked, or whose spent token was shown again, never lives again.
 */
module RefreshChain {
  import opened Common
  import opened TokenStore
  import R = Revocation

  // What the account looks like when a refresh asks for it.
  datatype Account = Missing | Suspended | Active

  datatype UseCase =
    | Login(user: UserId, session: SessionId, token: Token)
    | RefreshWith(token: Token, replacement: Token, account: Account)
    | Logout(session: SessionId)
    | LogoutEverywhere(user: UserId)

  /**
   * `sessions` maps every session to its user; `spent` are the tokens rotated successfully, in order;
   * `killed` are the sessions revoked so far, by whatever route.
   */
  datatype World = World(base: R.World, sessions: map<SessionId, UserId>, spent: seq<Token>, killed: set<SessionId>)

  const START := World(R.START, map[], [], {})

  // Session ids and tokens are freshly drawn; a logout names the session of an access token.
  predicate Enabled(w: World, u: UseCase) {
    match u
    case Login(_, session, token) => session !in w.sessions && token !in w.base.store.records
    case RefreshWith(_, replacement, _) => replacement !in w.base.store.records
    case Logout(session) => session in w.sessions
    case LogoutEverywhere(_) => true
  }

  function Issue(b: R.World, ttl: Ttl, user: UserId, session: SessionId, token: Token, now: int): R.World {
    R.Next(R.Next(b, R.DoIssueAccess(user, session), ttl, now), R.DoIssueRefresh(user, session, token), ttl, now)
  }

  function SessionsOfUser(w: World, user: UserId): set<SessionId> {
    set s | s in w.sessions && w.sessions[s] == user
  }

  function Next(w: World, u: UseCase, ttl: Ttl, now: int): World {
    match u
    case Login(user, session, token) =>
      w.(base := Issue(w.base, ttl, user, session, token, now), sessions := w.sessions[session := user])
    case RefreshWith(token, replacement, account) =>
      var owner := Rotate(w.base.store, ttl, token, now).1;
      var b := R.Next(w.base, R.DoRotate(token), ttl, now);
      if owner.None? then w.(base := b, killed := w.killed + Replayed(w.base.store, token, now))
      else
        var (user, session) := owner.value;
        var w' := w.(spent := w.spent + [token]);
        match account {
          case Missing => w'.(base := R.Next(b, R.DoRevoke(session), ttl, now), killed := w.killed + {session})
          case Suspended => w'.(base := R.Next(b, R.DoRevokeAll(user), ttl, now), killed := w.killed + SessionsOfUser(w, user))
          case Active => w'.(base := Issue(b, ttl, user, session, replacement, now))
        }
    case Logout(session) =>
      w.(base := R.Next(w.base, R.DoRevoke(session), ttl, now), killed := w.killed + {session})
    case LogoutEverywhere(user) =>
      w.(base := R.Next(w.base, R.DoRevokeAll(user), ttl, now), killed := w.killed + SessionsOfUser(w, user))
  }

  // The session a used token gives away, as long as its record still exists.
  function Replayed(s: Store, token: Token, now: int): set<SessionId> {
    if Exists(s, token, now) && s.records[token].used then {s.records[token].session} else {}
  }

  type Timed = (int, UseCase)

  ghost predicate IsRun(w: World, us: seq<Timed>, ttl: Ttl, start: int)
    decreases |us|
  {
    us == [] ||
    (start <= us[0].0 && Enabled(w, us[0].1) && IsRun(Next(w, us[0].1, ttl, us[0].0), us[1..], ttl, us[0].0))
  }

  function After(w: World, us: seq<Timed>, ttl: Ttl): World
    decreases |us|
  {
    if us == [] then w else After(Next(w, us[0].1, ttl, us[0].0), us[1..], ttl)
  }

  function EndOf(us: seq<Timed>, start: int): int {
    if us == [] then start else us[|us| - 1].0
  }

  // ---- the chain ----

  predicate Unspent(records: map<Token, Record>, token: Token) {
    token in records && !records[token].used
  }

  ghost predicate Chain(w: World) {
    Linear(w.base.store.records, w.spent)
  }

  // No token was spent twice, spent tokens are marked, and no session has two unspent ones.
  ghost predicate Linear(records: map<Token, Record>, spent: seq<Token>) {
    && (forall i, j :: 0 <= i < j < |spent| ==> spent[i] != spent[j])
    && (forall t :: t in spent ==> t in records && records[t].used)
    && (forall t, u :: Unspent(records, t) && Unspent(records, u) && t != u ==> records[t].session != records[u].session)
  }

  lemma SpendOne(records: map<Token, Record>, spent: seq<Token>, token: Token)
    requires Linear(records, spent) && Unspent(records, token)
    ensures Linear(records[token := records[token].(used := true)], spent + [token])
    ensures Linear(records[token := records[token].(used := true)], spent)
  {
  }

  lemma AddOne(records: map<Token, Record>, spent: seq<Token>, token: Token, r: Record)
    requires Linear(records, spent) && token !in records
    requires forall t :: Unspent(records, t) ==> records[t].session != r.session
    ensures Linear(records[token := r], spent)
  {
  }

  ghost predicate Consistent(w: World, ttl: Ttl, now: int) {
    && R.Covered(w.base, ttl, now)
    && w.killed <= w.sessions.Keys
    && (forall t :: t in w.base.store.records ==>
        var r := w.base.store.records[t]; r.session in w.sessions && R.Refresh(t, r.user, r.session, r.expires) in w.base.issued)
    && (forall c :: c in w.base.issued ==> c.Session() in w.sessions && w.sessions[c.Session()] == c.User())
    && (forall c :: c in w.base.issued && R.Tracked(c, ttl) && c.Session() in w.killed ==> R.Dead(w.base, c, now))
  }

  /**
   * In every run, each refresh token is exchanged successfully at most once, each session has at most
   * one token that was not, and no refresh token of a killed session is accepted at any later time,
   * whenever it was issued; nor is any access token, if these do not outlive refresh tokens.
   */
  lemma SessionsAreChains(us: seq<Timed>, ttl: Ttl, start: int)
    requires IsRun(START, us, ttl, start)
    ensures Chain(After(START, us, ttl))
    ensures forall c, t :: c in After(START, us, ttl).base.issued && R.Tracked(c, ttl) && c.Session() in After(START, us, ttl).killed && EndOf(us, start) <= t ==>
      !R.Accepted(After(START, us, ttl).base.store, c, ttl, t)
  {
    ChainThroughout(START, us, ttl, start);
    var w := After(START, us, ttl);
    forall c, t | c in w.base.issued && R.Tracked(c, ttl) && c.Session() in w.killed && EndOf(us, start) <= t
      ensures !R.Accepted(w.base.store, c, ttl, t)
    {
      R.DeadIsRefused(w.base, c, ttl, EndOf(us, start), t);
    }
  }

  lemma {:induction false} ChainThroughout(w: World, us: seq<Timed>, ttl: Ttl, start: int)
    requires Chain(w) && Consistent(w, ttl, start) && IsRun(w, us, ttl, start)
    ensures Chain(After(w, us, ttl)) && Consistent(After(w, us, ttl), ttl, EndOf(us, start))
    decreases |us|
  {
    if us != [] {
      var (now, u) := us[0];
      StepKeepsChain(w, u, ttl, now);
      assert Consistent(w, ttl, now);
      StepKeepsConsistent(w, u, ttl, now);
      ChainThroughout(Next(w, u, ttl, now), us[1..], ttl, now);
    }
  }

  lemma StepKeepsChain(w: World, u: UseCase, ttl: Ttl, now: int)
    requires Chain(w) && Enabled(w, u)
    requires forall t :: t in w.base.store.records ==> w.base.store.records[t].session in w.sessions
    ensures Chain(Next(w, u, ttl, now))
  {
    match u
    case Login(user, session, token) =>
      AddOne(w.base.store.records, w.spent, token, Record(user, session, false, now + 1000 * ttl.refresh));
    case RefreshWith(token, replacement, account) =>
      RefreshKeepsChain(w, token, replacement, account, ttl, now);
    case _ =>
  }

  lemma RefreshKeepsChain(w: World, token: Token, replacement: Token, account: Account, ttl: Ttl, now: int)
    requires Chain(w) && replacement !in w.base.store.records
    ensures Chain(Next(w, RefreshWith(token, replacement, account), ttl, now))
  {
    if Exists(w.base.store, token, now) && !w.base.store.records[token].used {
      SpendThenAdd(w.base.store.records, w.spent, token, replacement, now + 1000 * ttl.refresh);
      SpendsOrAdds(w, token, replacement, account, ttl, now);
    }
  }

  // A refresh that gets as far as the record marks it, counts it if the session is unmarked, and adds another for an active account.
  lemma SpendsOrAdds(w: World, token: Token, replacement: Token, account: Account, ttl: Ttl, now: int)
    requires Exists(w.base.store, token, now) && !w.base.store.records[token].used
    ensures var w', records := Next(w, RefreshWith(token, replacement, account), ttl, now), w.base.store.records;
      var r := records[token];
      var marked := records[token := r.(used := true)];
      || (w'.base.store.records == marked && (w'.spent == w.spent || w'.spent == w.spent + [token]))
      || (w'.base.store.records == marked[replacement := Record(r.user, r.session, false, now + 1000 * ttl.refresh)] && w'.spent == w.spent + [token])
  {
    var r := w.base.store.records[token];
    RevokingKeepsRecords(Rotate(w.base.store, ttl, token, now).0, ttl, r.user, r.session, now);
  }

  lemma RevokingKeepsRecords(s: Store, ttl: Ttl, user: UserId, session: SessionId, now: int)
    ensures RevokeAll(s, ttl, user, now).records == s.records == TokenStore.RevokeSession(s, ttl, session, now).records
  {
  }

  lemma SpendThenAdd(records: map<Token, Record>, spent: seq<Token>, token: Token, replacement: Token, expires: int)
    requires Linear(records, spent) && Unspent(records, token) && replacement !in records
    ensures var r := records[token];
      var marked := records[token := r.(used := true)];
      && Linear(marked, spent + [token]) && Linear(marked, spent)
      && Linear(marked[replacement := Record(r.user, r.session, false, expires)], spent + [token])
  {
    var r := records[token];
    SpendOne(records, spent, token);
    AddOne(records[token := r.(used := true)], spent + [token], replacement, Record(r.user, r.session, false, expires));
  }

  lemma StepKeepsConsistent(w: World, u: UseCase, ttl: Ttl, now: int)
    requires Consistent(w, ttl, now) && Enabled(w, u)
    ensures Consistent(Next(w, u, ttl, now), ttl, now)
  {
    match u
    case Login(user, session, token) =>
      IssueKeepsConsistent(w, ttl, user, session, token, now);
    case RefreshWith(token, replacement, account) =>
      var owner := Rotate(w.base.store, ttl, token, now).1;
      var rotated := w.(base := R.Next(w.base, R.DoRotate(token), ttl, now));
      RotateKeepsConsistent(w, token, ttl, now);
      if owner.Some? {
        LiveTokenLiveSession(w, token, ttl, now);
        var (user, session) := owner.value;
        match account {
          case Missing => RevokeKeepsConsistent(rotated, session, ttl, now);
          case Suspended => RevokeAllKeepsConsistent(rotated, user, ttl, now);
          case Active => IssueKeepsConsistent(rotated, ttl, user, session, replacement, now);
        }
      }
    case Logout(session) => RevokeKeepsConsistent(w, session, ttl, now);
    case LogoutEverywhere(user) => RevokeAllKeepsConsistent(w, user, ttl, now);
  }

  lemma IssueKeepsConsistent(w: World, ttl: Ttl, user: UserId, session: SessionId, token: Token, now: int)
    requires Consistent(w, ttl, now)
    requires session !in w.killed && token !in w.base.store.records && (session in w.sessions ==> w.sessions[session] == user)
    ensures Consistent(w.(base := Issue(w.base, ttl, user, session, token, now), sessions := w.sessions[session := user]), ttl, now)
    ensures session in w.sessions ==> w.sessions[session := user] == w.sessions
  {
    var b := R.Next(w.base, R.DoIssueAccess(user, session), ttl, now);
    R.StepKeepsCovered(w.base, R.DoIssueAccess(user, session), ttl, now);
    R.StepKeepsCovered(b, R.DoIssueRefresh(user, session, token), ttl, now);
    IssueKeepsOwners(w, ttl, user, session, token, now);
  }

  // Sessions keep their owners, records their credentials, and the killed stay dead.
  lemma IssueKeepsOwners(w: World, ttl: Ttl, user: UserId, session: SessionId, token: Token, now: int)
    requires Consistent(w, ttl, now)
    requires session !in w.killed && token !in w.base.store.records && (session in w.sessions ==> w.sessions[session] == user)
    ensures var b, sessions := Issue(w.base, ttl, user, session, token, now), w.sessions[session := user];
      && (forall t :: t in b.store.records ==>
          var r := b.store.records[t]; r.session in sessions && R.Refresh(t, r.user, r.session, r.expires) in b.issued)
      && (forall c :: c in b.issued ==> c.Session() in sessions && sessions[c.Session()] == c.User())
      && (forall c :: c in b.issued && R.Tracked(c, ttl) && c.Session() in w.killed ==> R.Dead(b, c, now))
  {
  }

  // Presenting a used token kills its session.
  lemma RotateKeepsConsistent(w: World, token: Token, ttl: Ttl, now: int)
    requires Consistent(w, ttl, now)
    ensures Consistent(w.(base := R.Next(w.base, R.DoRotate(token), ttl, now), killed := w.killed + Replayed(w.base.store, token, now)), ttl, now)
  {
    R.StepKeepsCovered(w.base, R.DoRotate(token), ttl, now);
  }

  lemma RevokeKeepsConsistent(w: World, session: SessionId, ttl: Ttl, now: int)
    requires Consistent(w, ttl, now) && session in w.sessions
    ensures Consistent(w.(base := R.Next(w.base, R.DoRevoke(session), ttl, now), killed := w.killed + {session}), ttl, now)
  {
    R.StepKeepsCovered(w.base, R.DoRevoke(session), ttl, now);
  }

  lemma RevokeAllKeepsConsistent(w: World, user: UserId, ttl: Ttl, now: int)
    requires Consistent(w, ttl, now)
    ensures Consistent(w.(base := R.Next(w.base, R.DoRevokeAll(user), ttl, now), killed := w.killed + SessionsOfUser(w, user)), ttl, now)
  {
    R.StepKeepsCovered(w.base, R.DoRevokeAll(user), ttl, now);
  }

  // A token that still rotates belongs to a session nobody has killed.
  lemma LiveTokenLiveSession(w: World, token: Token, ttl: Ttl, now: int)
    requires Consistent(w, ttl, now) && Rotate(w.base.store, ttl, token, now).1.Some?
    ensures var r := w.base.store.records[token];
      r.session !in w.killed && r.session in w.sessions && w.sessions[r.session] == r.user
  {
    var r := w.base.store.records[token];
    var c := R.Refresh(token, r.user, r.session, r.expires);
    if R.Dead(w.base, c, now) { R.DeadIsRefused(w.base, c, ttl, now, now); }
  }

  // ---- the use case as the service runs it ----

  // What a refresh does to the store, and whom it was for when it succeeded.
  function Refreshed(s: Store, ttl: Ttl, token: Token, replacement: Token, account: Account, now: int): (Store, Option<(UserId, SessionId)>) {
    var (rotated, owner) := Rotate(s, ttl, token, now);
    if owner.None? then (rotated, None)
    else
      var (user, session) := owner.value;
      match account {
        case Missing => (RevokeSession(rotated, ttl, session, now), None)
        case Suspended => (RevokeAll(rotated, ttl, user, now), None)
        case Active =>
          (TokenStore.IssueRefresh(IssueAccess(rotated, ttl, user, session, now).0, ttl, user, session, replacement, now), Some((user, session)))
      }
  }

  // Runs of the use case go through the same stores.
  lemma NextIsRefreshed(w: World, token: Token, replacement: Token, account: Account, ttl: Ttl, now: int)
    ensures Next(w, RefreshWith(token, replacement, account), ttl, now).base.store
      == Refreshed(w.base.store, ttl, token, replacement, account, now).0
  {
  }

  /** It succeeds exactly for an active account whose token rotates, and for the user and the session of that token. */
  lemma RefreshedAnswers(s: Store, ttl: Ttl, token: Token, replacement: Token, account: Account, now: int, user: UserId, session: SessionId)
    ensures Refreshed(s, ttl, token, replacement, account, now).1 == Some((user, session)) <==>
      && account == Active && token in s.records
      && var r := s.records[token];
        r.user == user && r.session == session && !r.used && now < r.expires && !(session in s.revoked && now < s.revoked[session])
  {
  }

  class RefreshSession {
    const tokens: JwtTokenService

    constructor (tokens: JwtTokenService)
      ensures this.tokens == tokens
    {
      this.tokens := tokens;
    }

    // `account` is what the user repository answers for the owner; `replacement` is the token drawn for the new pair.
    method Execute(token: Token, replacement: Token, account: Account, now: int) returns (session: Option<(UserId, SessionId)>)
      modifies tokens
      ensures (tokens.State(), session) == Refreshed(old(tokens.State()), tokens.ttl, token, replacement, account, now)
    {
      var rotated := tokens.RotateRefreshToken(token, now);
      if rotated.None? {
        return None;
      }
      var (user, sessionId) := rotated.value;
      if account == Missing {
        tokens.RevokeOne(sessionId, now);
        return None;
      }
      if account == Suspended {
        tokens.RevokeAllSessions(user, now);
        return None;
      }
      var _ := tokens.IssueAccessToken(user, sessionId, now);
      tokens.IssueRefreshToken(user, sessionId, replacement, now);
      return Some((user, sessionId));
    }
  }
}
