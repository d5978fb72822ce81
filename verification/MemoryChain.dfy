/**
 * The chain of refresh tokens over the in-memory service, which deletes the records of a session it revokes:
 * every token is exchanged at most once, a session has at most one that was not, and a revoked session is
 * never served again.
 */
module MemoryChain {
  import opened Common
  import T = TokenStore
  import C = RefreshChain
  import M = MemoryTokens

  // An exchange that succeeded.
  datatype Exchange = Exchange(token: T.Token, session: T.SessionId)

  // `drawn` are the tokens and `begun` the sessions ever drawn: the records of some are gone.
  datatype World = World(m: M.Memory, exchanges: seq<Exchange>, drawn: set<T.Token>, begun: set<T.SessionId>)

  const START := World(M.EMPTY, [], {}, {})

  predicate Enabled(w: World, u: C.UseCase) {
    match u
    case Login(_, session, token) => session !in w.begun && token !in w.drawn
    case RefreshWith(_, replacement, _) => replacement !in w.drawn
    case _ => true
  }

  function Next(w: World, u: C.UseCase, ttl: T.Ttl, now: int): World {
    var (m, a) := M.Next(w.m, u, ttl, now);
    match u
    case Login(_, session, token) => World(m, w.exchanges, w.drawn + {token}, w.begun + {session})
    case RefreshWith(token, replacement, _) =>
      World(m, if a.Some? then w.exchanges + [Exchange(token, a.value.1)] else w.exchanges, w.drawn + {replacement}, w.begun)
    case _ => w.(m := m)
  }

  // The clock is left free: nothing here depends on it.
  predicate IsRun(w: World, us: seq<C.Timed>, ttl: T.Ttl)
    decreases |us|
  {
    us == [] || (Enabled(w, us[0].1) && IsRun(Next(w, us[0].1, ttl, us[0].0), us[1..], ttl))
  }

  function After(w: World, us: seq<C.Timed>, ttl: T.Ttl): World
    decreases |us|
  {
    if us == [] then w else After(Next(w, us[0].1, ttl, us[0].0), us[1..], ttl)
  }

  // ---- the chain ----

  ghost predicate OncePerToken(exchanges: seq<Exchange>) {
    forall i, j :: 0 <= i < j < |exchanges| ==> exchanges[i].token != exchanges[j].token
  }

  ghost predicate OneUnspentEach(records: map<T.Token, T.Record>) {
    forall t, u :: C.Unspent(records, t) && C.Unspent(records, u) && t != u ==> records[t].session != records[u].session
  }

  ghost predicate Kept(w: World) {
    && (forall t :: t in w.m.records ==> t in w.drawn && w.m.records[t].session in w.begun)
    && (forall e :: e in w.exchanges ==> e.token in w.drawn && !C.Unspent(w.m.records, e.token))
  }

  ghost predicate Chain(w: World) {
    OncePerToken(w.exchanges) && OneUnspentEach(w.m.records) && Kept(w)
  }

  /**
   * In every run over the memory service each refresh token is exchanged at most once, and each session has at
   * most one token that was not.
   */
  lemma SessionsAreChains(us: seq<C.Timed>, ttl: T.Ttl)
    requires IsRun(START, us, ttl)
    ensures var w := After(START, us, ttl); OncePerToken(w.exchanges) && OneUnspentEach(w.m.records)
  {
    RunKeepsChain(START, us, ttl);
  }

  lemma {:induction false} RunKeepsChain(w: World, us: seq<C.Timed>, ttl: T.Ttl)
    requires Chain(w) && IsRun(w, us, ttl)
    ensures Chain(After(w, us, ttl))
    decreases |us|
  {
    if us != [] {
      StepKeepsChain(w, us[0].1, ttl, us[0].0);
      RunKeepsChain(Next(w, us[0].1, ttl, us[0].0), us[1..], ttl);
    }
  }

  lemma StepKeepsChain(w: World, u: C.UseCase, ttl: T.Ttl, now: int)
    requires Chain(w) && Enabled(w, u)
    ensures Chain(Next(w, u, ttl, now))
  {
    match u
    case Login(user, session, token) =>
      AddKeepsUnspent(w.m.records, token, T.Record(user, session, false, now + 1000 * ttl.refresh));
    case RefreshWith(token, replacement, account) => RefreshKeepsChain(w, token, replacement, account, ttl, now);
    case Logout(session) => FewerKeep(w.m.records, M.RevokeSession(w.m, session).records);
    case LogoutEverywhere(user) => FewerKeep(w.m.records, M.RevokeAll(w.m, user).records);
  }

  lemma AddKeepsUnspent(records: map<T.Token, T.Record>, token: T.Token, r: T.Record)
    requires OneUnspentEach(records) && token !in records
    requires forall t :: C.Unspent(records, t) ==> records[t].session != r.session
    ensures OneUnspentEach(records[token := r])
  {
  }

  lemma FewerKeep(records: map<T.Token, T.Record>, fewer: map<T.Token, T.Record>)
    requires OneUnspentEach(records) && forall t :: t in fewer ==> t in records && fewer[t] == records[t]
    ensures OneUnspentEach(fewer)
  {
  }

  lemma SpendKeeps(records: map<T.Token, T.Record>, token: T.Token)
    requires OneUnspentEach(records) && C.Unspent(records, token)
    ensures var spent := records[token := records[token].(used := true)];
      OneUnspentEach(spent) && forall t :: C.Unspent(spent, t) ==> spent[t].session != records[token].session
  {
  }

  lemma RefreshKeepsChain(w: World, token: T.Token, replacement: T.Token, account: C.Account, ttl: T.Ttl, now: int)
    requires Chain(w) && replacement !in w.drawn
    ensures Chain(Next(w, C.RefreshWith(token, replacement, account), ttl, now))
  {
    if M.Rotate(w.m, token, now).1.Some? {
      var w' := Next(w, C.RefreshWith(token, replacement, account), ttl, now);
      RefreshKeepsUnspent(w, token, replacement, account, ttl, now);
      ExchangeKeeps(w, Exchange(token, w.m.records[token].session));
      RefreshedRecords(w.m, token, replacement, account, ttl, now);
      KeptStays(w, w', token, replacement);
    }
  }

  // What is left are records that were there, none unspent that was spent, and perhaps the replacement.
  ghost predicate Carries(records: map<T.Token, T.Record>, records': map<T.Token, T.Record>, token: T.Token, replacement: T.Token) {
    && token in records
    && (forall t :: t in records' && t != replacement ==>
        t in records && records'[t].session == records[t].session && (records[t].used || t == token ==> records'[t].used))
    && (replacement in records' ==> records'[replacement].session == records[token].session)
  }

  lemma RefreshedRecords(m: M.Memory, token: T.Token, replacement: T.Token, account: C.Account, ttl: T.Ttl, now: int)
    requires replacement !in m.records && M.Rotate(m, token, now).1.Some?
    ensures Carries(m.records, M.Next(m, C.RefreshWith(token, replacement, account), ttl, now).0.records, token, replacement)
  {
  }

  lemma KeptStays(w: World, w': World, token: T.Token, replacement: T.Token)
    requires Kept(w) && replacement !in w.drawn && Carries(w.m.records, w'.m.records, token, replacement)
    requires w'.drawn == w.drawn + {replacement} && w'.begun == w.begun
    requires forall e :: e in w'.exchanges ==> e in w.exchanges || e.token == token
    ensures Kept(w')
  {
  }

  lemma RefreshKeepsUnspent(w: World, token: T.Token, replacement: T.Token, account: C.Account, ttl: T.Ttl, now: int)
    requires OneUnspentEach(w.m.records) && replacement !in w.m.records && M.Rotate(w.m, token, now).1.Some?
    ensures OneUnspentEach(M.Next(w.m, C.RefreshWith(token, replacement, account), ttl, now).0.records)
  {
    var r, rotated := w.m.records[token], M.Rotate(w.m, token, now).0;
    SpendKeeps(w.m.records, token);
    match account {
      case Missing => FewerKeep(rotated.records, M.RevokeSession(rotated, r.session).records);
      case Suspended => FewerKeep(rotated.records, M.RevokeAll(rotated, r.user).records);
      case Active => AddKeepsUnspent(rotated.records, replacement, T.Record(r.user, r.session, false, now + 1000 * ttl.refresh));
    }
  }

  lemma ExchangeKeeps(w: World, e: Exchange)
    requires OncePerToken(w.exchanges) && Kept(w) && C.Unspent(w.m.records, e.token)
    ensures OncePerToken(w.exchanges + [e])
  {
  }

  // ---- revoked for good ----

  /** Whatever happens after a session was revoked, at whatever instants: it stays revoked, and nothing is exchanged for it. */
  lemma {:induction false} RevokedIsForGood(w: World, us: seq<C.Timed>, ttl: T.Ttl, session: T.SessionId)
    requires session in w.m.revoked
    ensures var w' := After(w, us, ttl);
      && session in w'.m.revoked
      && |w.exchanges| <= |w'.exchanges|
      && forall i :: |w.exchanges| <= i < |w'.exchanges| ==> w'.exchanges[i].session != session
    decreases |us|
  {
    if us != [] {
      RevokedStays(w, us[0].1, ttl, us[0].0, session);
      RevokedIsForGood(Next(w, us[0].1, ttl, us[0].0), us[1..], ttl, session);
      ExchangesStay(Next(w, us[0].1, ttl, us[0].0), us[1..], ttl);
    }
  }

  lemma RevokedStays(w: World, u: C.UseCase, ttl: T.Ttl, now: int, session: T.SessionId)
    requires session in w.m.revoked
    ensures var w' := Next(w, u, ttl, now);
      && session in w'.m.revoked && (w'.exchanges == w.exchanges || exists e :: w'.exchanges == w.exchanges + [e] && e.session != session)
  {
  }

  lemma {:induction false} ExchangesStay(w: World, us: seq<C.Timed>, ttl: T.Ttl)
    ensures w.exchanges <= After(w, us, ttl).exchanges
    decreases |us|
  {
    if us != [] { ExchangesStay(Next(w, us[0].1, ttl, us[0].0), us[1..], ttl); }
  }

  // ---- the log is the answers ----

  // The exchanges among these answers.
  function ExchangesAmong(us: seq<C.Timed>, answers: seq<Option<(T.UserId, T.SessionId)>>): seq<Exchange>
    requires |us| == |answers|
    decreases |us|
  {
    if us == [] then []
    else
      (if us[0].1.RefreshWith? && answers[0].Some? then [Exchange(us[0].1.token, answers[0].value.1)] else []) + ExchangesAmong(us[1..], answers[1..])
  }

  /** What is logged are exactly the refreshes that the service answers with a session, each with its token and that session. */
  lemma {:induction false} ExchangesAreAnswers(w: World, us: seq<C.Timed>, ttl: T.Ttl)
    ensures var answers := M.MemoryAnswers(w.m, us, ttl);
      |answers| == |us| && After(w, us, ttl).exchanges == w.exchanges + ExchangesAmong(us, answers)
    decreases |us|
  {
    if us != [] {
      var (now, u) := us[0];
      var w', a := Next(w, u, ttl, now), M.Next(w.m, u, ttl, now).1;
      ExchangesAreAnswers(w', us[1..], ttl);
      assert M.MemoryAnswers(w.m, us, ttl) == [a] + M.MemoryAnswers(w'.m, us[1..], ttl);
      assert M.MemoryAnswers(w.m, us, ttl)[1..] == M.MemoryAnswers(w'.m, us[1..], ttl);
    }
  }
}
