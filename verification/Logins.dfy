/**
 * Verifying a login code: spend the code, find or create the account, issue tokens for a new session. An
 * unknown identifier without a name and date of birth gets its code back, to come again with them.
 */
module Logins {
  import opened Common
  import opened Challenges
  import T = TokenStore

  datatype Status = Active | Suspended | Deleted

  datatype Account = Account(user: T.UserId, status: Status)

  type Accounts = map<Identifier, Account>

  // Name and date of birth: missing, or given and found valid or not.
  datatype Details = Missing | Invalid | Valid

  // Identifiers that the call draws at random, should it need them.
  datatype Drawn = Drawn(user: T.UserId, session: T.SessionId, token: T.Token)

  datatype Result = RateLimited | BadCode(outcome: Outcome) | RegistrationRequired | Refused | LoggedIn(user: T.UserId, isNew: bool)

  datatype World = World(challenges: Store, accounts: Accounts, tokens: T.Store)

  function IssueTokens(tokens: T.Store, ttl: T.Ttl, user: T.UserId, drawn: Drawn, now: int): T.Store {
    T.IssueRefresh(T.IssueAccess(tokens, ttl, user, drawn.session, now).0, ttl, user, drawn.session, drawn.token, now)
  }

  function Verify(w: World, ttl: T.Ttl, id: Identifier, code: Code, details: Details, withinLimit: bool, drawn: Drawn, now: int): (World, Result) {
    if !withinLimit then (w, RateLimited)
    else
      var (challenges, outcome) := ConsumeInMemory(w.challenges, id, code, now);
      var w' := w.(challenges := challenges);
      if outcome != Good then (w', BadCode(outcome))
      else if id !in w.accounts then
        match details {
          case Missing => (w'.(challenges := Issue(challenges, id, code, CHALLENGE_TTL_SECONDS, now)), RegistrationRequired)
          case Invalid => (w', Refused)
          case Valid =>
            (w'.(accounts := w.accounts[id := Account(drawn.user, Active)], tokens := IssueTokens(w.tokens, ttl, drawn.user, drawn, now)),
              LoggedIn(drawn.user, true))
        }
      else if w.accounts[id].status != Active then (w', Refused)
      else (w'.(tokens := IssueTokens(w.tokens, ttl, w.accounts[id].user, drawn, now)), LoggedIn(w.accounts[id].user, false))
  }

  class VerifyLoginCode {
    const challenges: MemoryAuthChallengeStore
    const tokens: T.JwtTokenService
    var accounts: Accounts

    constructor (challenges: MemoryAuthChallengeStore, tokens: T.JwtTokenService)
      ensures this.challenges == challenges && this.tokens == tokens && accounts == map[]
    {
      this.challenges, this.tokens := challenges, tokens;
      accounts := map[];
    }

    function State(): World
      reads this, challenges, tokens
    {
      World(challenges.challenges, accounts, tokens.State())
    }

    method Execute(id: Identifier, code: Code, details: Details, withinLimit: bool, drawn: Drawn, now: int) returns (r: Result)
      modifies this, challenges, tokens
      ensures (State(), r) == Verify(old(State()), tokens.ttl, id, code, details, withinLimit, drawn, now)
    {
      if !withinLimit {
        return RateLimited;
      }
      var outcome := challenges.Consume(id, code, now);
      if outcome != Good {
        return BadCode(outcome);
      }
      if id !in accounts && details == Missing {
        challenges.Issue(id, code, CHALLENGE_TTL_SECONDS, now);
        return RegistrationRequired;
      }
      var isNew := id !in accounts;
      if isNew {
        if details == Invalid {
          return Refused;
        }
        accounts := accounts[id := Account(drawn.user, Active)];
      } else if accounts[id].status != Active {
        return Refused;
      }
      var user := accounts[id].user;
      var _ := tokens.IssueAccessToken(user, drawn.session, now);
      tokens.IssueRefreshToken(user, drawn.session, drawn.token, now);
      return LoggedIn(user, isNew);
    }
  }

  // The stored challenge is alive, and this is its code.
  predicate IsRight(w: World, id: Identifier, code: Code, now: int) {
    id in w.challenges && now < w.challenges[id].expiresAt && w.challenges[id].code == code
  }

  /**
   * Exactly which answer comes when. An account is logged into only with the right code, and only while it is
   * active; one is created only for an identifier that has none.
   */
  lemma VerifyAnswers(w: World, ttl: T.Ttl, id: Identifier, code: Code, details: Details, withinLimit: bool, drawn: Drawn, now: int, user: T.UserId)
    ensures var r := Verify(w, ttl, id, code, details, withinLimit, drawn, now).1;
      var alive, right := id in w.challenges && now < w.challenges[id].expiresAt, IsRight(w, id, code, now);
      && (r == RateLimited <==> !withinLimit)
      && (r == BadCode(Expired) <==> withinLimit && !alive)
      && (r == BadCode(Wrong) <==> withinLimit && alive && !right && w.challenges[id].attempts < 4)
      && (r == BadCode(TooMany) <==> withinLimit && alive && !right && w.challenges[id].attempts >= 4)
      && (r == RegistrationRequired <==> withinLimit && right && id !in w.accounts && details == Missing)
      && (r == Refused <==> withinLimit && right && if id in w.accounts then w.accounts[id].status != Active else details == Invalid)
      && (r == LoggedIn(user, false) <==> withinLimit && right && id in w.accounts && w.accounts[id] == Account(user, Active))
      && (r == LoggedIn(user, true) <==> withinLimit && right && id !in w.accounts && details == Valid && user == drawn.user)
  {
  }

  // What a login of this user leaves of the tokens: one new unused record, and the new session known beside those still known.
  ghost predicate IsLoggedIn(tokens: T.Store, tokens': T.Store, ttl: T.Ttl, user: T.UserId, drawn: Drawn, now: int) {
    && tokens'.records == tokens.records[drawn.token := T.Record(user, drawn.session, false, now + 1000 * ttl.refresh)]
    && tokens'.revoked == tokens.revoked
    && user in tokens'.index && tokens'.index - {user} == tokens.index - {user}
    && tokens'.index[user].expires == now + 1000 * ttl.refresh
    && (forall x :: x in tokens'.index[user].sessions <==>
        x == drawn.session || (user in tokens.index && now < tokens.index[user].expires && x in tokens.index[user].sessions))
  }

  /** And what each leaves: tokens for whom it logged in and for nobody else, an account only for whom it registered. */
  lemma VerifyEffects(w: World, ttl: T.Ttl, id: Identifier, code: Code, details: Details, withinLimit: bool, drawn: Drawn, now: int)
    requires ttl.refresh > 0
    ensures var (w', r) := Verify(w, ttl, id, code, details, withinLimit, drawn, now);
      && (if r.LoggedIn? then IsLoggedIn(w.tokens, w'.tokens, ttl, r.user, drawn, now) else w'.tokens == w.tokens)
      && w'.accounts == (if r == LoggedIn(drawn.user, true) then w.accounts[id := Account(drawn.user, Active)] else w.accounts)
      && (r == RateLimited ==> w'.challenges == w.challenges)
      && w'.challenges - {id} == w.challenges - {id}
      && (r == BadCode(Wrong) ==> id in w'.challenges && w'.challenges[id] == w.challenges[id].(attempts := w.challenges[id].attempts + 1))
      && (r == RegistrationRequired ==> id in w'.challenges && w'.challenges[id] == Challenge(code, 0, now + 600_000))
      && (r == BadCode(Expired) || r == BadCode(TooMany) || r == Refused || r.LoggedIn? ==> id !in w'.challenges)
  {
  }

  /**
   * The two steps of signing up: the first gives the code back exactly as issued, with no attempt used and a
   * full term; coming back with it and valid details within the term creates the account, once, and the code
   * is gone.
   */
  lemma SigningUpTakesOneCode(w: World, ttl: T.Ttl, id: Identifier, code: Code, drawn: Drawn, now: int, later: int)
    requires Verify(w, ttl, id, code, Missing, true, drawn, now).1 == RegistrationRequired
    requires now <= later < now + 1000 * CHALLENGE_TTL_SECONDS
    ensures var asked := Verify(w, ttl, id, code, Missing, true, drawn, now).0;
      var (done, r) := Verify(asked, ttl, id, code, Valid, true, drawn, later);
      && asked == w.(challenges := w.challenges[id := Challenge(w.challenges[id].code, 0, now + 1000 * CHALLENGE_TTL_SECONDS)])
      && r == LoggedIn(drawn.user, true) && id in done.accounts && id !in done.challenges
      && Verify(done, ttl, id, code, Valid, true, drawn, later).1 == BadCode(Expired)
  {
  }

  // ---- runs ----

  // The status of an account is changed elsewhere.
  datatype Op =
    | Request(id: Identifier, code: Code)
    | Moderate(id: Identifier, status: Status)
    | Attempt(id: Identifier, code: Code, details: Details, withinLimit: bool, drawn: Drawn)

  type Timed = (int, Op)

  function Next(w: World, op: Op, ttl: T.Ttl, now: int): (World, Option<Result>) {
    match op
    case Moderate(id, status) =>
      (if id in w.accounts then w.(accounts := w.accounts[id := w.accounts[id].(status := status)]) else w, None)
    case Request(id, code) => (w.(challenges := Issue(w.challenges, id, code, CHALLENGE_TTL_SECONDS, now)), None)
    case Attempt(id, code, details, withinLimit, drawn) =>
      var (w', r) := Verify(w, ttl, id, code, details, withinLimit, drawn, now);
      (w', Some(r))
  }

  predicate IsLogin(op: Op, r: Option<Result>, id: Identifier) {
    op.id == id && r.Some? && r.value.LoggedIn?
  }

  function LoginsOf(w: World, ops: seq<Timed>, ttl: T.Ttl, id: Identifier): nat
    decreases |ops|
  {
    if ops == [] then 0
    else
      var (w', r) := Next(w, ops[0].1, ttl, ops[0].0);
      (if IsLogin(ops[0].1, r, id) then 1 else 0) + LoginsOf(w', ops[1..], ttl, id)
  }

  function RequestsOf(ops: seq<Timed>, id: Identifier): nat
    decreases |ops|
  {
    if ops == [] then 0 else (if ops[0].1.Request? && ops[0].1.id == id then 1 else 0) + RequestsOf(ops[1..], id)
  }

  /** Over every run, codes that are given back included, an identifier logs in at most once for each code it requested. */
  lemma {:induction false} OneLoginPerRequest(w: World, ops: seq<Timed>, ttl: T.Ttl, id: Identifier)
    ensures LoginsOf(w, ops, ttl, id) <= RequestsOf(ops, id) + if id in w.challenges then 1 else 0
    decreases |ops|
  {
    if ops != [] {
      OneLoginPerRequest(Next(w, ops[0].1, ttl, ops[0].0).0, ops[1..], ttl, id);
    }
  }

  // ---- for whom tokens are issued ----

  // The world after the first n calls.
  function After(w: World, ops: seq<Timed>, ttl: T.Ttl, n: nat): World
    requires n <= |ops|
  {
    if n == 0 then w else Next(After(w, ops, ttl, n - 1), ops[n - 1].1, ttl, ops[n - 1].0).0
  }

  // Call i was an attempt with the right code, for an account that was active, or that it created, and it drew this token.
  predicate Issues(w: World, ops: seq<Timed>, ttl: T.Ttl, i: nat, token: T.Token, r: T.Record)
    requires i < |ops|
  {
    var before, op, now := After(w, ops, ttl, i), ops[i].1, ops[i].0;
    && op.Attempt? && op.withinLimit && IsRight(before, op.id, op.code, now)
    && op.drawn.token == token && op.drawn.session == r.session && r.expires == now + 1000 * ttl.refresh
    && (if op.id in before.accounts then before.accounts[op.id] == Account(r.user, Active) else op.details == Valid && r.user == op.drawn.user)
  }

  /**
   * Over every run, moderation included: every refresh token there is at the end, and was not at the start, was
   * issued to whoever had the right code, for an account that was active at that moment or new.
   */
  lemma {:induction false} OnlyActiveAccountsGetTokens(w: World, ops: seq<Timed>, ttl: T.Ttl, n: nat, token: T.Token)
    requires n <= |ops| && token in After(w, ops, ttl, n).tokens.records
    requires token !in w.tokens.records || w.tokens.records[token] != After(w, ops, ttl, n).tokens.records[token]
    ensures exists i :: 0 <= i < n && Issues(w, ops, ttl, i, token, After(w, ops, ttl, n).tokens.records[token])
    decreases n
  {
    var before := After(w, ops, ttl, n - 1);
    var r := After(w, ops, ttl, n).tokens.records[token];
    if token in before.tokens.records && before.tokens.records[token] == r {
      OnlyActiveAccountsGetTokens(w, ops, ttl, n - 1, token);
    } else {
      assert Issues(w, ops, ttl, n - 1, token, r);
    }
  }

  /** A code requested for an active account logs in once, within its ten minutes; and an account suspended meanwhile is refused. */
  lemma RequestedCodeLogsIn(w: World, ttl: T.Ttl, id: Identifier, code: Code, status: Status, details: Details, drawn: Drawn, asked: int, now: int)
    requires id in w.accounts && asked <= now
    ensures var requested := Next(w, Request(id, code), ttl, asked).0;
      var moderated := Next(requested, Moderate(id, status), ttl, asked).0;
      Next(moderated, Attempt(id, code, details, true, drawn), ttl, now).1 ==
        Some(if asked + 600_000 <= now then BadCode(Expired) else if status == Active then LoggedIn(w.accounts[id].user, false) else Refused)
  {
  }
}
