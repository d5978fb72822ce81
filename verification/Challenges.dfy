/**
 * One-time login codes: a challenge holds the hash of a code, counts wrong answers, and is destroyed by a
 * right one, by the fifth wrong one, or by time. In memory and in Redis.
 */
module Challenges {
  import opened Common

  const CHALLENGE_TTL_SECONDS := 600
  const MAX_CHALLENGE_ATTEMPTS: nat := 5

  // Codes stand for their hashes: hashing is taken to be injective.
  type Identifier = string
  type Code = string

  datatype Challenge = Challenge(code: Code, attempts: nat, expiresAt: int)

  type Store = map<Identifier, Challenge>

  datatype Outcome = Good | Wrong | Expired | TooMany

  function Issue(s: Store, id: Identifier, code: Code, ttlSeconds: int, now: int): Store {
    s[id := Challenge(code, 0, now + 1000 * ttlSeconds)]
  }

  predicate IsAlive(s: Store, id: Identifier, now: int) {
    id in s && now < s[id].expiresAt
  }

  function ConsumeInMemory(s: Store, id: Identifier, code: Code, now: int): (Store, Outcome) {
    if id !in s then (s, Expired)
    else if s[id].expiresAt <= now then (s - {id}, Expired)
    else if s[id].code == code then (s - {id}, Good)
    else if s[id].attempts + 1 >= MAX_CHALLENGE_ATTEMPTS then (s - {id}, TooMany)
    else (s[id := s[id].(attempts := s[id].attempts + 1)], Wrong)
  }

  // CONSUME_SCRIPT on a key that exists until its expiry.
  function ConsumeInRedis(s: Store, id: Identifier, code: Code, now: int): (Store, Outcome) {
    if !IsAlive(s, id, now) then (s, Expired)
    else if s[id].code == code then (s - {id}, Good)
    else
      var attempts := s[id].attempts + 1;
      if attempts >= MAX_CHALLENGE_ATTEMPTS then (s - {id}, TooMany) else (s[id := s[id].(attempts := attempts)], Wrong)
  }

  class MemoryAuthChallengeStore {
    var challenges: Store

    constructor ()
      ensures challenges == map[]
    {
      challenges := map[];
    }

    method Issue(id: Identifier, code: Code, ttlSeconds: int, now: int)
      modifies this
      ensures challenges == old(challenges)[id := Challenge(code, 0, now + 1000 * ttlSeconds)]
    {
      challenges := challenges[id := Challenge(code, 0, now + ttlSeconds * 1000)];
    }

    method Consume(id: Identifier, code: Code, now: int) returns (outcome: Outcome)
      modifies this
      ensures (challenges, outcome) == ConsumeInMemory(old(challenges), id, code, now)
    {
      if id !in challenges {
        return Expired;
      }
      if challenges[id].expiresAt <= now {
        challenges := challenges - {id};
        return Expired;
      }
      if challenges[id].code == code {
        challenges := challenges - {id};
        return Good;
      }
      ghost var was := challenges;
      challenges := challenges[id := challenges[id].(attempts := challenges[id].attempts + 1)];
      if challenges[id].attempts >= MAX_CHALLENGE_ATTEMPTS {
        challenges := challenges - {id};
        assert challenges == was - {id};
        return TooMany;
      }
      return Wrong;
    }
  }

  class RedisAuthChallengeStore {
    var keys: Store

    constructor ()
      ensures keys == map[]
    {
      keys := map[];
    }

    // DEL, HSET and EXPIRE in one MULTI.
    method Issue(id: Identifier, code: Code, ttlSeconds: int, now: int)
      modifies this
      ensures keys == old(keys)[id := Challenge(code, 0, now + 1000 * ttlSeconds)]
    {
      keys := (keys - {id})[id := Challenge(code, 0, now + ttlSeconds * 1000)];
    }

    method Consume(id: Identifier, code: Code, now: int) returns (outcome: Outcome)
      modifies this
      ensures (keys, outcome) == ConsumeInRedis(old(keys), id, code, now)
    {
      if id !in keys || keys[id].expiresAt <= now {
        return Expired;
      }
      if keys[id].code == code {
        keys := keys - {id};
        return Good;
      }
      var attempts := keys[id].attempts + 1;
      if attempts >= MAX_CHALLENGE_ATTEMPTS {
        keys := keys - {id};
        return TooMany;
      }
      keys := keys[id := keys[id].(attempts := attempts)];
      return Wrong;
    }
  }

  // ---- runs ----

  datatype Op = DoIssue(id: Identifier, code: Code, ttlSeconds: int) | DoConsume(id: Identifier, code: Code)

  type Timed = (int, Op)

  function Next(s: Store, op: Op, now: int, redis: bool): (Store, Option<Outcome>) {
    match op
    case DoIssue(id, code, ttlSeconds) => (Issue(s, id, code, ttlSeconds, now), None)
    case DoConsume(id, code) =>
      var (s', outcome) := if redis then ConsumeInRedis(s, id, code, now) else ConsumeInMemory(s, id, code, now);
      (s', Some(outcome))
  }

  /**
   * What the runs do in either store: a request leaves a new challenge for its term; an answer is judged by what
   * is alive, and a right one, a fifth wrong one and time end the challenge, time in Redis by itself.
   */
  lemma StepEffects(s: Store, id: Identifier, code: Code, ttlSeconds: int, now: int, redis: bool)
    ensures Next(s, DoIssue(id, code, ttlSeconds), now, redis) == (s[id := Challenge(code, 0, now + 1000 * ttlSeconds)], None)
    ensures var (s', r) := Next(s, DoConsume(id, code), now, redis);
      var alive := id in s && now < s[id].expiresAt;
      && s' - {id} == s - {id}
      && (!alive ==> r == Some(Expired) && s' == if redis then s else s - {id})
      && (alive && s[id].code == code ==> r == Some(Good) && id !in s')
      && (alive && s[id].code != code && s[id].attempts >= 4 ==> r == Some(TooMany) && id !in s')
      && (alive && s[id].code != code && s[id].attempts < 4 ==>
        r == Some(Wrong) && id in s' && s'[id] == Challenge(s[id].code, s[id].attempts + 1, s[id].expiresAt))
  {
    if id !in s { assert s - {id} == s; }
  }

  function Outcomes(s: Store, ops: seq<Timed>, redis: bool): seq<Option<Outcome>>
    decreases |ops|
  {
    if ops == [] then []
    else
      var (s', outcome) := Next(s, ops[0].1, ops[0].0, redis);
      [outcome] + Outcomes(s', ops[1..], redis)
  }

  predicate Nondecreasing(start: int, ops: seq<Timed>) {
    (forall i :: 0 <= i < |ops| ==> start <= ops[i].0) && forall i, j :: 0 <= i < j < |ops| ==> ops[i].0 <= ops[j].0
  }

  // The same challenges are alive; a dead one may linger in either store.
  ghost predicate SameAlive(s: Store, s': Store, now: int) {
    forall id :: IsAlive(s, id, now) || IsAlive(s', id, now) ==> id in s && id in s' && s[id] == s'[id]
  }

  /** Over every run of requests and answers, for any number of identifiers, both stores give the same outcomes. */
  lemma {:induction false} StoresAgree(s: Store, s': Store, ops: seq<Timed>, start: int)
    requires SameAlive(s, s', start) && Nondecreasing(start, ops)
    ensures Outcomes(s, ops, false) == Outcomes(s', ops, true)
    decreases |ops|
  {
    if ops != [] {
      var (now, op) := ops[0];
      assert SameAlive(s, s', now);
      StepAgrees(s, s', op, now);
      StoresAgree(Next(s, op, now, false).0, Next(s', op, now, true).0, ops[1..], now);
    }
  }

  /** In particular from the two empty stores. */
  lemma StoresAgreeFromEmpty(ops: seq<Timed>, start: int)
    requires Nondecreasing(start, ops)
    ensures Outcomes(map[], ops, false) == Outcomes(map[], ops, true)
  {
    StoresAgree(map[], map[], ops, start);
  }

  lemma StepAgrees(s: Store, s': Store, op: Op, now: int)
    requires SameAlive(s, s', now)
    ensures Next(s, op, now, false).1 == Next(s', op, now, true).1
    ensures SameAlive(Next(s, op, now, false).0, Next(s', op, now, true).0, now)
  {
  }

  // ---- what one challenge is good for ----

  predicate Reissues(op: Op, id: Identifier) {
    op.DoIssue? && op.id == id
  }

  // How many answers for an identifier had this outcome.
  function Count(s: Store, ops: seq<Timed>, id: Identifier, what: Outcome): nat
    decreases |ops|
  {
    if ops == [] then 0
    else
      var (s', outcome) := Next(s, ops[0].1, ops[0].0, false);
      (if ops[0].1.id == id && outcome == Some(what) then 1 else 0) + Count(s', ops[1..], id, what)
  }

  /**
   * From being issued until it is issued anew, a challenge accepts one right answer at most, compares five
   * wrong ones at most, and a right answer and a fifth wrong one exclude each other.
   */
  lemma OneChallenge(s: Store, id: Identifier, code: Code, ttlSeconds: int, now: int, ops: seq<Timed>)
    requires forall i :: 0 <= i < |ops| ==> !Reissues(ops[i].1, id)
    ensures var s' := Issue(s, id, code, ttlSeconds, now);
      && Count(s', ops, id, Good) + Count(s', ops, id, TooMany) <= 1
      && Count(s', ops, id, Wrong) + Count(s', ops, id, TooMany) <= MAX_CHALLENGE_ATTEMPTS
  {
    SpendsWhatIsLeft(Issue(s, id, code, ttlSeconds, now), ops, id);
  }

  lemma {:induction false} SpendsWhatIsLeft(s: Store, ops: seq<Timed>, id: Identifier)
    requires (forall i :: 0 <= i < |ops| ==> !Reissues(ops[i].1, id)) && (id in s ==> s[id].attempts < MAX_CHALLENGE_ATTEMPTS)
    ensures Count(s, ops, id, Good) + Count(s, ops, id, TooMany) <= if id in s then 1 else 0
    ensures Count(s, ops, id, Wrong) + Count(s, ops, id, TooMany) <= if id in s then MAX_CHALLENGE_ATTEMPTS - s[id].attempts else 0
    decreases |ops|
  {
    if ops != [] {
      assert !Reissues(ops[0].1, id);
      SpendsWhatIsLeft(Next(s, ops[0].1, ops[0].0, false).0, ops[1..], id);
    }
  }

  /** Once spent, a challenge is dead: until it is issued anew every answer is told it has expired. */
  lemma {:induction false} SpentStaysDead(s: Store, ops: seq<Timed>, id: Identifier, i: nat)
    requires id !in s && i < |ops| && ops[i].1.DoConsume? && ops[i].1.id == id
    requires forall j :: 0 <= j < |ops| ==> !Reissues(ops[j].1, id)
    ensures |Outcomes(s, ops, false)| == |ops| && Outcomes(s, ops, false)[i] == Some(Expired)
    decreases |ops|
  {
    var s' := Next(s, ops[0].1, ops[0].0, false).0;
    assert !Reissues(ops[0].1, id);
    OutcomesLength(s', ops[1..]);
    if i > 0 {
      SpentStaysDead(s', ops[1..], id, i - 1);
    }
  }

  lemma {:induction false} OutcomesLength(s: Store, ops: seq<Timed>)
    ensures |Outcomes(s, ops, false)| == |ops|
    decreases |ops|
  {
    if ops != [] {
      OutcomesLength(Next(s, ops[0].1, ops[0].0, false).0, ops[1..]);
    }
  }
}
