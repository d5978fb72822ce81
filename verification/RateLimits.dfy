/**
 * Fixed-window rate limiting, in memory and as a Redis counter that expires. A window opens with the first
 * check that finds none, counts every check, and lets the first `limit` of them through.
 */
module RateLimits {
  import opened Common

  // A count and the instant it stops counting.
  datatype Window = Window(count: nat, resetAt: int)

  type Windows = map<string, Window>

  datatype Result = Result(allowed: bool, remaining: int, resetAt: int)

  predicate IsLive(w: Windows, key: string, now: int) {
    key in w && now < w[key].resetAt
  }

  function CheckInMemory(w: Windows, key: string, limit: nat, windowSec: nat, now: int): (Windows, Result) {
    if !IsLive(w, key, now) then
      (w[key := Window(1, now + 1000 * windowSec)], Result(true, limit - 1, now + 1000 * windowSec))
    else
      var count := w[key].count + 1;
      (w[key := Window(count, w[key].resetAt)], Result(count <= limit, Max(0, limit - count), w[key].resetAt))
  }

  // INCREMENT_SCRIPT on a key that exists until its expiry, and what the adapter makes of the answer.
  function CheckInRedis(w: Windows, key: string, limit: nat, windowSec: nat, now: int): (Windows, Result) {
    var counter := if IsLive(w, key, now) then Window(w[key].count + 1, w[key].resetAt) else Window(1, now + 1000 * windowSec);
    (w[key := counter], Result(counter.count <= limit, Max(0, limit - counter.count), counter.resetAt))
  }

  class MemoryRateLimiter {
    var windows: Windows

    constructor ()
      ensures windows == map[]
    {
      windows := map[];
    }

    method Check(key: string, limit: nat, windowSec: nat, now: int) returns (r: Result)
      modifies this
      ensures (windows, r) == CheckInMemory(old(windows), key, limit, windowSec, now)
    {
      if key !in windows || windows[key].resetAt <= now {
        var started := Window(1, now + windowSec * 1000);
        windows := windows[key := started];
        return Result(true, limit - 1, started.resetAt);
      }
      windows := windows[key := windows[key].(count := windows[key].count + 1)];
      var existing := windows[key];
      return Result(existing.count <= limit, Max(0, limit - existing.count), existing.resetAt);
    }

    method Reset(key: string)
      modifies this
      ensures windows == old(windows) - {key}
    {
      windows := windows - {key};
    }
  }

  class RedisRateLimiter {
    var counters: map<string, nat>
    var expires: map<string, int>

    constructor ()
      ensures Valid() && State() == map[]
    {
      counters, expires := map[], map[];
    }

    ghost predicate Valid()
      reads this
    {
      counters.Keys == expires.Keys && forall key :: key in counters ==> counters[key] >= 1
    }

    ghost function State(): Windows
      requires Valid()
      reads this
    {
      map key | key in counters :: Window(counters[key], expires[key])
    }

    method Check(key: string, limit: nat, windowSec: nat, now: int) returns (r: Result)
      requires Valid()
      modifies this
      ensures Valid() && (State(), r) == CheckInRedis(old(State()), key, limit, windowSec, now)
    {
      var count: nat := if key in counters && now < expires[key] then counters[key] + 1 else 1;
      counters := counters[key := count];
      if count == 1 {
        expires := expires[key := now + 1000 * windowSec];
      }
      assert State() == old(State())[key := Window(count, expires[key])];
      var ttlMs := expires[key] - now;
      var resetAt := now + if ttlMs >= 0 then ttlMs else windowSec * 1000;
      return Result(count <= limit, Max(0, limit - count), resetAt);
    }

    method Reset(key: string)
      requires Valid()
      modifies this
      ensures Valid() && State() == old(State()) - {key}
    {
      counters, expires := counters - {key}, expires - {key};
    }
  }

  // ---- the same decisions ----

  datatype Op = Check(key: string, limit: nat, windowSec: nat) | Reset(key: string)

  type Timed = (int, Op)

  function Answers(w: Windows, ops: seq<Timed>, redis: bool): seq<Result>
    decreases |ops|
  {
    if ops == [] then []
    else
      var (now, op) := ops[0];
      match op
      case Check(key, limit, windowSec) =>
        var (w', r) := if redis then CheckInRedis(w, key, limit, windowSec, now) else CheckInMemory(w, key, limit, windowSec, now);
        [r] + Answers(w', ops[1..], redis)
      case Reset(key) => Answers(w - {key}, ops[1..], redis)
  }

  /** A check is answered alike unless it opens a window with a limit of zero, which the memory form lets through. */
  lemma OneCheckAgrees(w: Windows, key: string, limit: nat, windowSec: nat, now: int)
    ensures CheckInMemory(w, key, limit, windowSec, now).0 == CheckInRedis(w, key, limit, windowSec, now).0
    ensures CheckInMemory(w, key, limit, windowSec, now).1 == CheckInRedis(w, key, limit, windowSec, now).1 <==> limit >= 1 || IsLive(w, key, now)
  {
  }

  /** Over every run of checks and resets on any keys, with limits of at least one, both limiters give the same answers. */
  lemma {:induction false} LimitersAgree(w: Windows, ops: seq<Timed>)
    requires forall i :: 0 <= i < |ops| && ops[i].1.Check? ==> ops[i].1.limit >= 1
    ensures Answers(w, ops, false) == Answers(w, ops, true)
    decreases |ops|
  {
    if ops != [] {
      var (now, op) := ops[0];
      match op
      case Check(key, limit, windowSec) =>
        OneCheckAgrees(w, key, limit, windowSec, now);
        LimitersAgree(CheckInMemory(w, key, limit, windowSec, now).0, ops[1..]);
      case Reset(key) => LimitersAgree(w - {key}, ops[1..]);
    }
  }

  // ---- how much gets through ----

  predicate Nondecreasing(times: seq<int>) {
    forall i, j :: 0 <= i < j < |times| ==> times[i] <= times[j]
  }

  // One key with a fixed limit and window, in milliseconds: the window after a check, and the decision.
  function Step(w: Option<Window>, limit: nat, length: nat, now: int): (Window, bool) {
    if w.None? || w.value.resetAt <= now then (Window(1, now + length), true)
    else (Window(w.value.count + 1, w.value.resetAt), w.value.count + 1 <= limit)
  }

  lemma StepIsCheck(w: Windows, key: string, limit: nat, windowSec: nat, now: int)
    ensures var (w', r) := CheckInMemory(w, key, limit, windowSec, now);
      (w'[key], r.allowed) == Step(if key in w then Some(w[key]) else None, limit, 1000 * windowSec, now)
  {
  }

  // How many of the checks at these times, from `from` to before `end`, are allowed.
  function Allowed(w: Option<Window>, limit: nat, length: nat, times: seq<int>, from: int, end: int): nat
    decreases |times|
  {
    if times == [] then 0
    else
      var (w', ok) := Step(w, limit, length, times[0]);
      (if ok && from <= times[0] < end then 1 else 0) + Allowed(Some(w'), limit, length, times[1..], from, end)
  }

  // How many windows of this length it takes to cover a stretch of time.
  function Cover(stretch: int, length: nat): nat
    requires length > 0
    decreases stretch
  {
    if stretch <= 0 then 0 else 1 + Cover(stretch - length, length)
  }

  lemma {:induction false} CoverIsCeiling(stretch: int, length: nat)
    requires length > 0 && stretch > 0
    ensures (Cover(stretch, length) - 1) * length < stretch <= Cover(stretch, length) * length
    decreases stretch
  {
    if stretch > length {
      CoverIsCeiling(stretch - length, length);
      assert Cover(stretch, length) * length == (Cover(stretch, length) - 1) * length + length;
    } else {
      assert Cover(stretch, length) == 1;
    }
  }

  lemma {:induction false} CoverGrows(less: int, more: int, length: nat)
    requires length > 0 && less <= more
    ensures Cover(less, length) <= Cover(more, length)
    decreases more
  {
    if less > 0 {
      CoverGrows(less - length, more - length, length);
    }
  }

  // The most that can still be allowed before `end`, seen from an instant.
  function Budget(w: Option<Window>, limit: nat, length: nat, now: int, end: int): nat
    requires length > 0
  {
    if w.Some? && now < w.value.resetAt
    then Max(0, limit - w.value.count) + limit * Cover(end - w.value.resetAt, length)
    else limit * Cover(end - now, length)
  }

  lemma {:induction false} BudgetHolds(w: Option<Window>, limit: nat, length: nat, times: seq<int>, from: int, end: int)
    requires limit >= 1 && length > 0 && Nondecreasing(times) && (times != [] ==> from <= times[0])
    ensures Allowed(w, limit, length, times, from, end) <= Budget(w, limit, length, from, end)
    decreases |times|
  {
    if times != [] {
      var now := times[0];
      var (w', ok) := Step(w, limit, length, now);
      if now < end {
        BudgetHolds(Some(w'), limit, length, times[1..], now, end);
        AllowedFrom(Some(w'), limit, length, times[1..], from, now, end);
        BudgetAtStep(w, limit, length, from, now, end);
      } else {
        NoneAllowed(Some(w'), limit, length, times[1..], from, end);
      }
    }
  }

  // Where the counting starts does not matter before the first check.
  lemma {:induction false} AllowedFrom(w: Option<Window>, limit: nat, length: nat, times: seq<int>, from: int, from': int, end: int)
    requires Nondecreasing(times) && (times != [] ==> from <= times[0] && from' <= times[0])
    ensures Allowed(w, limit, length, times, from, end) == Allowed(w, limit, length, times, from', end)
    decreases |times|
  {
    if times != [] {
      AllowedFrom(Some(Step(w, limit, length, times[0]).0), limit, length, times[1..], from, from', end);
    }
  }

  lemma {:induction false} NoneAllowed(w: Option<Window>, limit: nat, length: nat, times: seq<int>, from: int, end: int)
    requires Nondecreasing(times) && (times != [] ==> end <= times[0])
    ensures Allowed(w, limit, length, times, from, end) == 0
    decreases |times|
  {
    if times != [] {
      NoneAllowed(Some(Step(w, limit, length, times[0]).0), limit, length, times[1..], from, end);
    }
  }

  // One check spends at most what it takes off the budget.
  lemma BudgetAtStep(w: Option<Window>, limit: nat, length: nat, from: int, now: int, end: int)
    requires limit >= 1 && length > 0 && from <= now < end
    ensures var (w', ok) := Step(w, limit, length, now);
      (if ok then 1 else 0) + Budget(Some(w'), limit, length, now, end) <= Budget(w, limit, length, from, end)
  {
    if w.None? || w.value.resetAt <= now {
      var free := if w.Some? && from < w.value.resetAt then w.value.resetAt else from;
      CoverGrows(end - now, end - free, length);
      assert limit * Cover(end - now, length) == limit + limit * Cover(end - now - length, length);
      TimesGrows(limit, Cover(end - now, length), Cover(end - free, length));
    }
  }

  lemma TimesGrows(n: nat, x: nat, y: nat)
    requires x <= y
    ensures n * x <= n * y
  {
  }

  /**
   * However checks arrive, a stretch of time sees at most one less than `limit` for each window it takes to
   * cover the stretch and one more: the window already open at its start has spent its first check before.
   */
  lemma AtMostOneWindowMore(limit: nat, length: nat, before: seq<int>, times: seq<int>, from: int, stretch: nat)
    requires limit >= 1 && length > 0 && Nondecreasing(times) && (forall t :: t in before ==> t < from) && (times != [] ==> from <= times[0])
    ensures var w := WindowAfter(None, limit, length, before);
      Allowed(w, limit, length, times, from, from + stretch) <= limit * (Cover(stretch, length) + 1) - 1
  {
    var w := WindowAfter(None, limit, length, before);
    BudgetHolds(w, limit, length, times, from, from + stretch);
    WindowCounts(None, limit, length, before);
    if w.Some? && from < w.value.resetAt {
      CoverGrows(from + stretch - w.value.resetAt, stretch, length);
      TimesGrows(limit, Cover(from + stretch - w.value.resetAt, length), Cover(stretch, length));
    }
    assert limit * (Cover(stretch, length) + 1) == limit * Cover(stretch, length) + limit;
  }

  function WindowAfter(w: Option<Window>, limit: nat, length: nat, times: seq<int>): Option<Window>
    decreases |times|
  {
    if times == [] then w else WindowAfter(Some(Step(w, limit, length, times[0]).0), limit, length, times[1..])
  }

  lemma {:induction false} WindowCounts(w: Option<Window>, limit: nat, length: nat, times: seq<int>)
    requires w.Some? ==> w.value.count >= 1
    ensures var w' := WindowAfter(w, limit, length, times); w'.Some? ==> w'.value.count >= 1
    decreases |times|
  {
    if times != [] {
      WindowCounts(Some(Step(w, limit, length, times[0]).0), limit, length, times[1..]);
    }
  }

  /** A window lets through at most `limit` checks, counting the one that opened it. */
  lemma AtMostLimitPerWindow(w: Option<Window>, limit: nat, length: nat, times: seq<int>)
    requires limit >= 1 && length > 0 && Nondecreasing(times) && times != [] && (w.None? || w.value.resetAt <= times[0])
    ensures Allowed(w, limit, length, times, times[0], times[0] + length) <= limit
  {
    BudgetHolds(w, limit, length, times, times[0], times[0] + length);
    assert Cover(length, length) == 1 + Cover(0, length) == 1;
  }

  // ---- and the bound is met ----

  function Repeat(t: int, n: nat): (times: seq<int>)
    ensures |times| == n && forall i :: 0 <= i < n ==> times[i] == t
  {
    seq(n, i => t)
  }

  lemma {:induction false} RepeatAllowed(w: Window, limit: nat, length: nat, t: int, n: nat, rest: seq<int>, from: int, end: int)
    requires from <= t < end && t < w.resetAt && w.count + n <= limit
    ensures Allowed(Some(w), limit, length, Repeat(t, n) + rest, from, end)
      == n + Allowed(Some(Window(w.count + n, w.resetAt)), limit, length, rest, from, end)
    decreases n
  {
    var times := Repeat(t, n) + rest;
    if n == 0 {
      assert times == rest;
    } else {
      assert times[1..] == Repeat(t, n - 1) + rest;
      RepeatAllowed(Window(w.count + 1, w.resetAt), limit, length, t, n - 1, rest, from, end);
    }
  }

  /** Twice the limit less one can get through within a single window length: the bound is sharp. */
  lemma BoundIsSharp(limit: nat, length: nat)
    requires limit >= 1 && length >= 2
    ensures var w := WindowAfter(None, limit, length, [0]);
      var times := Repeat(length - 1, limit - 1) + Repeat(length, limit);
      Nondecreasing(times) && Allowed(w, limit, length, times, 1, 1 + length) == 2 * limit - 1
  {
    var w := Window(1, length);
    assert [0][1..] == [];
    assert WindowAfter(None, limit, length, [0]) == Some(w);
    var late := Repeat(length, limit);
    RepeatAllowed(w, limit, length, length - 1, limit - 1, late, 1, 1 + length);
    assert late[1..] == Repeat(length, limit - 1) + [];
    RepeatAllowed(Window(1, length + length), limit, length, length, limit - 1, [], 1, 1 + length);
  }
}
