/**
 * The reference meaning of presence: one map from (room, user) to an entry, where an entry counts
 * only while its last heartbeat is younger than the time to live. Every operation of the port is a
 * function of that map and of the clock.
 */
module PresenceSpec {
  import opened Common

  datatype Role = Listener | Speaker | Host

  datatype Entry = Entry(role: Role, muted: bool, lastSeenMs: int, hand: Option<int>)

  // (room id, user id)
  type Key = (string, string)
  type TtlMap = map<Key, Entry>

  // A patch made by the host or by the member; it never touches the clock of the entry.
  datatype Change = SetRole(role: Role) | SetMuted(muted: bool) | SetHand(raised: bool)

  predicate Live(e: Entry, now: int, ttl: int) {
    now - e.lastSeenMs < ttl
  }

  // Two maps nobody can tell apart at an instant: the same members are live, with the same fields.
  ghost predicate SameLive(m: TtlMap, m': TtlMap, now: int, ttl: int) {
    forall k :: GetMember(m, k, now, ttl) == GetMember(m', k, now, ttl)
  }

  function SetOnline(m: TtlMap, k: Key, role: Role, muted: bool, now: int, ttl: int): (TtlMap, bool) {
    var wasPresent := k in m && Live(m[k], now, ttl);
    (m[k := Entry(role, muted, now, if wasPresent then m[k].hand else None)], !wasPresent)
  }

  function SetOffline(m: TtlMap, k: Key): TtlMap {
    m - {k}
  }

  function Heartbeat(m: TtlMap, k: Key, now: int, ttl: int): (TtlMap, bool) {
    if k in m && Live(m[k], now, ttl) then (m[k := m[k].(lastSeenMs := now)], true) else (m, false)
  }

  function Changed(role: Role, muted: bool, hand: Option<int>, c: Change, now: int): (Role, bool, Option<int>) {
    match c
    case SetRole(r) => (r, muted, hand)
    case SetMuted(b) => (role, b, hand)
    case SetHand(raised) => (role, muted, if !raised then None else if hand.Some? then hand else Some(now))
  }

  function Patch(m: TtlMap, k: Key, c: Change, now: int): TtlMap {
    if k !in m then m
    else
      var e := m[k];
      var p := Changed(e.role, e.muted, e.hand, c, now);
      m[k := Entry(p.0, p.1, e.lastSeenMs, p.2)]
  }

  // Sweeping may take away any lapsed entries, and nothing else.
  function Swept(m: TtlMap, batch: set<Key>, now: int, ttl: int): TtlMap {
    map k | k in m && !(k in batch && !Live(m[k], now, ttl)) :: m[k]
  }

  function Lapsed(m: TtlMap, now: int, ttl: int): set<Key> {
    set k | k in m && !Live(m[k], now, ttl)
  }

  function GetMember(m: TtlMap, k: Key, now: int, ttl: int): Option<Entry> {
    if k in m && Live(m[k], now, ttl) then Some(m[k]) else None
  }

  function RoomMembers(m: TtlMap, room: string, now: int, ttl: int): set<(string, Entry)> {
    set k | k in m && k.0 == room && Live(m[k], now, ttl) :: (k.1, m[k])
  }

  function RoomsForUser(m: TtlMap, user: string, now: int, ttl: int): set<string> {
    set k | k in m && k.1 == user && Live(m[k], now, ttl) :: k.0
  }

  // How many entries, distinct users and distinct rooms are live.
  function CountLive(m: TtlMap, now: int, ttl: int): (nat, nat, nat) {
    var live := set k | k in m && Live(m[k], now, ttl);
    (|live|, |set k | k in live :: k.1|, |set k | k in live :: k.0|)
  }

  // Hands currently up, oldest first; equal timestamps may come in either order.
  ghost predicate IsHandQueue(q: seq<(string, Entry)>, members: set<(string, Entry)>) {
    && (forall x :: x in q <==> x in members && x.1.hand.Some?)
    && OldestFirst(q)
  }

  // Distinct, and raised no later than whatever comes after.
  ghost predicate OldestFirst(q: seq<(string, Entry)>) {
    forall i, j :: 0 <= i < j < |q| ==> q[i] != q[j] && NoLater(q[i], q[j])
  }

  predicate NoLater(x: (string, Entry), y: (string, Entry)) {
    x.1.hand.Some? && y.1.hand.Some? && x.1.hand.value <= y.1.hand.value
  }

  lemma InsertKeepsQueue(q: seq<(string, Entry)>, members: set<(string, Entry)>, i: nat, x: (string, Entry))
    requires IsHandQueue(q, members) && x !in members && x.1.hand.Some? && i <= |q|
    requires forall j :: 0 <= j < i ==> NoLater(q[j], x)
    requires forall j :: i <= j < |q| ==> NoLater(x, q[j])
    ensures IsHandQueue(q[..i] + [x] + q[i..], members + {x})
  {
    var longer := q[..i] + [x] + q[i..];
    InsertOrder(q, i, x);
    assert q == q[..i] + q[i..];
    forall y ensures y in longer <==> y in members + {x} && y.1.hand.Some? {
      assert y in longer <==> y in q[..i] || y == x || y in q[i..];
    }
  }

  lemma InsertOrder(q: seq<(string, Entry)>, i: nat, x: (string, Entry))
    requires i <= |q| && x !in q && OldestFirst(q)
    requires forall j :: 0 <= j < i ==> NoLater(q[j], x)
    requires forall j :: i <= j < |q| ==> NoLater(x, q[j])
    ensures OldestFirst(q[..i] + [x] + q[i..])
  {
  }

  // Two queues for the same room may differ only inside a group of equal timestamps.
  lemma HandQueuesAgree(p: seq<(string, Entry)>, q: seq<(string, Entry)>, members: set<(string, Entry)>)
    requires IsHandQueue(p, members) && IsHandQueue(q, members)
    ensures |p| == |q|
    ensures forall i :: 0 <= i < |p| ==> p[i].1.hand.Some? && p[i].1.hand == q[i].1.hand
  {
    DistinctSize(p);
    DistinctSize(q);
    assert Elements(p) == Elements(q);
    forall i | 0 <= i < |p| ensures p[i].1.hand.Some? && p[i].1.hand == q[i].1.hand {
      NotLater(p, q, members, i);
      NotLater(q, p, members, i);
    }
  }

  // Otherwise i + 1 members of q would all have to sit among the first i places of p.
  lemma NotLater(p: seq<(string, Entry)>, q: seq<(string, Entry)>, members: set<(string, Entry)>, i: nat)
    requires IsHandQueue(p, members) && IsHandQueue(q, members)
    requires i < |p| == |q|
    ensures NoLater(p[i], q[i])
  {
    assert p[i] in p && q[i] in q;
    if q[i].1.hand.value < p[i].1.hand.value {
      var early := Elements(q[..i + 1]);
      var before := Elements(p[..i]);
      forall x | x in early ensures x in before {
        var j :| 0 <= j <= i && q[j] == x;
        assert x in q;
        assert j < i ==> NoLater(q[j], q[i]);
        assert x in p;
        var l :| 0 <= l < |p| && p[l] == x;
        assert l < i;
        assert p[..i][l] == x;
      }
      SubsetSize(early, before);
      DistinctSize(q[..i + 1]);
      DistinctSize(p[..i]);
    }
  }

  /** The longer a hand has been up, the earlier it comes: the first of two in a queue was never raised after the second. */
  lemma OldestHandsFirst(q: seq<(string, Entry)>, members: set<(string, Entry)>, i: nat, j: nat)
    requires IsHandQueue(q, members) && i < j < |q|
    ensures q[i].1.hand.Some? && q[j].1.hand.Some? && q[i].1.hand.value <= q[j].1.hand.value
    ensures q[i] in members && q[j] in members && q[i] != q[j]
  {
  }

  // Insert behind every hand that went up no later, as a stable sort does.
  method InsertByHand(queue: seq<(string, Entry)>, x: (string, Entry), ghost members: set<(string, Entry)>) returns (longer: seq<(string, Entry)>)
    requires IsHandQueue(queue, members) && x !in members && x.1.hand.Some?
    ensures IsHandQueue(longer, members + {x})
  {
    var i := |queue|;
    while i > 0 && queue[i - 1].1.hand.Some? && queue[i - 1].1.hand.value > x.1.hand.value
      invariant 0 <= i <= |queue|
      invariant forall j :: i <= j < |queue| ==> NoLater(x, queue[j])
    {
      i := i - 1;
    }
    assert forall j :: 0 <= j < |queue| ==> queue[j] in queue;
    assert i > 0 ==> NoLater(queue[i - 1], x);
    InsertKeepsQueue(queue, members, i, x);
    longer := queue[..i] + [x] + queue[i..];
  }
}
