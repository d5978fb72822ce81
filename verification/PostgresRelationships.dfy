/**
 * The Postgres repository: the same compare-and-set made of two guarded statements, between which
 * other clients may run theirs. Every interleaving is equal to some order of whole transitions.
 */
module PostgresRelationships {
  import opened Common
  import opened Relationships

  // The table, by primary key (user_a, user_b).
  type Table = map<(UserId, UserId), Relationship>

  datatype Call = Call(a: UserId, b: UserId, w: Write, at: int)

  function Key(c: Call): (UserId, UserId) {
    OrderedPair(c.a, c.b)
  }

  function Row(c: Call): Relationship {
    Written(c.a, c.b, c.w, c.at)
  }

  function ReadTable(t: Table, a: UserId, b: UserId, now: int): Relationship {
    if OrderedPair(a, b) in t then t[OrderedPair(a, b)] else Empty(a, b, now)
  }

  // The specification: one step in which a missing row means `none`.
  function Atomic(t: Table, c: Call): (Table, Option<Relationship>) {
    if ReadTable(t, c.a, c.b, c.at).state == c.w.expected then (t[Key(c) := Row(c)], Some(Row(c))) else (t, None)
  }

  // The first statement inserts only for an expected `none`; where a row exists it updates it, if its state is the expected one.
  function InsertOrUpdate(t: Table, c: Call): (Table, Option<Relationship>) {
    if c.w.expected != Nothing then (t, None)
    else if Key(c) !in t || t[Key(c)].state == c.w.expected then (t[Key(c) := Row(c)], Some(Row(c)))
    else (t, None)
  }

  // The second updates the row of the pair, if there is one and its state is the expected one.
  function GuardedUpdate(t: Table, c: Call): (Table, Option<Relationship>) {
    if Key(c) in t && t[Key(c)].state == c.w.expected then (t[Key(c) := Row(c)], Some(Row(c))) else (t, None)
  }

  // ---- clients ----

  // Where a client stands in its call: before either statement, between them, or answered.
  datatype Client = Calling(call: Call) | Between(call: Call) | Answered(call: Call, result: Option<Relationship>)

  datatype Event = Invoke(id: nat, call: Call) | Statement(id: nat)

  // A call that has taken effect, or has been refused for good.
  datatype Entry = Entry(id: nat, call: Call, result: Option<Relationship>)

  // `order` lists the calls as they take effect.
  datatype World = World(table: Table, clients: map<nat, Client>, order: seq<Entry>)

  const START := World(map[], map[], [])

  predicate Enabled(w: World, e: Event) {
    match e
    case Invoke(id, _) => id !in w.clients
    case Statement(id) => id in w.clients && !w.clients[id].Answered?
  }

  function Finish(w: World, id: nat, c: Call, table: Table, result: Option<Relationship>): World {
    World(table, w.clients[id := Answered(c, result)], w.order + [Entry(id, c, result)])
  }

  function Next(w: World, e: Event): World {
    match e
    case Invoke(id, call) => w.(clients := w.clients[id := Calling(call)])
    case Statement(id) =>
      if id !in w.clients then w
      else match w.clients[id] {
        case Calling(c) =>
          var (t, r) := InsertOrUpdate(w.table, c);
          if r.Some? then Finish(w, id, c, t, r) else w.(clients := w.clients[id := Between(c)])
        case Between(c) =>
          var (t, r) := GuardedUpdate(w.table, c);
          Finish(w, id, c, t, r)
        case Answered(_, _) => w
      }
  }

  ghost predicate IsRun(w: World, es: seq<Event>)
    decreases |es|
  {
    es == [] || (Enabled(w, es[0]) && IsRun(Next(w, es[0]), es[1..]))
  }

  function After(w: World, es: seq<Event>): World
    decreases |es|
  {
    if es == [] then w else After(Next(w, es[0]), es[1..])
  }

  /** The first statement answers exactly when `none` is expected and found; the second exactly when the expected state is in the table. */
  lemma StatementsAnswer(t: Table, c: Call)
    ensures InsertOrUpdate(t, c).1 == (if c.w.expected == Nothing && (Key(c) in t ==> t[Key(c)].state == Nothing) then Some(Row(c)) else None)
    ensures GuardedUpdate(t, c).1 == (if Key(c) in t && t[Key(c)].state == c.w.expected then Some(Row(c)) else None)
  {
  }

  /** Undisturbed, a call is answered after its two statements at the latest, as the compare-and-set answers, and leaves what that leaves. */
  lemma UndisturbedIsAtomic(w: World, id: nat, c: Call)
    requires id !in w.clients
    ensures var w' := Next(Next(Next(w, Invoke(id, c)), Statement(id)), Statement(id));
      var (table, result) := Atomic(w.table, c);
      w'.table == table && w'.clients == w.clients[id := Answered(c, result)] && w'.order == w.order + [Entry(id, c, result)]
  {
    var w1 := Next(w, Invoke(id, c));
    assert w1.clients[id] == Calling(c);
    var w2 := Next(w1, Statement(id));
    if w2.clients[id].Between? {
      assert w2 == w.(clients := w.clients[id := Between(c)]);
    }
  }

  // The table left by making whole transitions, one after the other.
  function Replay(order: seq<Entry>): Table
    decreases |order|
  {
    if order == [] then map[] else Atomic(Replay(order[..|order| - 1]), order[|order| - 1].call).0
  }

  // ---- linearizability ----

  ghost predicate IsSequential(order: seq<Entry>) {
    forall i :: 0 <= i < |order| ==> order[i].result == Atomic(Replay(order[..i]), order[i].call).1
  }

  // Answered clients, and no others, are in the order, each once and with its answer.
  ghost predicate OrderIsAnswers(clients: map<nat, Client>, order: seq<Entry>) {
    && (forall i :: 0 <= i < |order| ==> order[i].id in clients && clients[order[i].id] == Answered(order[i].call, order[i].result))
    && (forall i, j :: 0 <= i < j < |order| ==> order[i].id != order[j].id)
    && (forall id :: id in clients && clients[id].Answered? ==> exists i :: 0 <= i < |order| && order[i].id == id)
  }

  // Whoever was refused an insertion for expecting `none` did see a row, and rows stay.
  ghost predicate RefusedSawRow(w: World) {
    forall id :: id in w.clients && w.clients[id].Between? && w.clients[id].call.w.expected == Nothing ==> Key(w.clients[id].call) in w.table
  }

  // One row for each pair, naming that pair.
  ghost predicate OneRowPerPair(t: Table) {
    forall k :: k in t ==> k == (t[k].userA, t[k].userB) && OrderedPair(k.0, k.1) == k
  }

  ghost predicate Linear(w: World) {
    w.table == Replay(w.order) && IsSequential(w.order) && OrderIsAnswers(w.clients, w.order) && RefusedSawRow(w) && OneRowPerPair(w.table)
  }

  /**
   * Every interleaving of statements is equivalent to the calls made one at a time: the final table and
   * every answer are those of the one-step compare-and-set, in an order that contains each answered call
   * once and extends the order reached at any earlier moment, so that a call answered before another was
   * made comes before it.
   */
  lemma Linearizable(es: seq<Event>, fs: seq<Event>)
    requires IsRun(START, es) && IsRun(After(START, es), fs)
    ensures var w, v := After(START, es), After(After(START, es), fs);
      && v.table == Replay(v.order) && IsSequential(v.order) && OrderIsAnswers(v.clients, v.order)
      && OneRowPerPair(v.table)
      && w.order <= v.order && (forall i :: |w.order| <= i < |v.order| ==> !(v.order[i].id in w.clients && w.clients[v.order[i].id].Answered?))
  {
    RunIsLinear(START, es);
    var w := After(START, es);
    RunIsLinear(w, fs);
    var v := After(w, fs);
    forall i | |w.order| <= i < |v.order| ensures !(v.order[i].id in w.clients && w.clients[v.order[i].id].Answered?) {
      forall j | 0 <= j < |w.order| ensures w.order[j].id != v.order[i].id {
        assert v.order[j] == w.order[j];
      }
    }
  }

  lemma {:induction false} RunIsLinear(w: World, es: seq<Event>)
    requires Linear(w) && IsRun(w, es)
    ensures Linear(After(w, es)) && w.order <= After(w, es).order
    decreases |es|
  {
    if es != [] {
      StepIsLinear(w, es[0]);
      RunIsLinear(Next(w, es[0]), es[1..]);
    }
  }

  lemma StepIsLinear(w: World, e: Event)
    requires Linear(w) && Enabled(w, e)
    ensures Linear(Next(w, e)) && w.order <= Next(w, e).order
  {
    match e
    case Invoke(id, call) =>
    case Statement(id) =>
      var c := w.clients[id].call;
      if w.clients[id].Calling? {
        var (t, r) := InsertOrUpdate(w.table, c);
        if r.Some? {
          assert Atomic(w.table, c) == (t, r);
          FinishIsLinear(w, id, c, t, r);
        }
      } else {
        var (t, r) := GuardedUpdate(w.table, c);
        assert Atomic(w.table, c) == (t, r);
        FinishIsLinear(w, id, c, t, r);
      }
  }

  lemma FinishIsLinear(w: World, id: nat, c: Call, t: Table, r: Option<Relationship>)
    requires Linear(w) && id in w.clients && !w.clients[id].Answered? && w.clients[id].call == c && Atomic(w.table, c) == (t, r)
    ensures Linear(Finish(w, id, c, t, r))
  {
    AppendIsSequential(w.order, id, c, r);
    AppendIsAnswers(w.clients, w.order, id, c, r);
    OrderedPairIsStable(c.a, c.b);
  }

  lemma AppendIsSequential(order: seq<Entry>, id: nat, c: Call, r: Option<Relationship>)
    requires IsSequential(order) && Atomic(Replay(order), c).1 == r
    ensures IsSequential(order + [Entry(id, c, r)])
    ensures Replay(order + [Entry(id, c, r)]) == Atomic(Replay(order), c).0
  {
    var order' := order + [Entry(id, c, r)];
    assert order'[..|order|] == order;
    forall i | 0 <= i < |order'| ensures order'[i].result == Atomic(Replay(order'[..i]), order'[i].call).1 {
      if i < |order| {
        assert order'[..i] == order[..i];
      }
    }
  }

  lemma AppendIsAnswers(clients: map<nat, Client>, order: seq<Entry>, id: nat, c: Call, r: Option<Relationship>)
    requires OrderIsAnswers(clients, order) && id in clients && !clients[id].Answered?
    ensures OrderIsAnswers(clients[id := Answered(c, r)], order + [Entry(id, c, r)])
  {
    var order' := order + [Entry(id, c, r)];
    assert order'[|order|].id == id;
    forall x | x in clients && clients[x].Answered? ensures exists i :: 0 <= i < |order'| && order'[i].id == x {
      var i :| 0 <= i < |order| && order[i].id == x;
      assert order'[i].id == x;
    }
  }

  // ---- the same rows as in memory ----

  ghost predicate SameRows(rows: Rows, t: Table) {
    && (forall x, y :: (x, y) in t ==> Bare(x) && Bare(y) && OrderedPair(x, y) == (x, y) && PairKey(x, y) in rows && rows[PairKey(x, y)] == t[(x, y)])
    && (forall k :: k in rows ==> exists x, y :: (x, y) in t && k == PairKey(x, y))
  }

  /** Reading and moving a pair has the same effect and the same answer in both repositories. */
  lemma RepositoriesAgree(rows: Rows, t: Table, c: Call)
    requires SameRows(rows, t) && Bare(c.a) && Bare(c.b)
    ensures Read(rows, c.a, c.b, c.at) == ReadTable(t, c.a, c.b, c.at)
    ensures CompareAndSet(rows, c.a, c.b, c.w, c.at).1 == Atomic(t, c).1
    ensures SameRows(CompareAndSet(rows, c.a, c.b, c.w, c.at).0, Atomic(t, c).0)
  {
    var (x, y) := Key(c);
    OrderedPairIsStable(c.a, c.b);
    if PairKey(x, y) in rows {
      var u, v :| (u, v) in t && PairKey(x, y) == PairKey(u, v);
      PairKeyNamesPair(x, y, u, v);
      OrderedPairNamesPair(x, y, u, v);
    }
    StoreKeepsSameRows(rows, t, x, y, Row(c));
  }

  lemma StoreKeepsSameRows(rows: Rows, t: Table, x: UserId, y: UserId, row: Relationship)
    requires SameRows(rows, t) && Bare(x) && Bare(y) && OrderedPair(x, y) == (x, y)
    ensures SameRows(rows[PairKey(x, y) := row], t[(x, y) := row])
  {
    var rows', t' := rows[PairKey(x, y) := row], t[(x, y) := row];
    forall u, v | (u, v) in t'
      ensures Bare(u) && Bare(v) && OrderedPair(u, v) == (u, v) && PairKey(u, v) in rows' && rows'[PairKey(u, v)] == t'[(u, v)]
    {
      PairKeyNamesPair(x, y, u, v);
      OrderedPairNamesPair(x, y, u, v);
    }
    forall k | k in rows' ensures exists u, v :: (u, v) in t' && k == PairKey(u, v) {
      if k != PairKey(x, y) {
        var u, v :| (u, v) in t && k == PairKey(u, v);
        assert (u, v) in t';
      } else {
        assert (x, y) in t' && k == PairKey(x, y);
      }
    }
  }

  class PostgresRelationshipRepository {
    var table: Table

    constructor ()
      ensures table == map[]
    {
      table := map[];
    }

    method Get(a: UserId, b: UserId, now: int) returns (rel: Relationship)
      ensures rel == ReadTable(table, a, b, now)
    {
      var (userA, userB) := OrderedPair(a, b);
      if (userA, userB) in table {
        return table[(userA, userB)];
      }
      return Empty(a, b, now);
    }

    // Undisturbed, the two statements are the compare-and-set.
    method Transition(a: UserId, b: UserId, w: Write, at: int) returns (updated: Option<Relationship>)
      modifies this
      ensures (table, updated) == Atomic(old(table), Call(a, b, w, at))
    {
      var c := Call(a, b, w, at);
      var (inserted, row) := InsertOrUpdate(table, c);
      table := inserted;
      if row.Some? {
        return row;
      }
      var (changed, row') := GuardedUpdate(table, c);
      table := changed;
      return row';
    }
  }
}
