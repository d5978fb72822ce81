/**
 * The two message repositories: a list for each pair, read backwards by position, and a table read by key.
 * They give the same pages as long as messages arrive in the order of their timestamps.
 */
module MemoryMessages {
  import opened Common
  import opened Paging

  function Reversed(s: seq<Message>): (r: seq<Message>)
    ensures |r| == |s| && forall i :: 0 <= i < |s| ==> r[i] == s[|s| - 1 - i]
  {
    if s == [] then [] else [s[|s| - 1]] + Reversed(s[..|s| - 1])
  }

  // Where a message stands in a list, if it does.
  function IndexOf(s: seq<Message>, id: MessageId): (r: Option<nat>)
    ensures r.Some? ==> r.value < |s| && s[r.value].id == id && forall i :: 0 <= i < r.value ==> s[i].id != id
    ensures r.None? ==> forall i :: 0 <= i < |s| ==> s[i].id != id
  {
    if s == [] then None
    else if s[0].id == id then Some(0)
    else
      var r := IndexOf(s[1..], id);
      assert forall i :: 0 < i < |s| ==> s[i] == s[1..][i - 1];
      if r.Some? then Some(r.value + 1) else None
  }

  // A cursor that is not in the list is ignored.
  function ByPosition(thread: seq<Message>, limit: nat, before: Option<MessageId>): seq<Message> {
    var newestFirst := Reversed(thread);
    if before.None? || IndexOf(newestFirst, before.value).None? then Take(newestFirst, limit)
    else Take(newestFirst[IndexOf(newestFirst, before.value).value + 1..], limit)
  }

  class MemoryMessageRepository {
    var threads: map<PairId, seq<Message>>

    constructor ()
      ensures threads == map[]
    {
      threads := map[];
    }

    function Thread(pair: PairId): seq<Message>
      reads this
    {
      if pair in threads then threads[pair] else []
    }

    method AppendDirectMessage(m: Message)
      modifies this
      ensures Thread(m.pair) == old(Thread(m.pair)) + [m]
      ensures forall pair :: pair != m.pair ==> Thread(pair) == old(Thread(pair))
    {
      var thread := if m.pair in threads then threads[m.pair] else [];
      threads := threads[m.pair := thread + [m]];
    }

    method DirectThread(pair: PairId, limit: nat, before: Option<MessageId>) returns (rows: seq<Message>)
      ensures rows == ByPosition(Thread(pair), limit, before)
    {
      var thread := if pair in threads then threads[pair] else [];
      var ordered := Reversed(thread);
      if before.None? {
        return Take(ordered, limit);
      }
      var index := 0;
      while index < |ordered| && ordered[index].id != before.value
        invariant 0 <= index <= |ordered| && forall i :: 0 <= i < index ==> ordered[i].id != before.value
      {
        index := index + 1;
      }
      if index == |ordered| {
        return Take(ordered, limit);
      }
      return Take(ordered[index + 1..], limit);
    }
  }

  class CompositeMessageRepository {
    var table: Table

    constructor ()
      ensures table == []
    {
      table := [];
    }

    method AppendDirectMessage(m: Message)
      modifies this
      ensures table == old(table) + [m]
    {
      table := table + [m];
    }

    method DirectThread(pair: PairId, limit: nat, before: Option<MessageId>) returns (rows: seq<Message>)
      ensures rows == Paging.DirectThread(table, pair, limit, before)
    {
      if before.None? {
        return Take(Sort(Select(table, pair, None)), limit);
      }
      var cursor := FindById(table, before.value);
      if cursor.None? {
        return [];
      }
      return Take(Sort(Select(table, pair, cursor)), limit);
    }

    // ReadDmThread, once the reader has been allowed in.
    method ReadDmThread(pair: PairId, limit: Option<int>, before: Option<MessageId>) returns (page: Page)
      ensures page == ReadPage(table, pair, limit, before)
    {
      var n := Clamped(limit);
      var rows := DirectThread(pair, n + 1, before);
      var messages := if n <= |rows| then rows[..n] else rows;
      var hasMore := |rows| > n;
      return Page(messages, if hasMore then Some(messages[|messages| - 1].id) else None);
    }
  }

  // ---- when they agree ----

  ghost predicate InOrder(thread: seq<Message>) {
    forall i, j :: 0 <= i < j < |thread| ==> Newer(thread[j], thread[i])
  }

  predicate Names(thread: seq<Message>, before: Option<MessageId>) {
    before.Some? ==> IndexOf(Reversed(thread), before.value).Some?
  }

  // The same page for every size and every cursor that names a message of the conversation.
  ghost predicate SamePages(t: Table, pair: PairId) {
    var thread := Select(t, pair, None);
    forall limit: nat, before :: Names(thread, before) ==> ByPosition(thread, limit, before) == DirectThread(t, pair, limit, before)
  }

  /** Both repositories give the same pages of a conversation exactly if its messages were appended in order of time and id. */
  lemma SamePagesIffInOrder(t: Table, pair: PairId)
    requires DistinctIds(t)
    ensures SamePages(t, pair) <==> InOrder(Select(t, pair, None))
  {
    var thread := Select(t, pair, None);
    SelectIsDistinct(t, pair, None);
    SortDescends(thread);
    if SamePages(t, pair) {
      assert Names(thread, None);
      assert ByPosition(thread, |thread|, None) == DirectThread(t, pair, |thread|, None);
      assert Reversed(thread) == Sort(thread);
      forall i, j | 0 <= i < j < |thread| ensures Newer(thread[j], thread[i]) {
        assert Reversed(thread)[|thread| - 1 - j] == thread[j] && Reversed(thread)[|thread| - 1 - i] == thread[i];
      }
    }
    if InOrder(thread) {
      forall limit: nat, before | Names(thread, before) ensures ByPosition(thread, limit, before) == DirectThread(t, pair, limit, before) {
        SamePage(t, pair, limit, before);
      }
    }
  }

  lemma SamePage(t: Table, pair: PairId, limit: nat, before: Option<MessageId>)
    requires DistinctIds(t) && InOrder(Select(t, pair, None)) && Names(Select(t, pair, None), before)
    ensures ByPosition(Select(t, pair, None), limit, before) == DirectThread(t, pair, limit, before)
  {
    var thread := Select(t, pair, None);
    var ordered := Reversed(thread);
    ReversedDescends(thread);
    if before.None? {
      SortIs(t, pair, None, ordered);
    } else {
      var i := IndexOf(ordered, before.value).value;
      var row := ordered[i];
      assert row in thread;
      FoundAgain(t, t, row);
      OlderThan(ordered, i);
      SortIs(t, pair, Some(row), ordered[i + 1..]);
    }
  }

  lemma ReversedDescends(s: seq<Message>)
    requires InOrder(s)
    ensures Descending(Reversed(s)) && forall m :: m in Reversed(s) <==> m in s
  {
  }

  lemma OlderThan(s: seq<Message>, i: nat)
    requires Descending(s) && i < |s|
    ensures Descending(s[i + 1..]) && forall m :: m in s[i + 1..] <==> m in s && Newer(s[i], m)
  {
  }

  // Whatever descends and holds the selected messages is their sorted order.
  lemma SortIs(t: Table, pair: PairId, below: Option<Message>, s: seq<Message>)
    requires DistinctIds(t) && Descending(s) && forall m :: m in s <==> m in Select(t, pair, below)
    ensures Sort(Select(t, pair, below)) == s
  {
    var selected := Select(t, pair, below);
    SelectIsDistinct(t, pair, below);
    SortDescends(selected);
    DistinctSize(selected);
    DescendingSize(s);
    assert Elements(selected) == Elements(s);
    DescendingIsUnique(Sort(selected), s);
  }

  /** A cursor that names no message at all gives the newest page in memory, and nothing from the table. */
  lemma UnknownCursorDiffers(t: Table, pair: PairId, limit: nat, id: MessageId)
    requires limit > 0 && forall m :: m in t ==> m.id != id
    ensures DirectThread(t, pair, limit, Some(id)) == []
    ensures ByPosition(Select(t, pair, None), limit, Some(id)) == ByPosition(Select(t, pair, None), limit, None)
    ensures ByPosition(Select(t, pair, None), limit, Some(id)) == DirectThread(t, pair, limit, Some(id)) <==> Select(t, pair, None) == []
  {
  }
}
