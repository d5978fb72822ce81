/**
 * Reading a conversation page by page, newest first. A page ends at a message, whose id is the cursor for
 * the next; the conversation may grow meanwhile.
 */
module Paging {
  import opened Common

  // Ids are unique and ordered; a pair key names the two participants.
  type MessageId = nat
  type PairId = nat

  datatype Message = Message(id: MessageId, pair: PairId, sentAt: int, text: string)

  // All messages, in the order of insertion.
  type Table = seq<Message>

  predicate Newer(x: Message, y: Message) {
    x.sentAt > y.sentAt || (x.sentAt == y.sentAt && x.id > y.id)
  }

  ghost predicate DistinctIds(t: seq<Message>) {
    forall i, j :: 0 <= i < j < |t| ==> t[i].id != t[j].id
  }

  ghost predicate Descending(s: seq<Message>) {
    forall i, j :: 0 <= i < j < |s| ==> Newer(s[i], s[j])
  }

  // ---- ORDER BY sent_at DESC, id DESC ----

  function Insert(m: Message, s: seq<Message>): (r: seq<Message>)
    ensures |r| == |s| + 1 && forall x :: x in r <==> x == m || x in s
  {
    if s == [] then [m]
    else if Newer(m, s[0]) then [m] + s
    else
      var rest := Insert(m, s[1..]);
      assert s == [s[0]] + s[1..];
      [s[0]] + rest
  }

  function Sort(s: seq<Message>): (r: seq<Message>)
    ensures |r| == |s| && forall x :: x in r <==> x in s
  {
    if s == [] then []
    else
      assert s == [s[0]] + s[1..];
      Insert(s[0], Sort(s[1..]))
  }

  lemma {:induction false} InsertDescends(m: Message, s: seq<Message>)
    requires Descending(s) && forall x :: x in s ==> x.id != m.id
    ensures Descending(Insert(m, s))
    decreases |s|
  {
    if s != [] && !Newer(m, s[0]) {
      assert s == [s[0]] + s[1..];
      assert Descending(s[1..]);
      InsertDescends(m, s[1..]);
      var rest := Insert(m, s[1..]);
      forall i | 0 <= i < |rest| ensures Newer(s[0], rest[i]) {
        assert rest[i] in rest;
      }
    }
  }

  lemma {:induction false} SortDescends(s: seq<Message>)
    requires DistinctIds(s)
    ensures Descending(Sort(s))
    decreases |s|
  {
    if s != [] {
      SortDescends(s[1..]);
      InsertDescends(s[0], Sort(s[1..]));
    }
  }

  // A descending order of the same messages is the only one.
  lemma {:induction false} DescendingIsUnique(s: seq<Message>, t: seq<Message>)
    requires Descending(s) && Descending(t) && |s| == |t| && forall x :: x in s <==> x in t
    ensures s == t
    decreases |s|
  {
    if s != [] {
      assert s[0] in t && t[0] in s;
      assert s[0] == t[0];
      var s', t' := s[1..], t[1..];
      assert s == [s[0]] + s' && t == [t[0]] + t';
      assert forall i :: 0 <= i < |s'| ==> Newer(s[0], s'[i]);
      assert forall i :: 0 <= i < |t'| ==> Newer(t[0], t'[i]);
      forall x | x in s' ensures x in t' {
        assert x in s && x != s[0];
      }
      forall x | x in t' ensures x in s' {
        assert x in t && x != t[0];
      }
      DescendingIsUnique(s', t');
    }
  }

  // ---- the query ----

  predicate Matches(m: Message, pair: PairId, below: Option<Message>) {
    m.pair == pair && (below.Some? ==> Newer(below.value, m))
  }

  function Select(t: Table, pair: PairId, below: Option<Message>): (r: seq<Message>)
    ensures forall x :: x in r <==> x in t && Matches(x, pair, below)
  {
    if t == [] then []
    else
      assert t == t[..|t| - 1] + [t[|t| - 1]];
      Select(t[..|t| - 1], pair, below) + if Matches(t[|t| - 1], pair, below) then [t[|t| - 1]] else []
  }

  lemma {:induction false} SelectIsDistinct(t: Table, pair: PairId, below: Option<Message>)
    requires DistinctIds(t)
    ensures DistinctIds(Select(t, pair, below))
    decreases |t|
  {
    if t != [] {
      var front := t[..|t| - 1];
      SelectIsDistinct(front, pair, below);
      forall i | 0 <= i < |Select(front, pair, below)| ensures Select(front, pair, below)[i].id != t[|t| - 1].id {
        assert Select(front, pair, below)[i] in front;
      }
    }
  }

  function FindById(t: Table, id: MessageId): (r: Option<Message>)
    ensures r.Some? ==> r.value in t && r.value.id == id
    ensures r.None? ==> forall m :: m in t ==> m.id != id
  {
    if t == [] then None
    else
      assert t == [t[0]] + t[1..];
      if t[0].id == id then Some(t[0]) else FindById(t[1..], id)
  }

  function Take(s: seq<Message>, n: nat): seq<Message> {
    if n <= |s| then s[..n] else s
  }

  // A cursor that names no row compares as unknown, and selects nothing.
  function DirectThread(t: Table, pair: PairId, limit: nat, before: Option<MessageId>): seq<Message> {
    if before.None? then Take(Sort(Select(t, pair, None)), limit)
    else
      var row := FindById(t, before.value);
      if row.None? then [] else Take(Sort(Select(t, pair, row)), limit)
  }

  // ---- the use case ----

  const THREAD_PAGE_DEFAULT: nat := 50
  const THREAD_PAGE_MAX: nat := 100

  function Clamped(limit: Option<int>): (n: nat)
    ensures 1 <= n <= 100
  {
    Min(Max(limit.GetOr(THREAD_PAGE_DEFAULT), 1), THREAD_PAGE_MAX)
  }

  /** A limit within bounds is kept, a missing one is fifty, and others go to the nearer bound. */
  lemma ClampedAnswers(limit: Option<int>)
    ensures Clamped(limit) ==
      if limit.None? then 50 else if limit.value < 1 then 1 else if limit.value > 100 then 100 else limit.value
  {
  }

  datatype Page = Page(messages: seq<Message>, next: Option<MessageId>)

  // One row more is read than returned, to know whether there is another page.
  function PageOf(rows: seq<Message>, limit: nat): Page
    requires limit >= 1
  {
    var messages := Take(rows, limit);
    Page(messages, if |rows| > limit then Some(messages[|messages| - 1].id) else None)
  }

  function ReadPage(t: Table, pair: PairId, limit: Option<int>, before: Option<MessageId>): Page {
    PageOf(DirectThread(t, pair, Clamped(limit) + 1, before), Clamped(limit))
  }

  // What a reader collects who follows the cursors, finding these tables; and whether the last page was reached.
  function Follow(tables: seq<Table>, pair: PairId, limit: Option<int>, before: Option<MessageId>): (seq<Message>, bool)
    decreases |tables|
  {
    if tables == [] then ([], false)
    else
      var page := ReadPage(tables[0], pair, limit, before);
      if page.next.None? then (page.messages, true)
      else
        var (rest, done) := Follow(tables[1..], pair, limit, page.next);
        (page.messages + rest, done)
  }

  // Messages are only ever appended.
  ghost predicate Growing(tables: seq<Table>) {
    && (forall i :: 0 <= i < |tables| ==> DistinctIds(tables[i]))
    && (forall i, j :: 0 <= i < j < |tables| ==> tables[i] <= tables[j])
  }

  lemma FoundAgain(t: Table, t': Table, m: Message)
    requires m in t && t <= t' && DistinctIds(t')
    ensures FindById(t', m.id) == Some(m)
  {
  }

  function Cursor(below: Option<Message>): Option<MessageId> {
    if below.Some? then Some(below.value.id) else None
  }

  // A page holds the newest messages that match, and has a cursor if and only if others remain.
  ghost predicate IsNewest(t: Table, pair: PairId, below: Option<Message>, page: Page) {
    && Descending(page.messages)
    && (forall m :: m in page.messages ==> m in t && Matches(m, pair, below))
    && (page.next.None? ==> forall m :: m in t && Matches(m, pair, below) ==> m in page.messages)
    && (page.next.Some? ==> page.messages != [] && EndsAt(t, pair, below, page.messages, page.next.value))
  }

  ghost predicate EndsAt(t: Table, pair: PairId, below: Option<Message>, messages: seq<Message>, id: MessageId)
    requires messages != []
  {
    var last := messages[|messages| - 1];
    last.id == id && forall m :: m in t && Matches(m, pair, below) ==> m in messages || Newer(last, m)
  }

  lemma PageIsNewest(t: Table, pair: PairId, limit: Option<int>, below: Option<Message>)
    requires DistinctIds(t) && (below.Some? ==> below.value in t)
    ensures IsNewest(t, pair, below, ReadPage(t, pair, limit, Cursor(below)))
    ensures var page := ReadPage(t, pair, limit, Cursor(below)); page.next.Some? ==> |page.messages| == Clamped(limit)
  {
    if below.Some? { FoundAgain(t, t, below.value); }
    SelectIsDistinct(t, pair, below);
    SortDescends(Select(t, pair, below));
    FrontIsNewest(Sort(Select(t, pair, below)), t, pair, Clamped(limit), below);
  }

  lemma FrontIsNewest(all: seq<Message>, t: Table, pair: PairId, n: nat, below: Option<Message>)
    requires n >= 1 && Descending(all) && forall m :: m in all <==> m in t && Matches(m, pair, below)
    ensures var page := PageOf(Take(all, n + 1), n);
      IsNewest(t, pair, below, page) && (page.next.Some? ==> |page.messages| == n)
  {
  }

  // What the messages collected from a cursor on must be.
  ghost predicate SeesAll(first: Table, last: Table, pair: PairId, below: Option<Message>, seen: seq<Message>, done: bool) {
    && Descending(seen)
    && (forall m :: m in seen ==> m in last && Matches(m, pair, below))
    && (done ==> forall m :: m in first && Matches(m, pair, below) ==> m in seen)
  }

  /**
   * Following the cursors yields messages strictly newest first, so none twice; and when the end is reached,
   * every message of the conversation that was there at the start has been seen, whatever was appended.
   */
  lemma FollowingSeesEverythingOnce(tables: seq<Table>, pair: PairId, limit: Option<int>)
    requires tables != [] && Growing(tables)
    ensures var (seen, done) := Follow(tables, pair, limit, None);
      SeesAll(tables[0], tables[|tables| - 1], pair, None, seen, done)
  {
    FollowFrom(tables, pair, limit, None);
  }

  lemma {:induction false} FollowFrom(tables: seq<Table>, pair: PairId, limit: Option<int>, below: Option<Message>)
    requires tables != [] && Growing(tables) && (below.Some? ==> below.value in tables[0])
    ensures var (seen, done) := Follow(tables, pair, limit, Cursor(below));
      SeesAll(tables[0], tables[|tables| - 1], pair, below, seen, done)
    decreases |tables|
  {
    var t, final := tables[0], tables[|tables| - 1];
    PageIsNewest(t, pair, limit, below);
    var page := ReadPage(t, pair, limit, Cursor(below));
    LaterHolds(tables);
    if page.next.Some? && |tables| > 1 {
      FollowFrom(tables[1..], pair, limit, Some(page.messages[|page.messages| - 1]));
      var (rest, done) := Follow(tables[1..], pair, limit, page.next);
      PageThenRest(t, tables[1], final, pair, below, page, rest, done);
    } else {
      assert page.messages + [] == page.messages;
      PageAlone(t, final, pair, below, page);
    }
  }

  lemma PageAlone(t: Table, last: Table, pair: PairId, below: Option<Message>, page: Page)
    requires IsNewest(t, pair, below, page) && forall m :: m in t ==> m in last
    ensures SeesAll(t, last, pair, below, page.messages, page.next.None?)
  {
  }

  lemma LaterHolds(tables: seq<Table>)
    requires tables != [] && Growing(tables)
    ensures forall m :: m in tables[0] ==> m in tables[|tables| - 1]
    ensures |tables| > 1 ==> Growing(tables[1..]) && forall m :: m in tables[0] ==> m in tables[1]
  {
  }

  lemma PageThenRest(t: Table, next: Table, last: Table, pair: PairId, below: Option<Message>, page: Page, rest: seq<Message>, done: bool)
    requires IsNewest(t, pair, below, page) && page.next.Some?
    requires SeesAll(next, last, pair, Some(page.messages[|page.messages| - 1]), rest, done)
    requires (forall m :: m in t ==> m in next) && (forall m :: m in t ==> m in last)
    ensures SeesAll(t, last, pair, below, page.messages + rest, done)
  {
    var end := page.messages[|page.messages| - 1];
    assert end in page.messages;
    PagesJoin(page.messages, rest, end);
  }

  lemma PagesJoin(page: seq<Message>, rest: seq<Message>, last: Message)
    requires Descending(page) && Descending(rest) && page != [] && page[|page| - 1] == last
    requires forall m :: m in rest ==> Newer(last, m)
    ensures Descending(page + rest)
  {
    var all := page + rest;
    forall i, j | 0 <= i < j < |all| ensures Newer(all[i], all[j]) {
      if i < |page| <= j {
        assert rest[j - |page|] in rest;
      }
    }
  }

  // ---- coming to an end ----

  function Remaining(t: Table, pair: PairId, below: Option<Message>): set<Message> {
    set m | m in t && Matches(m, pair, below)
  }

  // What these tables hold beyond the first is newer than all it held.
  ghost predicate AddsNewer(start: Table, t: Table, pair: PairId) {
    (forall m :: m in start ==> m in t)
    && forall m, x :: m in t && m !in start && m.pair == pair && x in start && x.pair == pair ==> Newer(m, x)
  }

  ghost predicate GrowsNewer(start: Table, tables: seq<Table>, pair: PairId) {
    Growing(tables) && forall k :: 0 <= k < |tables| ==> AddsNewer(start, tables[k], pair)
  }

  lemma GrowsOn(start: Table, tables: seq<Table>, pair: PairId)
    requires tables != [] && GrowsNewer(start, tables, pair)
    ensures GrowsNewer(start, tables[1..], pair) && DistinctIds(tables[0]) && AddsNewer(start, tables[0], pair)
  {
  }

  /** If newer messages at most are appended meanwhile, the end is reached with the page that covers the last message. */
  lemma FollowingEnds(tables: seq<Table>, pair: PairId, limit: Option<int>)
    requires tables != [] && GrowsNewer(tables[0], tables, pair)
    requires |Remaining(tables[0], pair, None)| <= Clamped(limit) * |tables|
    ensures Follow(tables, pair, limit, None).1
  {
    CapacityIsProduct(Clamped(limit), |tables|);
    EndsFrom(tables, tables[0], pair, limit, None);
  }

  lemma {:induction false} EndsFrom(tables: seq<Table>, start: Table, pair: PairId, limit: Option<int>, below: Option<Message>)
    requires tables != [] && GrowsNewer(start, tables, pair)
    requires if below.Some? then below.value in start && below.value.pair == pair else tables[0] == start
    requires |Remaining(start, pair, below)| <= Capacity(Clamped(limit), |tables|)
    ensures Follow(tables, pair, limit, Cursor(below)).1
    decreases |tables|
  {
    GrowsOn(start, tables, pair);
    var last := LastOfPage(tables, start, pair, limit, below);
    FollowStep(tables, pair, limit, Cursor(below));
    if last.Some? {
      EndsFrom(tables[1..], start, pair, limit, last);
    }
  }

  // The message after which the next page starts, if there is one: with it the bound is a page lower.
  lemma LastOfPage(tables: seq<Table>, start: Table, pair: PairId, limit: Option<int>, below: Option<Message>) returns (last: Option<Message>)
    requires tables != [] && DistinctIds(tables[0]) && AddsNewer(start, tables[0], pair)
    requires if below.Some? then below.value in start && below.value.pair == pair else tables[0] == start
    requires |Remaining(start, pair, below)| <= Capacity(Clamped(limit), |tables|)
    ensures ReadPage(tables[0], pair, limit, Cursor(below)).next == Cursor(last)
    ensures last.Some? ==> |tables| > 1 && last.value in start && last.value.pair == pair
    ensures last.Some? ==> |Remaining(start, pair, last)| <= Capacity(Clamped(limit), |tables| - 1)
  {
    PageTakesItsShare(start, tables[0], pair, limit, below);
    var page := ReadPage(tables[0], pair, limit, Cursor(below));
    last := None;
    if page.next.Some? {
      last := Some(page.messages[|page.messages| - 1]);
      OneShareLess(|Remaining(start, pair, below)|, |Remaining(start, pair, last)|, Clamped(limit), |tables|);
    }
  }

  lemma OneShareLess(remaining: nat, rest: nat, share: nat, pages: nat)
    requires rest == remaining - share && share < remaining <= Capacity(share, pages)
    ensures pages > 1 && rest <= Capacity(share, pages - 1)
  {
  }

  lemma FollowStep(tables: seq<Table>, pair: PairId, limit: Option<int>, before: Option<MessageId>)
    requires tables != []
    ensures var page := ReadPage(tables[0], pair, limit, before);
      Follow(tables, pair, limit, before).1 == (page.next.None? || Follow(tables[1..], pair, limit, page.next).1)
  {
  }

  // How much so many pages hold.
  function Capacity(share: nat, pages: nat): nat {
    if pages == 0 then 0 else share + Capacity(share, pages - 1)
  }

  lemma {:induction false} CapacityIsProduct(share: nat, pages: nat)
    ensures Capacity(share, pages) == share * pages
  {
    if pages > 0 {
      CapacityIsProduct(share, pages - 1);
      assert share * pages == share * (pages - 1) + share;
    }
  }

  // The page takes as many as it may, and leaves a cursor if that is not all.
  ghost predicate TakesShare(start: Table, pair: PairId, below: Option<Message>, page: Page, n: nat) {
    page.messages != [] && var last := page.messages[|page.messages| - 1];
      page.next == Some(last.id) && last in start && last.pair == pair
      && |Remaining(start, pair, Some(last))| == |Remaining(start, pair, below)| - n && n < |Remaining(start, pair, below)|
  }

  lemma PageTakesItsShare(start: Table, t: Table, pair: PairId, limit: Option<int>, below: Option<Message>)
    requires DistinctIds(t) && AddsNewer(start, t, pair)
    requires if below.Some? then below.value in start && below.value.pair == pair else t == start
    ensures var page := ReadPage(t, pair, limit, Cursor(below));
      page.next.Some? ==> TakesShare(start, pair, below, page, Clamped(limit))
  {
    var page, n := ReadPage(t, pair, limit, Cursor(below)), Clamped(limit);
    PageIsNewest(t, pair, limit, below);
    if page.next.Some? {
      NextMeansMore(t, pair, limit, below);
      SameRemaining(start, t, pair, below);
      DescendingSize(page.messages);
      SplitAt(t, pair, below, page);
      SameRemaining(start, t, pair, Some(page.messages[n - 1]));
    }
  }

  lemma NextMeansMore(t: Table, pair: PairId, limit: Option<int>, below: Option<Message>)
    requires DistinctIds(t) && (below.Some? ==> below.value in t) && ReadPage(t, pair, limit, Cursor(below)).next.Some?
    ensures Clamped(limit) < |Remaining(t, pair, below)|
  {
    if below.Some? { FoundAgain(t, t, below.value); }
    RemainingSize(t, pair, below);
  }

  lemma SameRemaining(start: Table, t: Table, pair: PairId, below: Option<Message>)
    requires AddsNewer(start, t, pair)
    requires if below.Some? then below.value in start && below.value.pair == pair else t == start
    ensures Remaining(t, pair, below) == Remaining(start, pair, below)
  {
  }

  lemma RemainingSize(t: Table, pair: PairId, below: Option<Message>)
    requires DistinctIds(t)
    ensures |Remaining(t, pair, below)| == |Sort(Select(t, pair, below))|
  {
    SelectIsDistinct(t, pair, below);
    DistinctSize(Select(t, pair, below));
    assert Elements(Select(t, pair, below)) == Remaining(t, pair, below);
  }

  lemma DescendingSize(s: seq<Message>)
    requires Descending(s)
    ensures |Elements(s)| == |s|
  {
    DistinctSize(s);
  }

  // The page, and what is older than its last message, are all that remained.
  lemma SplitAt(t: Table, pair: PairId, below: Option<Message>, page: Page)
    requires IsNewest(t, pair, below, page) && page.next.Some?
    ensures var last := page.messages[|page.messages| - 1];
      && |Remaining(t, pair, Some(last))| == |Remaining(t, pair, below)| - |Elements(page.messages)|
      && last in Remaining(t, pair, below)
  {
    var last := page.messages[|page.messages| - 1];
    var older, taken := Remaining(t, pair, Some(last)), Elements(page.messages);
    assert last in page.messages;
    forall m | m in taken ensures !Newer(last, m) {
    }
    assert Remaining(t, pair, below) == older + taken && older !! taken;
  }
}
