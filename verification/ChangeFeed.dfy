/** The change feed of internal/adapters/memory/ledger.go: cursor pages over the events in
    (time, id) order, read while events keep arriving. */
module ChangeFeed {
  import opened Sorting

  datatype ChangeEvent = ChangeEvent(eventID: string, resourceID: string, action: string, occurredAt: int)

  /** A cursor is empty or the key of the last event returned. */
  datatype Cursor = Start | After(time: int, id: string)

  predicate EventLe(a: ChangeEvent, b: ChangeEvent) {
    if a.occurredAt != b.occurredAt then a.occurredAt < b.occurredAt else StrLe(a.eventID, b.eventID)
  }

  /** The event is strictly after the cursor. */
  predicate Past(c: Cursor, e: ChangeEvent) {
    c.After? ==> !(e.occurredAt < c.time || (e.occurredAt == c.time && StrLe(e.eventID, c.id)))
  }

  function CursorOf(e: ChangeEvent): Cursor {
    After(e.occurredAt, e.eventID)
  }

  function Unread(c: Cursor): ChangeEvent -> bool {
    e => Past(c, e)
  }

  /** The feed in reading order. */
  function Feed(events: seq<ChangeEvent>): seq<ChangeEvent> {
    Sort(EventLe, events)
  }

  function PageSize(limit: int): (n: nat)
    ensures n > 0
  {
    if limit <= 0 then 50 else limit
  }

  function Page(events: seq<ChangeEvent>, c: Cursor, limit: int): seq<ChangeEvent> {
    PageOf(Feed(events), c, limit)
  }

  /** The next events of a sorted feed. */
  function PageOf(feed: seq<ChangeEvent>, c: Cursor, limit: int): seq<ChangeEvent> {
    Cut(Filter(feed, Unread(c)), PageSize(limit))
  }

  function NextCursor(page: seq<ChangeEvent>, c: Cursor): Cursor {
    if page == [] then c else CursorOf(page[|page| - 1])
  }

  /** No two events share time and id. */
  ghost predicate DistinctKeys(events: seq<ChangeEvent>) {
    forall i, j | 0 <= i < |events| && 0 <= j < |events| && i != j :: CursorOf(events[i]) != CursorOf(events[j])
  }

  method ListChanges(events: seq<ChangeEvent>, cursor: Cursor, limit: int) returns (page: seq<ChangeEvent>, next: Cursor)
    ensures page == Page(events, cursor, limit)
    ensures next == NextCursor(page, cursor)
  {
    var all := Sort(EventLe, events);
    page, next := [], cursor;
    var i := 0;
    while i < |all| && |page| < PageSize(limit)
      invariant 0 <= i <= |all| && |page| <= PageSize(limit)
      invariant page == Filter(all[..i], Unread(cursor))
      invariant next == NextCursor(page, cursor)
    {
      FilterStep(all, i, Unread(cursor));
      if Past(cursor, all[i]) {
        page := page + [all[i]];
        next := CursorOf(all[i]);
      }
      i := i + 1;
    }
    FilterPrefix(all, i, Unread(cursor));
    assert i == |all| ==> all[..i] == all;
  }

  /* ---------- order facts ---------- */

  lemma EventLeIsTotalOrder()
    ensures TotalOrder(EventLe)
    ensures forall a, b :: EventLe(a, b) && EventLe(b, a) ==> CursorOf(a) == CursorOf(b)
  {
    StrLeIsTotalOrder();
    forall a, b ensures StrLe(a, b) && StrLe(b, a) ==> a == b {
      StrLeTotal(a, b);
    }
  }

  /** Being past an event's cursor is being strictly above it. */
  lemma PastIsAbove(a: ChangeEvent, b: ChangeEvent)
    ensures Past(CursorOf(a), b) <==> EventLe(a, b) && CursorOf(a) != CursorOf(b)
  {
    StrLeTotal(a.eventID, b.eventID);
  }

  lemma PastIsTransitive(c: Cursor, a: ChangeEvent, b: ChangeEvent)
    requires Past(c, a) && EventLe(a, b)
    ensures Past(c, b)
  {
    if c.After? && a.occurredAt == b.occurredAt == c.time && StrLe(b.eventID, c.id) {
      StrLeTransitive(a.eventID, b.eventID, c.id);
    }
  }

  lemma FeedIsSorted(events: seq<ChangeEvent>)
    requires DistinctKeys(events)
    ensures SortedBy(EventLe, Feed(events)) && DistinctKeys(Feed(events)) && Distinct(Feed(events))
    ensures forall e :: e in Feed(events) <==> e in events
  {
    EventLeIsTotalOrder();
    SortSorts(EventLe, events);
    assert Distinct(events) by {
      forall i, j | 0 <= i < j < |events| ensures events[i] != events[j] {
        assert CursorOf(events[i]) != CursorOf(events[j]);
      }
    }
    SortKeeps(EventLe, events);
    var f := Feed(events);
    forall i, j | 0 <= i < |f| && 0 <= j < |f| && i != j ensures CursorOf(f[i]) != CursorOf(f[j]) {
      assert f[i] in events && f[j] in events && (if i < j then f[i] != f[j] else f[j] != f[i]);
      var p :| 0 <= p < |events| && events[p] == f[i];
      var q :| 0 <= q < |events| && events[q] == f[j];
      assert p != q;
    }
  }

  /* ---------- reading while events arrive ---------- */

  datatype Reader = Reader(events: seq<ChangeEvent>, cursor: Cursor, seen: seq<ChangeEvent>)

  datatype Action = Append(event: ChangeEvent) | Read(limit: int)

  function Next(r: Reader, a: Action): Reader {
    match a
    case Append(event) => r.(events := r.events + [event])
    case Read(limit) =>
      var page := Page(r.events, r.cursor, limit);
      r.(cursor := NextCursor(page, r.cursor), seen := r.seen + page)
  }

  function Run(r: Reader, actions: seq<Action>): Reader
    decreases |actions|
  {
    if actions == [] then r else Run(Next(r, actions[0]), actions[1..])
  }

  /** Every event arrives above the cursor of the moment, under a new key. */
  ghost predicate ArrivesAhead(r: Reader, actions: seq<Action>)
    decreases |actions|
  {
    actions != [] ==>
      && (actions[0].Append? ==> Past(r.cursor, actions[0].event) && DistinctKeys(r.events + [actions[0].event]))
      && ArrivesAhead(Next(r, actions[0]), actions[1..])
  }

  /** What was read, followed by what is still unread, is the whole feed in order. */
  ghost predicate InStep(r: Reader) {
    DistinctKeys(r.events) && r.seen + Filter(Feed(r.events), Unread(r.cursor)) == Feed(r.events)
  }

  lemma SliceSnoc<T>(s: seq<T>, k: nat)
    requires k < |s|
    ensures s[..|s| - 1][k..] + [s[|s| - 1]] == s[k..]
  {
  }

  /** Unread events are a suffix of the sorted feed. */
  lemma {:induction false} UnreadIsSuffix(s: seq<ChangeEvent>, c: Cursor) returns (k: nat)
    requires SortedBy(EventLe, s)
    ensures k <= |s| && Filter(s, Unread(c)) == s[k..]
    ensures forall i :: 0 <= i < |s| ==> (Past(c, s[i]) <==> k <= i)
    decreases |s|
  {
    if s == [] {
      k := 0;
    } else {
      var n := |s| - 1;
      k := UnreadIsSuffix(s[..n], c);
      assert forall i :: 0 <= i < n ==> s[..n][i] == s[i];
      if k < n {
        PastIsTransitive(c, s[k], s[n]);
      }
      if Past(c, s[n]) {
        SliceSnoc(s, k);
      } else {
        k := n + 1;
      }
    }
  }

  /** In a sorted list the events past one of its members are the ones behind it. */
  lemma PastMemberIsSuffix(s: seq<ChangeEvent>, i: nat)
    requires SortedBy(EventLe, s) && DistinctKeys(s) && i < |s|
    ensures Filter(s, Unread(CursorOf(s[i]))) == s[i + 1..]
  {
    var k := UnreadIsSuffix(s, CursorOf(s[i]));
    PastIsAbove(s[i], s[i]);
    if i + 1 < |s| {
      assert CursorOf(s[i]) != CursorOf(s[i + 1]);
      PastIsAbove(s[i], s[i + 1]);
    }
  }

  /** A page is the next stretch of the feed, and the cursor that it leaves behind cuts the feed
      where the page ended. */
  lemma NextStretch(f: seq<ChangeEvent>, c: Cursor, seen: seq<ChangeEvent>, limit: int) returns (k: nat, m: nat)
    requires SortedBy(EventLe, f) && DistinctKeys(f) && seen + Filter(f, Unread(c)) == f
    ensures k <= m <= |f| && seen == f[..k] && Filter(f, Unread(c)) == f[k..] && (k == m ==> k == |f|)
    ensures PageOf(f, c, limit) == f[k..m]
    ensures Filter(f, Unread(NextCursor(PageOf(f, c, limit), c))) == f[m..]
  {
    k := UnreadIsSuffix(f, c);
    m := StretchEnd(f, seen, k, PageSize(limit));
    CursorOfStretch(f, c, k, m);
    if k < m {
      PastMemberIsSuffix(f, m - 1);
    }
  }

  lemma CursorOfStretch(f: seq<ChangeEvent>, c: Cursor, k: nat, m: nat)
    requires k <= m <= |f|
    ensures NextCursor(f[k..m], c) == if k < m then CursorOf(f[m - 1]) else c
  {
  }

  lemma StretchEnd(f: seq<ChangeEvent>, seen: seq<ChangeEvent>, k: nat, size: nat) returns (m: nat)
    requires k <= |f| && seen + f[k..] == f && size > 0
    ensures k <= m <= |f| && Cut(f[k..], size) == f[k..m] && seen == f[..k] && (k == m ==> k == |f|)
  {
    m := if |f| - k > size then k + size else |f|;
    assert |seen| == k;
    assert seen == (seen + f[k..])[..k];
  }

  lemma ReadingOn(f: seq<ChangeEvent>, c: Cursor, seen: seq<ChangeEvent>, limit: int)
    requires SortedBy(EventLe, f) && DistinctKeys(f) && seen + Filter(f, Unread(c)) == f
    ensures var page := PageOf(f, c, limit);
            && seen + page + Filter(f, Unread(NextCursor(page, c))) == f
            && |Filter(f, Unread(NextCursor(page, c)))| == |Filter(f, Unread(c))| - |page|
            && (page == [] <==> seen == f)
  {
    var k, m := NextStretch(f, c, seen, limit);
    assert f[..k] + f[k..m] + f[m..] == f;
  }

  lemma ReadStaysInStep(r: Reader, limit: int)
    requires InStep(r)
    ensures InStep(Next(r, Read(limit)))
  {
    FeedIsSorted(r.events);
    ReadingOn(Feed(r.events), r.cursor, r.seen, limit);
  }

  /** A new event above the cursor joins the unread part and leaves the read part alone. */
  lemma AppendStaysInStep(r: Reader, e: ChangeEvent)
    requires InStep(r) && Past(r.cursor, e) && DistinctKeys(r.events + [e])
    ensures InStep(Next(r, Append(e)))
  {
    FeedIsSorted(r.events);
    FeedIsSorted(r.events + [e]);
    ArrivalJoinsUnread(Feed(r.events), Feed(r.events + [e]), r.cursor, r.seen, e);
  }

  lemma ArrivalJoinsUnread(f: seq<ChangeEvent>, f': seq<ChangeEvent>, c: Cursor, seen: seq<ChangeEvent>, e: ChangeEvent)
    requires SortedBy(EventLe, f) && DistinctKeys(f) && Distinct(f) && SortedBy(EventLe, f') && Distinct(f')
    requires Past(c, e) && forall x :: x in f' <==> x in f || x == e
    requires seen + Filter(f, Unread(c)) == f
    ensures seen + Filter(f', Unread(c)) == f'
  {
    var k := UnreadIsSuffix(f, c);
    var k' := UnreadIsSuffix(f', c);
    SameReadPart(f, k, f', k', c, e);
    PrefixOf(seen, f, k);
    PartsOf(f', k');
  }

  lemma PartsOf<T>(s: seq<T>, k: nat)
    requires k <= |s|
    ensures s[..k] + s[k..] == s
  {
  }

  lemma PrefixOf<T>(a: seq<T>, s: seq<T>, k: nat)
    requires k <= |s| && a + s[k..] == s
    ensures a == s[..k]
  {
    assert |a| == k;
    assert a == (a + s[k..])[..|a|];
  }

  lemma SameReadPart(f: seq<ChangeEvent>, k: nat, f': seq<ChangeEvent>, k': nat, c: Cursor, e: ChangeEvent)
    requires SortedBy(EventLe, f) && DistinctKeys(f) && Distinct(f) && SortedBy(EventLe, f') && Distinct(f')
    requires k <= |f| && forall i :: 0 <= i < |f| ==> (Past(c, f[i]) <==> k <= i)
    requires k' <= |f'| && forall i :: 0 <= i < |f'| ==> (Past(c, f'[i]) <==> k' <= i)
    requires Past(c, e) && forall x :: x in f' <==> x in f || x == e
    ensures f[..k] == f'[..k']
  {
    forall x ensures x in f[..k] <==> x in f'[..k'] {
      PrefixMembers(f, k, c, x);
      PrefixMembers(f', k', c, x);
    }
    EventLeIsTotalOrder();
    forall x, y | x in f[..k] && y in f[..k] && EventLe(x, y) && EventLe(y, x) ensures x == y {
      KeysIdentify(f, x, y);
    }
    SortedListsAgree(EventLe, f[..k], f'[..k']);
  }

  lemma PrefixMembers(f: seq<ChangeEvent>, k: nat, c: Cursor, x: ChangeEvent)
    requires k <= |f| && forall i :: 0 <= i < |f| ==> (Past(c, f[i]) <==> k <= i)
    ensures x in f[..k] <==> x in f && !Past(c, x)
  {
    if x in f && !Past(c, x) {
      var i :| 0 <= i < |f| && f[i] == x;
      assert f[..k][i] == x;
    }
  }

  lemma KeysIdentify(f: seq<ChangeEvent>, x: ChangeEvent, y: ChangeEvent)
    requires DistinctKeys(f) && x in f && y in f && CursorOf(x) == CursorOf(y)
    ensures x == y
  {
    var i :| 0 <= i < |f| && f[i] == x;
    var j :| 0 <= j < |f| && f[j] == y;
    assert i == j;
  }

  /** Paging refines the sorted feed: whatever the page sizes and whatever arrives in between,
      what a reader has seen is always the feed up to its cursor, nothing skipped or repeated. */
  lemma {:induction false} ReaderStaysInStep(r: Reader, actions: seq<Action>)
    requires InStep(r) && ArrivesAhead(r, actions)
    ensures InStep(Run(r, actions))
    decreases |actions|
  {
    if actions != [] {
      match actions[0] {
        case Append(event) => AppendStaysInStep(r, event);
        case Read(limit) => ReadStaysInStep(r, limit);
      }
      ReaderStaysInStep(Next(r, actions[0]), actions[1..]);
    }
  }

  /** An empty page means caught up; a page is empty exactly when nothing is unread, and every
      other page makes progress, so a reader of a quiet feed finishes. */
  lemma CaughtUp(r: Reader, limit: int)
    requires InStep(r)
    ensures Page(r.events, r.cursor, limit) == [] <==> r.seen == Feed(r.events)
    ensures Page(r.events, r.cursor, limit) != [] ==>
              |Filter(Feed(r.events), Unread(Next(r, Read(limit)).cursor))| < |Filter(Feed(r.events), Unread(r.cursor))|
  {
    FeedIsSorted(r.events);
    ReadingOn(Feed(r.events), r.cursor, r.seen, limit);
  }

  /** The arrival condition is exact for a single event: one that arrives at or below the cursor is
      returned by no later page, one above it is still unread. */
  lemma {:induction false} LateEventIsNeverRead(r: Reader, e: ChangeEvent, actions: seq<Action>)
    requires e in r.events && e !in r.seen && !Past(r.cursor, e)
    ensures e !in Run(r, actions).seen
    decreases |actions|
  {
    if actions != [] {
      var r' := Next(r, actions[0]);
      if actions[0].Read? {
        var page := Page(r.events, r.cursor, actions[0].limit);
        FilterMembers(Feed(r.events), Unread(r.cursor));
        var unread := Filter(Feed(r.events), Unread(r.cursor));
        assert forall i :: 0 <= i < |page| ==> page[i] == unread[i] && unread[i] in unread;
        if page != [] {
          var last := page[|page| - 1];
          assert Past(r.cursor, last);
          CursorOnlyAdvances(r.cursor, last, e);
        }
      }
      LateEventIsNeverRead(r', e, actions[1..]);
    }
  }

  lemma CursorOnlyAdvances(c: Cursor, last: ChangeEvent, e: ChangeEvent)
    requires Past(c, last) && !Past(c, e)
    ensures !Past(CursorOf(last), e)
  {
    PastIsAbove(last, e);
    if EventLe(last, e) {
      PastIsTransitive(c, last, e);
    }
  }

  /** From the empty cursor with a quiet feed, the pages of any positive size concatenate to the
      sorted feed. */
  function ReadAll(feed: seq<ChangeEvent>, c: Cursor, limit: int, fuel: nat): seq<ChangeEvent>
    decreases fuel
  {
    var page := PageOf(feed, c, limit);
    if fuel == 0 || page == [] then [] else page + ReadAll(feed, NextCursor(page, c), limit, fuel - 1)
  }

  lemma {:induction false} ReadAllFinishes(f: seq<ChangeEvent>, c: Cursor, seen: seq<ChangeEvent>, limit: int, fuel: nat)
    requires SortedBy(EventLe, f) && DistinctKeys(f) && seen + Filter(f, Unread(c)) == f
    requires fuel >= |Filter(f, Unread(c))|
    ensures seen + ReadAll(f, c, limit, fuel) == f
    decreases fuel
  {
    var page := PageOf(f, c, limit);
    ReadingOn(f, c, seen, limit);
    if page != [] {
      var next := NextCursor(page, c);
      ReadAllFinishes(f, next, seen + page, limit, fuel - 1);
      Regroup(seen, page, ReadAll(f, next, limit, fuel - 1));
    } else {
      assert seen + [] == seen;
    }
  }

  lemma Regroup<T>(a: seq<T>, b: seq<T>, c: seq<T>)
    ensures (a + b) + c == a + (b + c)
  {
  }

  lemma StartsInStep(events: seq<ChangeEvent>)
    requires DistinctKeys(events)
    ensures InStep(Reader(events, Start, []))
    ensures |Feed(events)| == |events|
  {
    SortPermutes(EventLe, events);
    SamePermutation(events, Feed(events));
    AllPass(Feed(events));
  }

  lemma PagesConcatenateToFeed(events: seq<ChangeEvent>, limit: int)
    requires DistinctKeys(events)
    ensures ReadAll(Feed(events), Start, limit, |events|) == Feed(events)
  {
    StartsInStep(events);
    AllPass(Feed(events));
    FeedIsSorted(events);
    assert [] + Feed(events) == Feed(events);
    ReadAllFinishes(Feed(events), Start, [], limit, |events|);
    assert [] + ReadAll(Feed(events), Start, limit, |events|) == ReadAll(Feed(events), Start, limit, |events|);
  }

  lemma {:induction false} AllPass(s: seq<ChangeEvent>)
    ensures Filter(s, Unread(Start)) == s
  {
    if s != [] {
      AllPass(s[..|s| - 1]);
    }
  }
}
