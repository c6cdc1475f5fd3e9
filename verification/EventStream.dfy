/**
 The city event log and its live stream: keyset pages after a cursor event, ordered by creation time
 and id, polled again and again while other writers append events.
 */
module EventStream {
  import opened Prelude
  import opened Sorting

  datatype Key = Key(createdAt: int, id: int)

  datatype Event = Event(key: Key, family: Option<int>, job: Option<int>, kind: string)

  datatype Filter = Filter(family: Option<int>, job: Option<int>, kinds: set<string>)

  /** An empty list of event types admits every type. */
  predicate Matches(e: Event, f: Filter) {
    && (f.family.Some? ==> e.family == f.family)
    && (f.job.Some? ==> e.job == f.job)
    && (f.kinds != {} ==> e.kind in f.kinds)
  }

  predicate Less(a: Key, b: Key) {
    a.createdAt < b.createdAt || (a.createdAt == b.createdAt && a.id < b.id)
  }

  function Before(): (Event, Event) -> bool { (a: Event, b: Event) => Less(a.key, b.key) }

  /** Ids are unique: one row per id. */
  predicate UniqueIds(rows: seq<Event>) {
    forall i, j :: 0 <= i < j < |rows| ==> rows[i].key.id != rows[j].key.id
  }

  // ---- list_since ----

  /** Where a page starts: after a key, or after a creation time, or at the beginning. */
  datatype Bound = Open | AfterKey(key: Key) | AfterTime(time: int)

  predicate Beyond(e: Event, b: Bound) {
    match b
    case Open => true
    case AfterKey(k) => Less(k, e.key)
    case AfterTime(t) => e.key.createdAt > t
  }

  function Find(rows: seq<Event>, id: int): Option<Event> {
    if rows == [] then None else if rows[0].key.id == id then Some(rows[0]) else Find(rows[1..], id)
  }

  /** A cursor wins over `since`; a cursor that names no event bounds nothing. */
  function BoundFor(rows: seq<Event>, after: Option<int>, since: Option<int>): Bound {
    if after.Some? then
      var anchor := Find(rows, after.value);
      if anchor.Some? then AfterKey(anchor.value.key) else Open
    else if since.Some? then AfterTime(since.value)
    else Open
  }

  function Select(rows: seq<Event>, f: Filter, b: Bound): seq<Event> {
    if rows == [] then []
    else (if Matches(rows[0], f) && Beyond(rows[0], b) then [rows[0]] else []) + Select(rows[1..], f, b)
  }

  /** All matching events beyond the bound, in order. */
  function Ordered(rows: seq<Event>, f: Filter, b: Bound): seq<Event> { Sort(Select(rows, f, b), Before()) }

  function Page(rows: seq<Event>, f: Filter, b: Bound, limit: nat): seq<Event> {
    var all := Ordered(rows, f, b);
    if |all| <= limit then all else all[..limit]
  }

  lemma OrderOfKeys()
    ensures StrictOrder(Before())
  {
  }

  lemma {:induction false} SelectMembers(rows: seq<Event>, f: Filter, b: Bound)
    ensures forall e :: e in Select(rows, f, b) <==> e in rows && Matches(e, f) && Beyond(e, b)
  {
    if rows != [] {
      SelectMembers(rows[1..], f, b);
      assert rows == [rows[0]] + rows[1..];
    }
  }

  lemma {:induction false} SelectUnique(rows: seq<Event>, f: Filter, b: Bound)
    requires UniqueIds(rows)
    ensures UniqueIds(Select(rows, f, b))
  {
    if rows != [] {
      SelectUnique(rows[1..], f, b);
      SelectMembers(rows[1..], f, b);
      var tail := Select(rows[1..], f, b);
      forall j | 0 <= j < |tail|
        ensures tail[j].key.id != rows[0].key.id
      {
        assert tail[j] in tail;
        var k :| 0 <= k < |rows[1..]| && rows[1..][k] == tail[j];
        assert rows[k + 1] == tail[j];
      }
    }
  }

  /** What a page holds: sorted, and exactly the matching events beyond the bound. */
  lemma OrderedOk(rows: seq<Event>, f: Filter, b: Bound)
    requires UniqueIds(rows)
    ensures Sorted(Ordered(rows, f, b), Before())
    ensures forall e :: e in Ordered(rows, f, b) <==> e in rows && Matches(e, f) && Beyond(e, b)
  {
    var s := Select(rows, f, b);
    OrderOfKeys();
    SelectUnique(rows, f, b);
    SelectMembers(rows, f, b);
    forall i, j | 0 <= i < j < |s|
      ensures Less(s[i].key, s[j].key) || Less(s[j].key, s[i].key)
    {
    }
    SortSorted(s, Before());
    SortMembers(s, Before());
  }

  /** A page is the first `limit` of the ordered events, or all of them. */
  lemma PageIsPrefix(rows: seq<Event>, f: Filter, b: Bound, limit: nat)
    ensures Page(rows, f, b, limit) <= Ordered(rows, f, b)
    ensures |Page(rows, f, b, limit)| <= limit
    ensures |Page(rows, f, b, limit)| < limit ==> Page(rows, f, b, limit) == Ordered(rows, f, b)
  {
  }

  /** What the filters and the cursor admit, in the fields of the event: the family and the job asked
      for, one of the event types if any are given, and a place after the cursor's event by creation
      time and then id, or after a time. */
  lemma AdmittedIff(rows: seq<Event>, f: Filter, after: Option<int>, since: Option<int>, e: Event)
    requires UniqueIds(rows)
    ensures e in Ordered(rows, f, BoundFor(rows, after, since)) <==>
      && e in rows
      && (f.family.Some? ==> e.family.Some? && e.family.value == f.family.value)
      && (f.job.Some? ==> e.job.Some? && e.job.value == f.job.value)
      && (f.kinds == {} || e.kind in f.kinds)
      && (after.Some? ==> forall a :: a in rows && a.key.id == after.value ==>
            a.key.createdAt < e.key.createdAt || (a.key.createdAt == e.key.createdAt && a.key.id < e.key.id))
      && (after.None? && since.Some? ==> since.value < e.key.createdAt)
  {
    OrderedOk(rows, f, BoundFor(rows, after, since));
    if after.Some? {
      if a :| a in rows && a.key.id == after.value {
        FindUnique(rows, a);
        forall b | b in rows && b.key.id == after.value
          ensures b == a
        {
          FindUnique(rows, b);
        }
      } else {
        FindNone(rows, after.value);
      }
    }
  }

  lemma {:induction false} FindNone(rows: seq<Event>, id: int)
    requires forall a :: a in rows ==> a.key.id != id
    ensures Find(rows, id).None?
  {
    if rows != [] {
      assert rows[0] in rows;
      FindNone(rows[1..], id);
    }
  }

  // ---- The stream ----

  /** The table, what was sent so far, and the cursor. */
  datatype Stream = Stream(rows: seq<Event>, sent: seq<Event>, cursor: Option<int>)

  datatype Op = Append(e: Event) | Poll(limit: nat)

  predicate Can(s: Stream, op: Op) {
    op.Append? ==> forall i :: 0 <= i < |s.rows| ==> s.rows[i].key.id != op.e.key.id
  }

  /** One round of the generator: send the page and move the cursor to its last event. */
  function Do(s: Stream, f: Filter, op: Op): Stream {
    match op
    case Append(e) => s.(rows := s.rows + [e])
    case Poll(limit) =>
      var page := Page(s.rows, f, BoundFor(s.rows, s.cursor, None), limit);
      Stream(s.rows, s.sent + page, if page == [] then s.cursor else Some(page[|page| - 1].key.id))
  }

  predicate Feasible(s: Stream, f: Filter, ops: seq<Op>)
    decreases |ops|
  {
    ops == [] || (Can(s, ops[0]) && Feasible(Do(s, f, ops[0]), f, ops[1..]))
  }

  function Exec(s: Stream, f: Filter, ops: seq<Op>): Stream
    requires Feasible(s, f, ops)
    decreases |ops|
  {
    if ops == [] then s else Exec(Do(s, f, ops[0]), f, ops[1..])
  }

  function CursorBound(s: Stream): Bound { BoundFor(s.rows, s.cursor, None) }

  /** The cursor names an event of the table. */
  predicate CursorOk(s: Stream) { s.cursor.None? || Find(s.rows, s.cursor.value).Some? }

  lemma {:induction false} FindAppend(rows: seq<Event>, e: Event, id: int)
    ensures Find(rows + [e], id) == if Find(rows, id).Some? then Find(rows, id) else Find([e], id)
  {
    if rows == [] {
      assert rows + [e] == [e];
    } else {
      assert (rows + [e])[1..] == rows[1..] + [e];
      FindAppend(rows[1..], e, id);
    }
  }

  lemma {:induction false} FindUnique(rows: seq<Event>, e: Event)
    requires UniqueIds(rows) && e in rows
    ensures Find(rows, e.key.id) == Some(e)
  {
    if rows[0] != e {
      var k :| 0 <= k < |rows| && rows[k] == e;
      assert rows[1..][k - 1] == e;
      FindUnique(rows[1..], e);
    }
  }

  /** What was sent is exactly what matches between the start of the stream and its cursor. */
  ghost predicate SentOk(s: Stream, f: Filter, start: Bound) {
    && UniqueIds(s.rows)
    && Sorted(s.sent, Before())
    && (forall e :: e in s.sent <==>
          e in s.rows && Matches(e, f) && Beyond(e, start) && !Beyond(e, CursorBound(s)))
    && (forall e :: Beyond(e, CursorBound(s)) ==> Beyond(e, start))
    && !CursorBound(s).AfterTime?
  }

  /** Nothing relevant is appended behind the cursor, and no new event takes the id of a cursor that
      names none. */
  predicate AppendsAhead(s: Stream, f: Filter, op: Op) {
    op.Append? ==> s.cursor != Some(op.e.key.id) && (Matches(op.e, f) ==> Beyond(op.e, CursorBound(s)))
  }

  predicate AheadRun(s: Stream, f: Filter, ops: seq<Op>)
    decreases |ops|
  {
    ops == [] || (Can(s, ops[0]) && AppendsAhead(s, f, ops[0]) && AheadRun(Do(s, f, ops[0]), f, ops[1..]))
  }

  lemma AppendKeepsCursor(s: Stream, f: Filter, e: Event)
    requires Can(s, Append(e)) && (CursorOk(s) || s.cursor != Some(e.key.id))
    ensures CursorOk(s) ==> CursorOk(Do(s, f, Append(e)))
    ensures CursorBound(Do(s, f, Append(e))) == CursorBound(s)
  {
    if s.cursor.Some? {
      FindAppend(s.rows, e, s.cursor.value);
    }
  }

  lemma AppendSent(s: Stream, f: Filter, start: Bound, e: Event)
    requires SentOk(s, f, start) && Can(s, Append(e)) && AppendsAhead(s, f, Append(e))
    ensures SentOk(Do(s, f, Append(e)), f, start)
  {
    AppendKeepsCursor(s, f, e);
    assert e !in s.rows;
  }

  /** A page is the stretch from the old bound to its own last event. */
  lemma PageCut(rows: seq<Event>, f: Filter, b: Bound, limit: nat)
    requires UniqueIds(rows) && Page(rows, f, b, limit) != []
    ensures var page := Page(rows, f, b, limit);
      var last := page[|page| - 1];
      && last in rows && Beyond(last, b) && Sorted(page, Before())
      && forall e :: e in page <==> e in rows && Matches(e, f) && Beyond(e, b) && !Less(last.key, e.key)
  {
    var all := Ordered(rows, f, b);
    var page := Page(rows, f, b, limit);
    var last := page[|page| - 1];
    OrderedOk(rows, f, b);
    assert last == all[|page| - 1] && last in all;
    forall e | e in all
      ensures e in page <==> !Less(last.key, e.key)
    {
      var i :| 0 <= i < |all| && all[i] == e;
      assert Before()(all[i], last) || i >= |page| - 1;
      assert Before()(last, all[i]) || i < |page|;
      assert i < |page| ==> page[i] == e;
    }
    forall e | e in page
      ensures e in all
    {
      var i :| 0 <= i < |page| && page[i] == e;
      assert all[i] == e;
    }
  }

  lemma SentThenPage(s: Stream, f: Filter, start: Bound, page: seq<Event>)
    requires SentOk(s, f, start) && Sorted(page, Before())
    requires forall e :: e in page ==> Beyond(e, CursorBound(s))
    ensures Sorted(s.sent + page, Before())
  {
    var b := CursorBound(s);
    forall x, y | x in s.sent && y in page
      ensures Less(x.key, y.key)
    {
    }
    var all := s.sent + page;
    forall i, j | 0 <= i < j < |all|
      ensures Before()(all[i], all[j])
    {
      if i < |s.sent| <= j {
        assert all[i] in s.sent && all[j] in page;
      } else if j < |s.sent| {
        assert Before()(s.sent[i], s.sent[j]);
      } else {
        assert Before()(page[i - |s.sent|], page[j - |s.sent|]);
      }
    }
  }

  lemma PollSent(s: Stream, f: Filter, start: Bound, limit: nat)
    requires SentOk(s, f, start)
    ensures SentOk(Do(s, f, Poll(limit)), f, start)
  {
    var b := CursorBound(s);
    var page := Page(s.rows, f, b, limit);
    var s' := Do(s, f, Poll(limit));
    if page == [] {
      assert s'.sent == s.sent;
    } else {
      var last := page[|page| - 1];
      PageCut(s.rows, f, b, limit);
      FindUnique(s.rows, last);
      assert CursorBound(s') == AfterKey(last.key);
      SentThenPage(s, f, start, page);
      forall e
        ensures Beyond(e, AfterKey(last.key)) ==> Beyond(e, b)
      {
      }
    }
  }

  /** Whatever is appended ahead of the cursor, in any interleaving with polls of any size: what was
      sent is what matches between the start and the cursor. */
  lemma {:induction false} RunSent(s: Stream, f: Filter, start: Bound, ops: seq<Op>)
    requires SentOk(s, f, start) && AheadRun(s, f, ops)
    ensures Feasible(s, f, ops) && SentOk(Exec(s, f, ops), f, start)
    decreases |ops|
  {
    if ops != [] {
      match ops[0] {
        case Append(e) => AppendSent(s, f, start, e);
        case Poll(limit) => PollSent(s, f, start, limit);
      }
      RunSent(Do(s, f, ops[0]), f, start, ops[1..]);
    }
  }

  /** Keyset polling is exactly-once: the concatenated pages have no duplicate and are at every
      moment a prefix of the sorted log of matching events since the start. */
  lemma SentIsPrefix(s: Stream, f: Filter, start: Bound)
    requires SentOk(s, f, start)
    ensures s.sent <= Ordered(s.rows, f, start)
    ensures forall i, j :: 0 <= i < j < |s.sent| ==> s.sent[i] != s.sent[j]
  {
    OrderOfKeys();
    OrderedOk(s.rows, f, start);
    SortedPrefix(s.sent, Ordered(s.rows, f, start), Before());
    forall i, j | 0 <= i < j < |s.sent|
      ensures s.sent[i] != s.sent[j]
    {
      assert Before()(s.sent[i], s.sent[j]);
    }
  }

  /** Once a page comes back short, everything was sent. */
  lemma ShortPageCompletes(s: Stream, f: Filter, start: Bound, limit: nat)
    requires SentOk(s, f, start) && |Page(s.rows, f, CursorBound(s), limit)| < limit
    ensures Do(s, f, Poll(limit)).sent == Ordered(s.rows, f, start)
  {
    var page := Page(s.rows, f, CursorBound(s), limit);
    var s' := Do(s, f, Poll(limit));
    PollSent(s, f, start, limit);
    OrderOfKeys();
    OrderedOk(s.rows, f, start);
    OrderedOk(s.rows, f, CursorBound(s));
    assert page == Ordered(s.rows, f, CursorBound(s));
    SortedUnique(s'.sent, Ordered(s.rows, f, start), Before());
  }

  /** A fresh stream has sent nothing yet; it starts after the event that its cursor names, or at the
      beginning if there is no cursor or the cursor names no event. */
  lemma FreshStream(rows: seq<Event>, f: Filter, after: Option<int>)
    requires UniqueIds(rows)
    ensures SentOk(Stream(rows, [], after), f, BoundFor(rows, after, None))
    ensures BoundFor(rows, after, None).Open? <==> after.None? || Find(rows, after.value).None?
  {
  }

  /** The condition is exact: an event that is behind the cursor and was not sent is never sent,
      however often the stream polls. */
  lemma {:induction false} BehindIsLost(s: Stream, f: Filter, ops: seq<Op>, e: Event)
    requires UniqueIds(s.rows) && CursorOk(s) && !CursorBound(s).Open? && !CursorBound(s).AfterTime?
    requires e in s.rows && e !in s.sent && !Beyond(e, CursorBound(s))
    requires Feasible(s, f, ops)
    ensures e !in Exec(s, f, ops).sent
    decreases |ops|
  {
    if ops != [] {
      var s' := Do(s, f, ops[0]);
      match ops[0] {
        case Append(x) => AppendKeepsCursor(s, f, x);
        case Poll(limit) =>
          var page := Page(s.rows, f, CursorBound(s), limit);
          if page != [] {
            PageCut(s.rows, f, CursorBound(s), limit);
            FindUnique(s.rows, page[|page| - 1]);
          }
      }
      BehindIsLost(s', f, ops[1..], e);
    }
  }

  // ---- The query and the generator ----

  /** `list_since`: select the rows that pass the filters, ordered by key, up to the limit. */
  method ListSince(rows: seq<Event>, f: Filter, after: Option<int>, since: Option<int>, limit: nat)
    returns (page: seq<Event>)
    ensures page == Page(rows, f, BoundFor(rows, after, since), limit)
  {
    var b := BoundFor(rows, after, since);
    var all: seq<Event> := [];
    var i := |rows|;
    assert rows[i..] == [];
    while i > 0
      invariant 0 <= i <= |rows|
      invariant all == Sort(Select(rows[i..], f, b), Before())
    {
      i := i - 1;
      assert rows[i..][0] == rows[i] && rows[i..][1..] == rows[i + 1..];
      ghost var tail := Select(rows[i + 1..], f, b);
      if Matches(rows[i], f) && Beyond(rows[i], b) {
        assert Select(rows[i..], f, b) == [rows[i]] + tail;
        assert ([rows[i]] + tail)[1..] == tail;
        all := Insert(rows[i], all, Before());
      } else {
        assert Select(rows[i..], f, b) == [] + tail == tail;
      }
    }
    assert rows[0..] == rows;
    page := if |all| <= limit then all else all[..limit];
  }

  class EventGenerator {
    var cursor: Option<int>
    var sent: seq<Event>

    constructor (after: Option<int>)
      ensures cursor == after && sent == []
    {
      cursor, sent := after, [];
    }

    /** One cycle of the generator: fetch a page, send its rows, advancing the cursor with each. */
    method PollOnce(rows: seq<Event>, f: Filter, limit: nat)
      modifies this
      ensures Stream(rows, sent, cursor) == Do(Stream(rows, old(sent), old(cursor)), f, Poll(limit))
    {
      var page := ListSince(rows, f, cursor, None, limit);
      var k := 0;
      while k < |page|
        invariant 0 <= k <= |page|
        invariant sent == old(sent) + page[..k]
        invariant cursor == if k == 0 then old(cursor) else Some(page[k - 1].key.id)
      {
        sent := sent + [page[k]];
        cursor := Some(page[k].key.id);
        assert page[..k + 1] == page[..k] + [page[k]];
        k := k + 1;
      }
      assert page[..k] == page;
    }
  }
}
