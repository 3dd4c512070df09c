/** The incident and timeline listings as the program builds them, over keyset pages. */
module Listing {
  import opened Wrappers
  import opened Text
  import opened Keyset
  import opened Cursor
  import opened TextPages

  // ------------------------------------------------------ the database's part

  lemma SortedHead<T(!new)>(keys: set<T>, before: (T, T) -> bool, k: T)
    requires StrictOrder(before) && k in keys && forall x :: x in keys && x != k ==> before(k, x)
    ensures Sorted(keys, before) == [k] + Sorted(keys - {k}, before)
  {
    var s := [k] + Sorted(keys - {k}, before);
    assert forall x :: x in s <==> x in keys;
    ListsIsUnique(s, Sorted(keys, before), keys, before);
  }

  method First<T(!new, ==)>(keys: set<T>, before: (T, T) -> bool) returns (k: T)
    requires StrictOrder(before) && keys != {}
    ensures k in keys && forall x :: x in keys && x != k ==> before(k, x)
  {
    k :| k in keys;
    var todo := keys - {k};
    while todo != {}
      invariant k in keys && k !in todo && todo <= keys
      invariant forall x :: x in keys && x !in todo && x != k ==> before(k, x)
      decreases |todo|
    {
      var x :| x in todo;
      todo := todo - {x};
      if before(x, k) { k := x; }
    }
  }

  ghost predicate Split<T>(s: seq<T>, rows: seq<T>, rest: seq<T>) {
    s == rows + rest
  }

  lemma SplitStep<T>(s: seq<T>, rows: seq<T>, k: T, rest: seq<T>)
    requires Split(s, rows, [k] + rest)
    ensures Split(s, rows + [k], rest)
  {}

  lemma SplitPrefix<T>(s: seq<T>, rows: seq<T>, rest: seq<T>)
    requires Split(s, rows, rest)
    ensures |s| == |rows| + |rest| && s[..|rows|] == rows && (rest == [] ==> s == rows)
  {}

  /** ORDER BY ... LIMIT n. */
  method OrderByLimit<T(!new, ==)>(keys: set<T>, before: (T, T) -> bool, n: nat) returns (rows: seq<T>)
    requires StrictOrder(before)
    ensures rows == if |Sorted(keys, before)| <= n then Sorted(keys, before) else Sorted(keys, before)[..n]
  {
    ghost var s := Sorted(keys, before);
    var todo := keys;
    rows := [];
    while |rows| < n && todo != {}
      invariant |rows| <= n
      invariant Split(s, rows, Sorted(todo, before))
      decreases |todo|
    {
      var k := First(todo, before);
      SortedHead(todo, before, k);
      SplitStep(s, rows, k, Sorted(todo - {k}, before));
      rows := rows + [k];
      todo := todo - {k};
    }
    SplitPrefix(s, rows, Sorted(todo, before));
  }

  /** Fetch one row too many, trim it, and point the cursor at the last row kept. */
  method FetchPage<T(!new, ==)>(query: set<T>, before: (T, T) -> bool, limit: nat, ghost keys: set<T>, ghost cursor: Option<T>)
    returns (rows: seq<T>, next: Option<T>)
    requires StrictOrder(before) && limit >= 1 && query == After(keys, before, cursor)
    ensures Page(rows, next) == PageOf(keys, before, cursor, limit)
  {
    rows := OrderByLimit(query, before, limit + 1);
    next := None;
    if |rows| > limit {
      rows := rows[..limit];
      next := Some(rows[|rows| - 1]);
    }
  }

  // -------------------------------------------------------------- incidents

  /** A row's place in the listing: its sort column and its unique id. */
  datatype RowKey = RowKey(sort: int, id: Uuid)

  /** (sort DESC, id DESC). */
  predicate NewestFirst(a: RowKey, b: RowKey) {
    b.sort < a.sort || (b.sort == a.sort && b.id < a.id)
  }

  lemma NewestFirstIsStrict()
    ensures StrictOrder(NewestFirst)
  {}

  ghost function Matching<R>(table: map<RowKey, R>, matches: R -> bool): set<RowKey> {
    set k | k in table && matches(table[k])
  }

  /** datetime.isoformat and datetime.fromisoformat, on the instants of the sort column. */
  datatype Clock = Clock(iso: int -> Str, fromIso: Str -> Option<int>)

  ghost predicate ClockOk(clock: Clock) {
    forall t :: IsAscii(clock.iso(t)) && clock.fromIso(clock.iso(t)) == Some(t)
  }

  function PrintKey(clock: Clock, k: RowKey): Str {
    EncodeCursor(Cursor.Pair(clock.iso(k.sort), UuidText(ToDigits(k.id, 32))))
  }

  function ReadKey(clock: Clock, cursor: Str): Result<RowKey, CursorError> {
    match DecodeUuidCursor(cursor)
    case Err(e) => Err(e)
    case Ok(pair) =>
      var t := clock.fromIso(pair.sortValue);
      if t.None? then Err(InvalidCursor) else Ok(RowKey(t.value, FromDigits(pair.rowId)))
  }

  function IncidentCodec(clock: Clock): Codec<RowKey> {
    Codec(k => PrintKey(clock, k), cursor => ReadKey(clock, cursor))
  }

  lemma IncidentCursorsCarry(clock: Clock)
    requires ClockOk(clock)
    ensures Carries(IncidentCodec(clock))
  {
    forall k: RowKey ensures ReadKey(clock, PrintKey(clock, k)) == Ok(k) {
      DigitsRoundTrip(k.id, 32);
      IncidentCursorCarriesKey(clock.iso(k.sort), ToDigits(k.id, 32));
    }
  }

  // What a page of incidents must hold, spelled out over the table.

  /** A row the filter accepts that comes after the pivot in (sort DESC, id DESC). */
  ghost predicate Wanted<R>(table: map<RowKey, R>, matches: R -> bool, pivot: Option<RowKey>, k: RowKey) {
    && k in table && matches(table[k])
    && (pivot.Some? ==>
          k.sort < pivot.value.sort || (k.sort == pivot.value.sort && k.id < pivot.value.id))
  }

  ghost predicate Descending(rows: seq<RowKey>) {
    forall i, j :: 0 <= i < j < |rows| ==>
      rows[j].sort < rows[i].sort || (rows[j].sort == rows[i].sort && rows[j].id < rows[i].id)
  }

  /** The first `limit` wanted rows in order; `more` says whether others are left. */
  ghost predicate IsPage<R>(table: map<RowKey, R>, matches: R -> bool, pivot: Option<RowKey>, limit: nat,
                            rows: seq<RowKey>, more: bool)
  {
    && Descending(rows) && |rows| <= limit
    && (forall k :: k in rows ==> Wanted(table, matches, pivot, k))
    && (forall k :: Wanted(table, matches, pivot, k) && k !in rows ==> |rows| == limit && Descending(rows + [k]))
    && (more <==> exists k :: Wanted(table, matches, pivot, k) && k !in rows)
  }

  lemma PageOfIsPage<R>(table: map<RowKey, R>, matches: R -> bool, pivot: Option<RowKey>, limit: nat)
    requires limit >= 1 && StrictOrder(NewestFirst)
    ensures var page := PageOf(Matching(table, matches), NewestFirst, pivot, limit);
      && IsPage(table, matches, pivot, limit, page.rows, page.next.Some?)
      && (page.next.Some? ==> page.rows != [] && page.next.value == page.rows[|page.rows| - 1])
  {
    var page := PageOf(Matching(table, matches), NewestFirst, pivot, limit);
    PageIsFirst(Matching(table, matches), NewestFirst, pivot, limit);
    AfterIsWanted(table, matches, pivot);
    assert Descending(page.rows);
    forall k | Wanted(table, matches, pivot, k) && k !in page.rows
      ensures |page.rows| == limit && Descending(page.rows + [k])
    {
      DescendingSnoc(page.rows, k);
    }
  }

  lemma DescendingSnoc(rows: seq<RowKey>, k: RowKey)
    requires Descending(rows) && forall i :: 0 <= i < |rows| ==> NewestFirst(rows[i], k)
    ensures Descending(rows + [k])
  {}

  lemma AfterIsWanted<R>(table: map<RowKey, R>, matches: R -> bool, pivot: Option<RowKey>)
    ensures forall k :: k in After(Matching(table, matches), NewestFirst, pivot) <==> Wanted(table, matches, pivot, k)
  {}

  /** The instant and id a cursor text stands for, if it is valid. */
  ghost predicate StandsFor(clock: Clock, cursor: Str, k: RowKey) {
    && DecodeUuidCursor(cursor).Ok?
    && clock.fromIso(DecodeUuidCursor(cursor).value.sortValue) == Some(k.sort)
    && FromDigits(DecodeUuidCursor(cursor).value.rowId) == k.id
  }

  /** The cursor's part of the listing: its instant and id, or the 400. */
  method ReadCursor(cursor: Option<Str>, clock: Clock) returns (pivot: Result<Option<RowKey>, CursorError>)
    ensures pivot == Pivot(IncidentCodec(clock), cursor)
    ensures pivot.Err? <==> cursor.Some? && !exists k :: StandsFor(clock, cursor.value, k)
    ensures pivot.Ok? ==> (pivot.value.Some? <==> cursor.Some?)
    ensures pivot.Ok? && cursor.Some? ==> StandsFor(clock, cursor.value, pivot.value.value)
  {
    if cursor.None? { return Ok(None); }
    var pair := DecodeUuidCursor(cursor.value);
    if pair.Err? { return Err(pair.error); }
    var t := clock.fromIso(pair.value.sortValue);
    if t.None? { return Err(InvalidCursor); }
    pivot := Ok(Some(RowKey(t.value, FromDigits(pair.value.rowId))));
    assert StandsFor(clock, cursor.value, pivot.value.value);
  }

  /** The listing builds its query clause by clause. */
  method ListIncidents<R>(table: map<RowKey, R>, matches: R -> bool, limit: nat, cursor: Option<Str>, clock: Clock)
    returns (result: Result<TextPage<RowKey>, CursorError>)
    requires limit >= 1
    ensures StrictOrder(NewestFirst)
    ensures result == TextPageOf(Matching(table, matches), NewestFirst, IncidentCodec(clock), cursor, limit)
    ensures result.Err? <==> cursor.Some? && !exists k :: StandsFor(clock, cursor.value, k)
    ensures result.Ok? && cursor.None? ==> IsPage(table, matches, None, limit, result.value.rows, result.value.next.Some?)
    ensures result.Ok? && cursor.Some? ==> forall k :: StandsFor(clock, cursor.value, k) ==>
      IsPage(table, matches, Some(k), limit, result.value.rows, result.value.next.Some?)
    ensures result.Ok? && result.value.next.Some? ==> (
      && result.value.rows != []
      && var last := result.value.rows[|result.value.rows| - 1];
         result.value.next.value == EncodeCursor(Cursor.Pair(clock.iso(last.sort), UuidText(ToDigits(last.id, 32)))))
  {
    NewestFirstIsStrict();
    var pivot := ReadCursor(cursor, clock);
    if pivot.Err? { return Err(pivot.error); }
    var rows, next := QueryIncidents(table, matches, limit, pivot.value);
    PageOfIsPage(table, matches, pivot.value, limit);
    result := Ok(TextPage(rows, if next.Some? then Some(PrintKey(clock, next.value)) else None));
  }

  method QueryIncidents<R>(table: map<RowKey, R>, matches: R -> bool, limit: nat, pivot: Option<RowKey>)
    returns (rows: seq<RowKey>, next: Option<RowKey>)
    requires limit >= 1 && StrictOrder(NewestFirst)
    ensures Page(rows, next) == PageOf(Matching(table, matches), NewestFirst, pivot, limit)
  {
    var query := set k | k in table && matches(table[k]);
    if pivot.Some? {
      var t, id := pivot.value.sort, pivot.value.id;
      query := set k | k in query && (k.sort < t || (k.sort == t && k.id < id));
    }
    assert query == After(Matching(table, matches), NewestFirst, pivot);
    rows, next := FetchPage(query, NewestFirst, limit, Matching(table, matches), pivot);
  }

  /** Sending back next_cursor until it is null, over a fixed table, meets no invalid cursor
      and gives the filtered list sorted by (sort DESC, id DESC), whatever the page size and
      however many sort values collide; |rows| + 1 requests are always enough. */
  lemma IncidentWalkIsTheList<R>(table: map<RowKey, R>, matches: R -> bool, limit: nat, clock: Clock, n: nat)
    requires limit >= 1 && ClockOk(clock) && n > |Matching(table, matches)|
    ensures StrictOrder(NewestFirst)
    ensures var keys := Matching(table, matches);
      && TextWalk(Repeat(keys, n), NewestFirst, IncidentCodec(clock), None, limit)
         == Ok(Walked(Sorted(keys, NewestFirst), true))
      && Descending(Sorted(keys, NewestFirst))
      && forall k :: k in Sorted(keys, NewestFirst) <==> k in table && matches(table[k])
  {
    NewestFirstIsStrict();
    IncidentCursorsCarry(clock);
    FixedTextWalk(Matching(table, matches), NewestFirst, IncidentCodec(clock), limit, n);
  }

  ghost function Views<R>(tables: seq<map<RowKey, R>>, matches: R -> bool): (views: seq<set<RowKey>>)
    ensures |views| == |tables|
  {
    seq(|tables|, i requires 0 <= i < |tables| => Matching(tables[i], matches))
  }

  /** With inserts, deletes and edits between pages: no cursor is refused, ids never repeat,
      the order is strict, every returned row was there and matched at some page, and a
      finished walk returns every row that was there and matched throughout. */
  lemma IncidentWalkUnderChange<R>(tables: seq<map<RowKey, R>>, matches: R -> bool, limit: nat, clock: Clock)
    requires limit >= 1 && ClockOk(clock)
    requires forall i, j, a, b ::
      0 <= i < |tables| && 0 <= j < |tables| && a in tables[i] && b in tables[j] && a.id == b.id ==> a == b
    ensures StrictOrder(NewestFirst)
    ensures TextWalk(Views(tables, matches), NewestFirst, IncidentCodec(clock), None, limit).Ok?
    ensures var w := TextWalk(Views(tables, matches), NewestFirst, IncidentCodec(clock), None, limit).value;
      && Descending(w.rows)
      && (forall i, j :: 0 <= i < j < |w.rows| ==> w.rows[i].id != w.rows[j].id)
      && (forall k :: k in w.rows ==> exists i :: 0 <= i < |tables| && k in tables[i] && matches(tables[i][k]))
      && (w.done ==> forall k ::
            (forall i :: 0 <= i < |tables| ==> k in tables[i] && matches(tables[i][k])) ==> k in w.rows)
  {
    NewestFirstIsStrict();
    IncidentCursorsCarry(clock);
    var views := Views(tables, matches);
    TextWalkIsWalk(views, NewestFirst, IncidentCodec(clock), None, limit);
    WalkUnderChange(views, NewestFirst, limit);
    WalkReturnsRows(views, NewestFirst, None, limit);
    var w := Walk(views, NewestFirst, None, limit);
    forall i, j | 0 <= i < j < |w.rows| ensures w.rows[i].id != w.rows[j].id {
      assert Somewhere(w.rows[i], views) && Somewhere(w.rows[j], views);
      var m :| 0 <= m < |views| && w.rows[i] in views[m];
      var n :| 0 <= n < |views| && w.rows[j] in views[n];
      assert w.rows[i] in tables[m] && w.rows[j] in tables[n];
      assert w.rows[i] != w.rows[j];
    }
    forall k | k in w.rows ensures exists i :: 0 <= i < |tables| && k in tables[i] && matches(tables[i][k]) {
      assert Somewhere(k, views);
      var i :| 0 <= i < |views| && k in views[i];
      assert k in tables[i] && matches(tables[i][k]);
    }
    forall k | w.done && forall i :: 0 <= i < |tables| ==> k in tables[i] && matches(tables[i][k])
      ensures k in w.rows
    {
      assert forall i :: 0 <= i < |views| ==> k in views[i];
    }
  }

  ghost predicate Somewhere<T(!new)>(k: T, tables: seq<set<T>>) {
    exists m :: 0 <= m < |tables| && k in tables[m]
  }

  lemma SomewhereLater<T(!new)>(k: T, tables: seq<set<T>>)
    requires tables != [] && Somewhere(k, tables[1..])
    ensures Somewhere(k, tables)
  {
    var m :| 0 <= m < |tables[1..]| && k in tables[1..][m];
    assert k in tables[m + 1];
  }

  lemma {:induction false} WalkReturnsRows<T(!new)>(tables: seq<set<T>>, before: (T, T) -> bool, cursor: Option<T>, limit: nat)
    requires StrictOrder(before) && limit >= 1
    ensures forall k :: k in Walk(tables, before, cursor, limit).rows ==> Somewhere(k, tables)
    decreases |tables|
  {
    if tables != [] {
      var page := PageOf(tables[0], before, cursor, limit);
      PageReturnsRows(tables[0], before, cursor, limit);
      WalkReturnsRows(tables[1..], before, page.next, limit);
      forall k | k in Walk(tables, before, cursor, limit).rows ensures Somewhere(k, tables) {
        if k in page.rows {
          assert k in tables[0];
        } else {
          SomewhereLater(k, tables);
        }
      }
    }
  }

  lemma PageReturnsRows<T(!new)>(table: set<T>, before: (T, T) -> bool, cursor: Option<T>, limit: nat)
    requires StrictOrder(before) && limit >= 1
    ensures forall k :: k in PageOf(table, before, cursor, limit).rows ==> k in table
  {
    var all := Sorted(After(table, before, cursor), before);
    forall k | k in PageOf(table, before, cursor, limit).rows ensures k in table {
      assert k in all;
      assert k in After(table, before, cursor);
    }
  }

  // --------------------------------------------------------------- timeline

  /** Events are listed by their ascending sequence number. */
  predicate OldestFirst(a: int, b: int) { a < b }

  lemma OldestFirstIsStrict()
    ensures StrictOrder(OldestFirst)
  {}

  /** The id in a timeline cursor is printed but never read. */
  function PrintSeq(id: Uuid, q: int): Str {
    EncodeCursor(Cursor.Pair(PrintInt(q), UuidText(ToDigits(id, 32))))
  }

  function ReadSeq(cursor: Str): Result<int, CursorError> {
    match DecodeCursor(cursor)
    case Err(e) => Err(e)
    case Ok(pair) =>
      var q := ParseInt(pair.sortValue);
      if q.None? then Err(InvalidCursor) else Ok(q.value)
  }

  function EventCodec(ids: int -> Uuid): Codec<int> {
    Codec(q => PrintSeq(ids(q), q), cursor => ReadSeq(cursor))
  }

  lemma EventCursorsCarry(ids: int -> Uuid)
    ensures Carries(EventCodec(ids))
  {
    forall q: int ensures ReadSeq(PrintSeq(ids(q), q)) == Ok(q) {
      EventCursorCarriesSeq(q, ToDigits(ids(q), 32));
    }
  }

  /** The first `limit` events past the pivot, by ascending seq; `more` says whether others
      are left. */
  ghost predicate IsEventPage<E>(events: map<int, E>, pivot: Option<int>, limit: nat, rows: seq<int>, more: bool) {
    && (forall i, j :: 0 <= i < j < |rows| ==> rows[i] < rows[j]) && |rows| <= limit
    && (forall q :: q in rows ==> q in events && (pivot.Some? ==> pivot.value < q))
    && (forall q :: q in events && (pivot.Some? ==> pivot.value < q) && q !in rows ==>
          more && |rows| == limit && forall i :: 0 <= i < |rows| ==> rows[i] < q)
    && (more ==> exists q :: q in events && (pivot.Some? ==> pivot.value < q) && q !in rows)
  }

  lemma PageOfIsEventPage<E>(events: map<int, E>, pivot: Option<int>, limit: nat)
    requires limit >= 1 && StrictOrder(OldestFirst)
    ensures var page := PageOf(events.Keys, OldestFirst, pivot, limit);
      && IsEventPage(events, pivot, limit, page.rows, page.next.Some?)
      && (page.next.Some? ==> page.rows != [] && page.next.value == page.rows[|page.rows| - 1])
  {
    PageIsFirst(events.Keys, OldestFirst, pivot, limit);
    assert forall q ::
        q in After(events.Keys, OldestFirst, pivot) <==> (q in events && (pivot.Some? ==> pivot.value < q));
  }

  /** The cursor's part of the timeline listing. */
  method ReadEventCursor(cursor: Option<Str>, ghost ids: int -> Uuid) returns (pivot: Result<Option<int>, CursorError>)
    ensures pivot == Pivot(EventCodec(ids), cursor)
    ensures pivot.Err? <==> (
      cursor.Some?
      && (DecodeCursor(cursor.value).Err? || ParseInt(DecodeCursor(cursor.value).value.sortValue).None?))
    ensures pivot.Ok? ==>
      pivot.value == if cursor.None? then None else ParseInt(DecodeCursor(cursor.value).value.sortValue)
  {
    if cursor.None? { return Ok(None); }
    var pair := DecodeCursor(cursor.value);
    if pair.Err? { return Err(pair.error); }
    var q := ParseInt(pair.value.sortValue);
    if q.None? { return Err(InvalidCursor); }
    pivot := Ok(q);
  }

  method ListEvents<E>(events: map<int, E>, ids: int -> Uuid, limit: nat, cursor: Option<Str>)
    returns (result: Result<TextPage<int>, CursorError>)
    requires limit >= 1
    ensures StrictOrder(OldestFirst)
    ensures result == TextPageOf(events.Keys, OldestFirst, EventCodec(ids), cursor, limit)
    ensures result.Err? <==> (
      cursor.Some?
      && (DecodeCursor(cursor.value).Err? || ParseInt(DecodeCursor(cursor.value).value.sortValue).None?))
    ensures result.Ok? ==> IsEventPage(
      events, if cursor.None? then None else ParseInt(DecodeCursor(cursor.value).value.sortValue),
      limit, result.value.rows, result.value.next.Some?)
    ensures result.Ok? && result.value.next.Some? ==> (
      && result.value.rows != []
      && var last := result.value.rows[|result.value.rows| - 1];
         result.value.next.value == EncodeCursor(Cursor.Pair(PrintInt(last), UuidText(ToDigits(ids(last), 32)))))
  {
    OldestFirstIsStrict();
    var pivot := ReadEventCursor(cursor, ids);
    if pivot.Err? { return Err(pivot.error); }
    var rows, next := QueryEvents(events, limit, pivot.value);
    PageOfIsEventPage(events, pivot.value, limit);
    result := Ok(TextPage(rows, if next.Some? then Some(PrintSeq(ids(next.value), next.value)) else None));
  }

  method QueryEvents<E>(events: map<int, E>, limit: nat, pivot: Option<int>) returns (rows: seq<int>, next: Option<int>)
    requires limit >= 1 && StrictOrder(OldestFirst)
    ensures Page(rows, next) == PageOf(events.Keys, OldestFirst, pivot, limit)
  {
    var query := events.Keys;
    if pivot.Some? {
      query := set q | q in query && q > pivot.value;
    }
    assert query == After(events.Keys, OldestFirst, pivot);
    rows, next := FetchPage(query, OldestFirst, limit, events.Keys, pivot);
  }

  /** Over a fixed timeline the pages concatenate to all events in ascending order. */
  lemma EventWalkIsTheTimeline<E>(events: map<int, E>, ids: int -> Uuid, limit: nat, n: nat)
    requires limit >= 1 && n > |events.Keys|
    ensures StrictOrder(OldestFirst)
    ensures TextWalk(Repeat(events.Keys, n), OldestFirst, EventCodec(ids), None, limit)
         == Ok(Walked(Sorted(events.Keys, OldestFirst), true))
    ensures var rows := Sorted(events.Keys, OldestFirst);
      && (forall i, j :: 0 <= i < j < |rows| ==> rows[i] < rows[j]) && forall q :: q in rows <==> q in events
  {
    OldestFirstIsStrict();
    EventCursorsCarry(ids);
    FixedTextWalk(events.Keys, OldestFirst, EventCodec(ids), limit, n);
  }

  /** While events are appended between pages, a timeline walk repeats none, stays in order
      and, once finished, has returned every event that was there from the start. */
  lemma EventWalkUnderAppend<E>(timelines: seq<map<int, E>>, ids: int -> Uuid, limit: nat)
    requires limit >= 1
    requires forall i, j :: 0 <= i < j < |timelines| ==> timelines[i].Keys <= timelines[j].Keys
    ensures StrictOrder(OldestFirst)
    ensures TextWalk(Logs(timelines), OldestFirst, EventCodec(ids), None, limit).Ok?
    ensures var w := TextWalk(Logs(timelines), OldestFirst, EventCodec(ids), None, limit).value;
      && (forall i, j :: 0 <= i < j < |w.rows| ==> w.rows[i] < w.rows[j])
      && (forall q :: q in w.rows ==> exists i :: 0 <= i < |timelines| && q in timelines[i])
      && (w.done ==> forall q :: q in timelines[0] ==> q in w.rows)
  {
    OldestFirstIsStrict();
    EventCursorsCarry(ids);
    TextWalkIsWalk(Logs(timelines), OldestFirst, EventCodec(ids), None, limit);
    WalkUnderChange(Logs(timelines), OldestFirst, limit);
    WalkReturnsRows(Logs(timelines), OldestFirst, None, limit);
    forall q | q in Walk(Logs(timelines), OldestFirst, None, limit).rows
      ensures exists i :: 0 <= i < |timelines| && q in timelines[i]
    {
      assert Somewhere(q, Logs(timelines));
      var i :| 0 <= i < |Logs(timelines)| && q in Logs(timelines)[i];
      assert q in timelines[i];
    }
  }

  ghost function Logs<E>(timelines: seq<map<int, E>>): (logs: seq<set<int>>)
    ensures |logs| == |timelines|
  {
    seq(|timelines|, i requires 0 <= i < |timelines| => timelines[i].Keys)
  }
}
