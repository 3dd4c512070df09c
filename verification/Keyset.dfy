/** Keyset pagination over any strict total order.

    A table is seen through the set of keys of its matching rows; a cursor is the key of the
    last row of a page; a page is the first `limit` keys strictly after the cursor. */
module Keyset {
  import opened Wrappers

  ghost predicate StrictOrder<T(!new)>(before: (T, T) -> bool) {
    && (forall a :: !before(a, a))
    && (forall a, b :: a != b ==> before(a, b) || before(b, a))
    && (forall a, b, c :: before(a, b) && before(b, c) ==> before(a, c))
  }

  ghost predicate Ascending<T>(s: seq<T>, before: (T, T) -> bool) {
    forall i, j :: 0 <= i < j < |s| ==> before(s[i], s[j])
  }

  /** `s` is the simple sorted list of `keys`, each once. */
  ghost predicate Lists<T(!new)>(s: seq<T>, keys: set<T>, before: (T, T) -> bool) {
    Ascending(s, before) && forall k :: k in s <==> k in keys
  }

  function After<T>(keys: set<T>, before: (T, T) -> bool, cursor: Option<T>): set<T> {
    set k | k in keys && (cursor.Some? ==> before(cursor.value, k))
  }

  lemma {:induction false} FirstExists<T(!new)>(keys: set<T>, before: (T, T) -> bool)
    requires StrictOrder(before) && keys != {}
    ensures exists k :: k in keys && forall x :: x in keys && x != k ==> before(k, x)
    decreases |keys|
  {
    var k :| k in keys;
    var rest := keys - {k};
    if rest != {} {
      FirstExists(rest, before);
      var f :| f in rest && forall x :: x in rest && x != f ==> before(f, x);
      var first := if before(k, f) then k else f;
      forall x | x in keys && x != first ensures before(first, x) {
        assert x == k || x == f || (x in rest && before(f, x));
      }
    } else {
      assert keys == {k};
    }
  }

  /** The sorted list the walk is compared with. */
  ghost function Sorted<T(!new)>(keys: set<T>, before: (T, T) -> bool): (s: seq<T>)
    requires StrictOrder(before)
    ensures Lists(s, keys, before)
    decreases |keys|
  {
    if keys == {} then []
    else
      FirstExists(keys, before);
      var k :| k in keys && forall x :: x in keys && x != k ==> before(k, x);
      var rest := Sorted(keys - {k}, before);
      assert forall x :: x in [k] + rest <==> x == k || x in rest;
      [k] + rest
  }

  lemma {:induction false} ListsIsUnique<T(!new)>(a: seq<T>, b: seq<T>, keys: set<T>, before: (T, T) -> bool)
    requires StrictOrder(before) && Lists(a, keys, before) && Lists(b, keys, before)
    ensures a == b
    decreases |a|
  {
    assert |a| > 0 ==> a[0] in a && a[0] in b;
    assert |b| > 0 ==> b[0] in b && b[0] in a;
    if a != [] {
      SameHead(a, b, keys, before);
      TailLists(a, keys, before);
      TailLists(b, keys, before);
      ListsIsUnique(a[1..], b[1..], keys - {a[0]}, before);
      assert a == [a[0]] + a[1..] && b == [b[0]] + b[1..];
    }
  }

  lemma SameHead<T(!new)>(a: seq<T>, b: seq<T>, keys: set<T>, before: (T, T) -> bool)
    requires StrictOrder(before) && Lists(a, keys, before) && Lists(b, keys, before) && a != [] && b != []
    ensures a[0] == b[0]
  {
    assert a[0] in keys && b[0] in keys;
    assert a[0] in b && b[0] in a;
    var i :| 0 <= i < |b| && b[i] == a[0];
    var j :| 0 <= j < |a| && a[j] == b[0];
  }

  lemma TailLists<T(!new)>(a: seq<T>, keys: set<T>, before: (T, T) -> bool)
    requires StrictOrder(before) && Lists(a, keys, before) && a != []
    ensures Lists(a[1..], keys - {a[0]}, before)
  {
    forall k ensures k in a[1..] <==> k in keys - {a[0]} {
      if k in a[1..] {
        assert k in a;
        assert before(a[0], k);
      }
      if k in keys - {a[0]} {
        assert k in a;
        var i :| 0 <= i < |a| && a[i] == k;
        assert a[1..][i - 1] == k;
      }
    }
  }

  /** What remains after the first n keys is the list of the keys after the n-th. */
  lemma RestIsAfter<T(!new)>(keys: set<T>, before: (T, T) -> bool, n: nat)
    requires StrictOrder(before) && 1 <= n <= |Sorted(keys, before)|
    ensures var s := Sorted(keys, before);
      s[n..] == Sorted(After(keys, before, Some(s[n - 1])), before)
  {
    var s := Sorted(keys, before);
    var rest := After(keys, before, Some(s[n - 1]));
    forall k ensures k in s[n..] <==> k in rest {
      if k in s[n..] {
        assert k in s && before(s[n - 1], k);
      }
      if k in rest {
        var i :| 0 <= i < |s| && s[i] == k;
        assert s[n..][i - n] == k;
      }
    }
    ListsIsUnique(s[n..], Sorted(rest, before), rest, before);
  }

  // ------------------------------------------------------------------ pages

  datatype Page<T> = Page(rows: seq<T>, next: Option<T>)

  ghost function PageOf<T(!new)>(keys: set<T>, before: (T, T) -> bool, cursor: Option<T>, limit: nat): Page<T>
    requires StrictOrder(before) && limit >= 1
  {
    var all := Sorted(After(keys, before, cursor), before);
    if |all| > limit then Page(all[..limit], Some(all[limit - 1])) else Page(all, None)
  }

  lemma PrefixHas<T>(s: seq<T>, n: nat)
    requires n <= |s|
    ensures forall j :: 0 <= j < n ==> s[j] in s[..n]
  {
    forall j | 0 <= j < n ensures s[j] in s[..n] { assert s[..n][j] == s[j]; }
  }

  /** A page is the first `limit` of the remaining keys, in order; there is a next cursor, the
      page's last key, exactly when some key remains after it. */
  lemma PageIsFirst<T(!new)>(keys: set<T>, before: (T, T) -> bool, cursor: Option<T>, limit: nat)
    requires StrictOrder(before) && limit >= 1
    ensures var page, left := PageOf(keys, before, cursor, limit), After(keys, before, cursor);
      && Ascending(page.rows, before) && |page.rows| <= limit
      && (forall k :: k in page.rows ==> k in left)
      && (forall k :: k in left && k !in page.rows ==>
            page.next.Some? && |page.rows| == limit && forall i :: 0 <= i < limit ==> before(page.rows[i], k))
      && (page.next.Some? ==>
            |page.rows| == limit && page.next.value == page.rows[limit - 1] && exists k :: k in left && k !in page.rows)
  {
    var left := After(keys, before, cursor);
    var all := Sorted(left, before);
    var page := PageOf(keys, before, cursor, limit);
    forall k | k in page.rows ensures k in left { assert k in all; }
    if page.next.Some? {
      PrefixHas(all, limit);
      var extra := all[limit];
      assert extra in all;
      forall i | 0 <= i < limit ensures page.rows[i] != extra { assert before(all[i], all[limit]); }
      assert extra in left && extra !in page.rows;
      forall k | k in left && k !in page.rows
        ensures forall i :: 0 <= i < limit ==> before(page.rows[i], k)
      {
        assert k in all;
        var j :| 0 <= j < |all| && all[j] == k;
      }
    } else {
      assert forall k :: k in left ==> k in all;
    }
  }

  /** Following next_cursor until it is null, on a table that does not change. */
  ghost function FixedWalk<T(!new)>(keys: set<T>, before: (T, T) -> bool, cursor: Option<T>, limit: nat): seq<T>
    requires StrictOrder(before) && limit >= 1
    decreases |After(keys, before, cursor)|
  {
    var page := PageOf(keys, before, cursor, limit);
    if page.next.None? then page.rows
    else
      NextIsSmaller(keys, before, cursor, limit);
      page.rows + FixedWalk(keys, before, page.next, limit)
  }

  lemma NextIsSmaller<T(!new)>(keys: set<T>, before: (T, T) -> bool, cursor: Option<T>, limit: nat)
    requires StrictOrder(before) && limit >= 1 && PageOf(keys, before, cursor, limit).next.Some?
    ensures After(keys, before, PageOf(keys, before, cursor, limit).next) < After(keys, before, cursor)
    ensures |After(keys, before, PageOf(keys, before, cursor, limit).next)| < |After(keys, before, cursor)|
  {
    var a := After(keys, before, cursor);
    var next := PageOf(keys, before, cursor, limit).next;
    assert next.value in Sorted(a, before);
    assert next.value in a;
    var b := After(keys, before, next);
    assert b <= a - {next.value};
    assert a == b + (a - b);
    assert |a| == |b| + |a - b|;
    assert next.value in a - b;
  }

  /** On a fixed table the pages concatenate to the simple sorted list. */
  lemma {:induction false} FixedWalkIsSorted<T(!new)>(keys: set<T>, before: (T, T) -> bool, cursor: Option<T>, limit: nat)
    requires StrictOrder(before) && limit >= 1
    ensures FixedWalk(keys, before, cursor, limit) == Sorted(After(keys, before, cursor), before)
    decreases |After(keys, before, cursor)|
  {
    var page := PageOf(keys, before, cursor, limit);
    if page.next.Some? {
      NextIsSmaller(keys, before, cursor, limit);
      FixedWalkIsSorted(keys, before, page.next, limit);
      PageThenRest(keys, before, cursor, limit);
    }
  }

  lemma PageThenRest<T(!new)>(keys: set<T>, before: (T, T) -> bool, cursor: Option<T>, limit: nat)
    requires StrictOrder(before) && limit >= 1 && PageOf(keys, before, cursor, limit).next.Some?
    ensures var page := PageOf(keys, before, cursor, limit);
      page.rows + Sorted(After(keys, before, page.next), before) == Sorted(After(keys, before, cursor), before)
  {
    var a := After(keys, before, cursor);
    var s := Sorted(a, before);
    var next := s[limit - 1];
    assert next in a by { assert next in s; }
    assert s[limit..] == Sorted(After(keys, before, Some(next)), before) by {
      RestIsAfter(a, before, limit);
      AfterAfter(keys, before, cursor, next);
    }
    Rejoin(s, limit);
  }

  lemma Rejoin<T>(s: seq<T>, n: nat)
    requires n <= |s|
    ensures s[..n] + s[n..] == s
  {}

  lemma AfterAfter<T(!new)>(keys: set<T>, before: (T, T) -> bool, cursor: Option<T>, mid: T)
    requires StrictOrder(before) && mid in After(keys, before, cursor)
    ensures After(After(keys, before, cursor), before, Some(mid)) == After(keys, before, Some(mid))
  {
    var a := After(After(keys, before, cursor), before, Some(mid));
    var b := After(keys, before, Some(mid));
    assert forall k :: k in b && cursor.Some? ==> before(cursor.value, k);
    assert forall k :: k in a <==> k in b;
  }

  /** A walk over a table that changes between pages: page i sees tables[i].  `rows` is what
      the pages returned, `done` whether next_cursor became null. */
  datatype Walked<T> = Walked(rows: seq<T>, done: bool)

  ghost function Walk<T(!new)>(tables: seq<set<T>>, before: (T, T) -> bool, cursor: Option<T>, limit: nat): Walked<T>
    requires StrictOrder(before) && limit >= 1
    decreases |tables|
  {
    if tables == [] then Walked([], false)
    else
      var page := PageOf(tables[0], before, cursor, limit);
      if page.next.None? then Walked(page.rows, true)
      else
        var rest := Walk(tables[1..], before, page.next, limit);
        Walked(page.rows + rest.rows, rest.done)
  }

  lemma {:induction false} WalkStaysAfter<T(!new)>(tables: seq<set<T>>, before: (T, T) -> bool, cursor: Option<T>, limit: nat)
    requires StrictOrder(before) && limit >= 1
    ensures var rows := Walk(tables, before, cursor, limit).rows;
      && Ascending(rows, before)
      && (cursor.Some? ==> forall i :: 0 <= i < |rows| ==> before(cursor.value, rows[i]))
    decreases |tables|
  {
    if tables != [] {
      var page := PageOf(tables[0], before, cursor, limit);
      var keys := After(tables[0], before, cursor);
      assert forall i :: 0 <= i < |page.rows| ==> page.rows[i] in Sorted(keys, before);
      if page.next.Some? {
        WalkStaysAfter(tables[1..], before, page.next, limit);
        var rest := Walk(tables[1..], before, page.next, limit).rows;
        var rows := page.rows + rest;
        forall i, j | 0 <= i < j < |rows| ensures before(rows[i], rows[j]) {
          if i < |page.rows| <= j {
            assert before(page.next.value, rest[j - |page.rows|]);
            assert i == limit - 1 || before(page.rows[i], page.rows[limit - 1]);
          }
        }
        forall i | 0 <= i < |rows| && cursor.Some? ensures before(cursor.value, rows[i]) {
          if i >= |page.rows| {
            assert page.next.value in keys by { assert page.next.value in Sorted(keys, before); }
            assert before(page.next.value, rows[i]);
          }
        }
      }
    }
  }

  lemma {:induction false} WalkMissesNothing<T(!new)>(tables: seq<set<T>>, before: (T, T) -> bool, cursor: Option<T>,
                                                      limit: nat, k: T)
    requires StrictOrder(before) && limit >= 1 && Walk(tables, before, cursor, limit).done
    requires cursor.Some? ==> before(cursor.value, k)
    requires forall i :: 0 <= i < |tables| ==> k in tables[i]
    ensures k in Walk(tables, before, cursor, limit).rows
    decreases |tables|
  {
    var page := PageOf(tables[0], before, cursor, limit);
    var all := Sorted(After(tables[0], before, cursor), before);
    assert k in all;
    var i :| 0 <= i < |all| && all[i] == k;
    if page.next.Some? {
      if i < limit {
        assert page.rows[i] == k;
      } else {
        WalkMissesNothing(tables[1..], before, page.next, limit, k);
      }
    }
  }

  /** However the table changes between pages, a walk never repeats a key, returns keys in
      strict order, and a finished walk returns every key that was there throughout. */
  lemma WalkUnderChange<T(!new)>(tables: seq<set<T>>, before: (T, T) -> bool, limit: nat)
    requires StrictOrder(before) && limit >= 1
    ensures var w := Walk(tables, before, None, limit);
      && Ascending(w.rows, before)
      && (forall i, j :: 0 <= i < j < |w.rows| ==> w.rows[i] != w.rows[j])
      && (w.done ==> forall k :: (forall i :: 0 <= i < |tables| ==> k in tables[i]) ==> k in w.rows)
  {
    WalkStaysAfter(tables, before, None, limit);
    var w := Walk(tables, before, None, limit);
    forall k | w.done && forall i :: 0 <= i < |tables| ==> k in tables[i] ensures k in w.rows {
      WalkMissesNothing(tables, before, None, limit, k);
    }
  }
}
