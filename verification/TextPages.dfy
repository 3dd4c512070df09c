/** Pages as the client sees them: the cursor between two pages is a text. */
module TextPages {
  import opened Wrappers
  import opened Text
  import opened Keyset
  import opened Cursor

  /** How a listing prints its rows' keys into cursors and reads them back. */
  datatype Codec<!T> = Codec(encode: T -> Str, decode: Str -> Result<T, CursorError>)

  datatype TextPage<+T> = TextPage(rows: seq<T>, next: Option<Str>)

  /** Every cursor the listing hands out reads back as the key it was made from. */
  ghost predicate Carries<T(!new)>(codec: Codec<T>) {
    forall k :: codec.decode(codec.encode(k)) == Ok(k)
  }

  function Pivot<T>(codec: Codec<T>, cursor: Option<Str>): Result<Option<T>, CursorError> {
    if cursor.None? then Ok(None)
    else
      match codec.decode(cursor.value)
      case Err(e) => Err(e)
      case Ok(k) => Ok(Some(k))
  }

  function Printed<T>(codec: Codec<T>, next: Option<T>): Option<Str> {
    if next.None? then None else Some(codec.encode(next.value))
  }

  lemma PivotOfPrinted<T(!new)>(codec: Codec<T>, next: Option<T>)
    requires Carries(codec)
    ensures Pivot(codec, Printed(codec, next)) == Ok(next)
  {}

  ghost function TextPageOf<T(!new)>(keys: set<T>, before: (T, T) -> bool, codec: Codec<T>, cursor: Option<Str>, limit: nat)
    : Result<TextPage<T>, CursorError>
    requires StrictOrder(before) && limit >= 1
  {
    match Pivot(codec, cursor)
    case Err(e) => Err(e)
    case Ok(pivot) =>
      var page := PageOf(keys, before, pivot, limit);
      Ok(TextPage(page.rows, Printed(codec, page.next)))
  }

  /** Sending each page's next_cursor back until it is null; page i sees tables[i]. */
  ghost function TextWalk<T(!new)>(tables: seq<set<T>>, before: (T, T) -> bool, codec: Codec<T>, cursor: Option<Str>,
                                   limit: nat): Result<Walked<T>, CursorError>
    requires StrictOrder(before) && limit >= 1
    decreases |tables|
  {
    if tables == [] then Ok(Walked([], false))
    else
      match TextPageOf(tables[0], before, codec, cursor, limit)
      case Err(e) => Err(e)
      case Ok(page) =>
        if page.next.None? then Ok(Walked(page.rows, true))
        else
          match TextWalk(tables[1..], before, codec, page.next, limit)
          case Err(e) => Err(e)
          case Ok(rest) => Ok(Walked(page.rows + rest.rows, rest.done))
  }

  /** Walking by texts never meets an invalid cursor and is the walk by keys. */
  lemma {:induction false} TextWalkIsWalk<T(!new)>(tables: seq<set<T>>, before: (T, T) -> bool, codec: Codec<T>,
                                                   pivot: Option<T>, limit: nat)
    requires StrictOrder(before) && limit >= 1 && Carries(codec)
    ensures TextWalk(tables, before, codec, Printed(codec, pivot), limit) == Ok(Walk(tables, before, pivot, limit))
    decreases |tables|
  {
    PivotOfPrinted(codec, pivot);
    if tables != [] {
      var page := PageOf(tables[0], before, pivot, limit);
      if page.next.Some? { TextWalkIsWalk(tables[1..], before, codec, page.next, limit); }
    }
  }

  function Repeat<T>(table: set<T>, n: nat): seq<set<T>> {
    seq(n, _ => table)
  }

  /** On a table that does not change, a walk with enough requests finishes, and its rows
      are the simple sorted list. */
  lemma {:induction false} WalkFinishes<T(!new)>(table: set<T>, before: (T, T) -> bool, cursor: Option<T>, limit: nat, n: nat)
    requires StrictOrder(before) && limit >= 1 && n > |After(table, before, cursor)|
    ensures Walk(Repeat(table, n), before, cursor, limit) == Walked(FixedWalk(table, before, cursor, limit), true)
    decreases n
  {
    var page := PageOf(table, before, cursor, limit);
    RepeatOnce(table, n);
    if page.next.Some? {
      NextIsSmaller(table, before, cursor, limit);
      WalkFinishes(table, before, page.next, limit, n - 1);
    }
  }

  lemma RepeatOnce<T>(table: set<T>, n: nat)
    requires n > 0
    ensures Repeat(table, n)[0] == table && Repeat(table, n)[1..] == Repeat(table, n - 1)
  {}

  lemma FixedTextWalk<T(!new)>(table: set<T>, before: (T, T) -> bool, codec: Codec<T>, limit: nat, n: nat)
    requires StrictOrder(before) && limit >= 1 && Carries(codec) && n > |table|
    ensures TextWalk(Repeat(table, n), before, codec, None, limit) == Ok(Walked(Sorted(table, before), true))
  {
    TextWalkIsWalk(Repeat(table, n), before, codec, None, limit);
    assert After(table, before, None) == table;
    WalkFinishes(table, before, None, limit, n);
    FixedWalkIsSorted(table, before, None, limit);
  }
}
