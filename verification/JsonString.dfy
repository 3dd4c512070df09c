/** JSON strings as `json.dumps` prints them (ASCII only) and `json.loads` reads them. */
module JsonString {
  import opened Wrappers
  import opened Text
  import opened Sequences

  const QUOTE: CodePoint := 34
  const BACKSLASH: CodePoint := 92

  predicate High(c: CodePoint) { 0xD800 <= c <= 0xDBFF }

  predicate Low(c: CodePoint) { 0xDC00 <= c <= 0xDFFF }

  /** A surrogate pair read as one code point. */
  function Join(h: CodePoint, l: CodePoint): CodePoint
    requires High(h) && Low(l)
  {
    0x10000 + (h - 0xD800) * 0x400 + (l - 0xDC00)
  }

  // -------------------------------------------------------------- printing

  function Hex4(n: nat): (s: Str)
    requires n < 0x10000
    ensures |s| == 4
  {
    [HexDigit(n / 4096), HexDigit(n / 256 % 16), HexDigit(n / 16 % 16), HexDigit(n % 16)]
  }

  function Unicode(n: nat): (s: Str)
    requires n < 0x10000
    ensures |s| == 6
  {
    [BACKSLASH, 117] + Hex4(n)
  }

  function EscapeOne(c: CodePoint): Str {
    if c == QUOTE then [BACKSLASH, QUOTE]
    else if c == BACKSLASH then [BACKSLASH, BACKSLASH]
    else if c == 10 then [BACKSLASH, 110]
    else if c == 13 then [BACKSLASH, 114]
    else if c == 9 then [BACKSLASH, 116]
    else if c == 12 then [BACKSLASH, 102]
    else if c == 8 then [BACKSLASH, 98]
    else if 32 <= c <= 126 then [c]
    else if c < 0x10000 then Unicode(c)
    else Unicode(0xD800 + (c - 0x10000) / 0x400) + Unicode(0xDC00 + (c - 0x10000) % 0x400)
  }

  function Escape(t: Str): Str {
    if t == [] then [] else EscapeOne(t[0]) + Escape(t[1..])
  }

  // --------------------------------------------------------------- parsing

  function ParseHex4(s: Str): Option<nat>
    requires |s| >= 4
  {
    var a, b, c, d := HexValue(s[0]), HexValue(s[1]), HexValue(s[2]), HexValue(s[3]);
    if a.None? || b.None? || c.None? || d.None? then None
    else Some(a.value * 4096 + b.value * 256 + c.value * 16 + d.value)
  }

  function Simple(c: CodePoint): Option<CodePoint> {
    if c == QUOTE || c == BACKSLASH || c == 47 then Some(c)
    else if c == 98 then Some(8)
    else if c == 102 then Some(12)
    else if c == 110 then Some(10)
    else if c == 114 then Some(13)
    else if c == 116 then Some(9)
    else None
  }

  datatype Parsed = Parsed(text: Str, rest: Str)

  function Prepend(c: CodePoint, p: Option<Parsed>): Option<Parsed> {
    if p.None? then None else Some(Parsed([c] + p.value.text, p.value.rest))
  }

  /** The four digits after `\u`, as a code unit. */
  function UnitAt(s: Str): Option<nat> {
    if |s| >= 6 && s[0] == BACKSLASH && s[1] == 117 then ParseHex4(s[2..]) else None
  }

  /** The rest of a string after its opening quote. */
  function Scan(s: Str): Option<Parsed>
    decreases |s|
  {
    if s == [] then None
    else if s[0] == QUOTE then Some(Parsed([], s[1..]))
    else if s[0] < 32 then None
    else if s[0] != BACKSLASH then Prepend(s[0], Scan(s[1..]))
    else if |s| < 2 then None
    else if s[1] != 117 then
      var c := Simple(s[1]);
      if c.None? then None else Prepend(c.value, Scan(s[2..]))
    else
      var unit := UnitAt(s);
      if unit.None? || unit.value >= 0x110000 then None
      else
        var next := UnitAt(s[6..]);
        if High(unit.value) && next.Some? && next.value < 0x110000 && Low(next.value)
        then Prepend(Join(unit.value, next.value), Scan(s[12..]))
        else Prepend(unit.value, Scan(s[6..]))
  }

  // ------------------------------------------------------------ round trip

  /** What a text becomes: every high surrogate followed by a low one is joined. */
  function Joined(t: Str): Str
    decreases |t|
  {
    if |t| >= 2 && High(t[0]) && Low(t[1]) then [Join(t[0], t[1])] + Joined(t[2..])
    else if t == [] then []
    else [t[0]] + Joined(t[1..])
  }

  predicate HasPair(t: Str) {
    exists i :: 0 <= i < |t| - 1 && High(t[i]) && Low(t[i + 1])
  }

  lemma Hex4RoundTrip(n: nat, rest: Str)
    requires n < 0x10000
    ensures UnitAt(Unicode(n) + rest) == Some(n)
    ensures (Unicode(n) + rest)[6..] == rest
  {
    var s := Unicode(n) + rest;
    assert s[2..][..4] == Hex4(n);
    assert s[2] == s[2..][0] && s[3] == s[2..][1] && s[4] == s[2..][2] && s[5] == s[2..][3];
    HexDigits(n);
  }

  lemma HexDigits(n: nat)
    requires n < 0x10000
    ensures n / 4096 * 4096 + n / 256 % 16 * 256 + n / 16 % 16 * 16 + n % 16 == n
    ensures forall v: nat :: v < 16 ==> HexValue(HexDigit(v)) == Some(v)
  {
    Nibbles(n);
  }

  /** Division by 16, three times over. */
  lemma Nibbles(n: nat)
    ensures n / 4096 * 4096 + n / 256 % 16 * 256 + n / 16 % 16 * 16 + n % 16 == n
  {
    var a := n / 16;
    var b := a / 16;
    assert n / 256 == b;
    assert n / 4096 == b / 16;
  }

  lemma EscapeCons(t: Str, rest: Str)
    requires t != []
    ensures Escape(t) + [QUOTE] + rest == EscapeOne(t[0]) + (Escape(t[1..]) + [QUOTE] + rest)
  {}

  lemma PlainIsNoUnit(c: CodePoint, after: Str)
    requires |EscapeOne(c)| <= 2
    ensures UnitAt(EscapeOne(c) + after).None?
  {}

  /** What follows a lone high surrogate is not the escape of a low one. */
  lemma NotLowNext(t: Str, rest: Str)
    requires t == [] || !Low(t[0])
    ensures var next := UnitAt(Escape(t) + [QUOTE] + rest);
      next.None? || next.value >= 0x110000 || !Low(next.value)
  {
    if t != [] {
      EscapeCons(t, rest);
      NotLowFirst(t[0], Escape(t[1..]) + [QUOTE] + rest);
    }
  }

  lemma NotLowFirst(c: CodePoint, tail: Str)
    requires !Low(c)
    ensures var next := UnitAt(EscapeOne(c) + tail);
      next.None? || (next.value < 0x110000 && !Low(next.value))
  {
    if c >= 0x10000 {
      var h, l := Halves(c);
      Regroup(Unicode(h), Unicode(l), tail);
      Hex4RoundTrip(h, Unicode(l) + tail);
    } else if |EscapeOne(c)| == 6 {
      Hex4RoundTrip(c, tail);
    } else {
      PlainIsNoUnit(c, tail);
    }
  }

  lemma ScanUnit(n: nat, after: Str)
    requires n < 0x10000
    requires High(n) ==> UnitAt(after).None? || UnitAt(after).value >= 0x110000 || !Low(UnitAt(after).value)
    ensures Scan(Unicode(n) + after) == Prepend(n, Scan(after))
  {
    Hex4RoundTrip(n, after);
  }

  lemma ScanPair(h: nat, l: nat, after: Str)
    requires h < 0x110000 && l < 0x110000 && High(h) && Low(l)
    ensures Scan(Unicode(h) + Unicode(l) + after) == Prepend(Join(h, l), Scan(after))
  {
    var s := Unicode(h) + (Unicode(l) + after);
    assert s == Unicode(h) + Unicode(l) + after;
    Hex4RoundTrip(h, Unicode(l) + after);
    Hex4RoundTrip(l, after);
    assert s[6..][6..] == s[12..];
  }

  lemma ScanPlain(c: CodePoint, after: Str)
    requires c < 0x10000 && |EscapeOne(c)| <= 2
    ensures Scan(EscapeOne(c) + after) == Prepend(c, Scan(after))
  {
    var s := EscapeOne(c) + after;
    assert s[|EscapeOne(c)|..] == after;
  }

  /** Reading back an escaped text yields the text with surrogate pairs joined. */
  lemma {:induction false} EscapeScans(t: Str, rest: Str)
    ensures Scan(Escape(t) + [QUOTE] + rest) == Some(Parsed(Joined(t), rest))
    decreases |t|
  {
    if t == [] {
      var s := Escape(t) + [QUOTE] + rest;
      assert s[0] == QUOTE && s[1..] == rest;
    } else if |t| >= 2 && High(t[0]) && Low(t[1]) {
      EscapeScans(t[2..], rest);
      PairScans(t, rest);
    } else {
      EscapeScans(t[1..], rest);
      OneScans(t[0], t[1..], rest);
      EscapeCons(t, rest);
    }
  }

  lemma PairScans(t: Str, rest: Str)
    requires |t| >= 2 && High(t[0]) && Low(t[1])
    ensures Scan(Escape(t) + [QUOTE] + rest) == Prepend(Join(t[0], t[1]), Scan(Escape(t[2..]) + [QUOTE] + rest))
  {
    EscapePair(t, rest);
    ScanPair(t[0], t[1], Escape(t[2..]) + [QUOTE] + rest);
  }

  lemma EscapePair(t: Str, rest: Str)
    requires |t| >= 2 && High(t[0]) && Low(t[1])
    ensures Escape(t) + [QUOTE] + rest == Unicode(t[0]) + Unicode(t[1]) + (Escape(t[2..]) + [QUOTE] + rest)
  {
    EscapeCons(t, rest);
    EscapeCons(t[1..], rest);
    assert t[1..][1..] == t[2..];
    Regroup(Unicode(t[0]), Unicode(t[1]), Escape(t[2..]) + [QUOTE] + rest);
  }

  lemma OneScans(c: CodePoint, t: Str, rest: Str)
    requires !(High(c) && t != [] && Low(t[0]))
    ensures Scan(EscapeOne(c) + (Escape(t) + [QUOTE] + rest)) == Prepend(c, Scan(Escape(t) + [QUOTE] + rest))
  {
    var after := Escape(t) + [QUOTE] + rest;
    if High(c) { NotLowNext(t, rest); }
    if c >= 0x10000 { AstralScans(c, after); } else { BasicScans(c, after); }
  }

  lemma BasicScans(c: CodePoint, after: Str)
    requires c < 0x10000
    requires High(c) ==> UnitAt(after).None? || UnitAt(after).value >= 0x110000 || !Low(UnitAt(after).value)
    ensures Scan(EscapeOne(c) + after) == Prepend(c, Scan(after))
  {
    PlainOrUnit(c);
    if |EscapeOne(c)| <= 2 { ScanPlain(c, after); } else { ScanUnit(c, after); }
  }

  lemma PlainOrUnit(c: CodePoint)
    requires c < 0x10000
    ensures |EscapeOne(c)| <= 2 || EscapeOne(c) == Unicode(c)
  {}

  lemma AstralScans(c: CodePoint, after: Str)
    requires c >= 0x10000
    ensures Scan(EscapeOne(c) + after) == Prepend(c, Scan(after))
  {
    var h, l := Halves(c);
    ScanPair(h, l, after);
  }

  /** The surrogate pair a supplementary code point is escaped as. */
  lemma Halves(c: CodePoint) returns (h: CodePoint, l: CodePoint)
    requires c >= 0x10000
    ensures High(h) && Low(l) && Join(h, l) == c && EscapeOne(c) == Unicode(h) + Unicode(l)
  {
    h, l := 0xD800 + (c - 0x10000) / 0x400, 0xDC00 + (c - 0x10000) % 0x400;
  }

  lemma {:induction false} JoinedShrinks(t: Str)
    ensures |Joined(t)| <= |t|
    ensures HasPair(t) ==> |Joined(t)| < |t|
    ensures !HasPair(t) ==> Joined(t) == t
    decreases |t|
  {
    if |t| >= 2 && High(t[0]) && Low(t[1]) {
      JoinedShrinks(t[2..]);
    } else if t != [] {
      JoinedShrinks(t[1..]);
      if HasPair(t) {
        var i :| 0 <= i < |t| - 1 && High(t[i]) && Low(t[i + 1]);
        assert High(t[1..][i - 1]) && Low(t[1..][i]);
      } else {
        forall i | 0 <= i < |t[1..]| - 1 ensures !(High(t[1..][i]) && Low(t[1..][i + 1])) {
          assert t[1..][i] == t[i + 1] && t[1..][i + 1] == t[i + 2];
        }
      }
    }
  }

  /** A text survives printing and reading exactly when it holds no surrogate pair. */
  lemma SurvivesExactlyWhen(t: Str)
    ensures Joined(t) == t <==> !HasPair(t)
  {
    JoinedShrinks(t);
  }
}
