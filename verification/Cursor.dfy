/** The opaque page cursor: an unpadded URL-safe base64 JSON pair [sort value, row id]. */
module Cursor {
  import opened Wrappers
  import opened Text
  import B64 = Base64Url
  import Json = JsonString

  datatype Pair = Pair(sortValue: Str, rowId: Str)

  datatype CursorError = InvalidCursor

  predicate IsAscii(t: Str) {
    forall i :: 0 <= i < |t| ==> t[i] < 128
  }

  function Bytes(t: Str): seq<B64.Byte>
    requires IsAscii(t)
  {
    seq(|t|, i requires 0 <= i < |t| => t[i])
  }

  // --------------------------------------------------------------- printing

  /** json.dumps([sort_value, row_id]). */
  function Dumps(p: Pair): Str {
    [91, Json.QUOTE] + Json.Escape(p.sortValue) + [Json.QUOTE, 44, 32, Json.QUOTE]
    + Json.Escape(p.rowId) + [Json.QUOTE, 93]
  }

  lemma {:induction false} EscapeIsAscii(t: Str)
    ensures IsAscii(Json.Escape(t))
  {
    if t != [] {
      EscapeIsAscii(t[1..]);
      EscapeOneIsAscii(t[0]);
    }
  }

  lemma EscapeOneIsAscii(c: CodePoint)
    ensures IsAscii(Json.EscapeOne(c))
  {}

  lemma DumpsIsAscii(p: Pair)
    ensures IsAscii(Dumps(p))
  {
    EscapeIsAscii(p.sortValue);
    EscapeIsAscii(p.rowId);
  }

  function EncodeCursor(p: Pair): Str {
    DumpsIsAscii(p);
    StripEnd(B64.Encode(Bytes(Dumps(p))), B64.PAD)
  }

  // ---------------------------------------------------------------- parsing

  function SkipSpace(s: Str): Str {
    if s != [] && (s[0] == 32 || s[0] == 9 || s[0] == 10 || s[0] == 13) then SkipSpace(s[1..]) else s
  }

  /** The rest of `s` after spaces and the character `c`. */
  function Expect(s: Str, c: CodePoint): Option<Str> {
    var t := SkipSpace(s);
    if t != [] && t[0] == c then Some(t[1..]) else None
  }

  function QuotedString(s: Str): Option<Json.Parsed> {
    var t := Expect(s, Json.QUOTE);
    if t.None? then None else Json.Scan(t.value)
  }

  /** json.loads, on arrays of two strings. */
  function Loads(s: Str): Option<Pair> {
    var open := Expect(s, 91);
    if open.None? then None else
    var first := QuotedString(open.value);
    if first.None? then None else
    var comma := Expect(first.value.rest, 44);
    if comma.None? then None else
    var second := QuotedString(comma.value);
    if second.None? then None else
    var close := Expect(second.value.rest, 93);
    if close.None? || SkipSpace(close.value) != [] then None
    else Some(Pair(first.value.text, second.value.text))
  }

  function DecodeCursor(cursor: Str): Result<Pair, CursorError> {
    if !IsAscii(cursor) then Err(InvalidCursor)
    else
      var decoded := B64.Decode(B64.Repad(cursor));
      if decoded.None? then Err(InvalidCursor)
      else
        var pair := Loads(decoded.value);
        if pair.None? then Err(InvalidCursor) else Ok(pair.value)
  }

  // ------------------------------------------------------------- round trip

  lemma ExpectReads(c: CodePoint, rest: Str)
    requires c != 32 && c != 9 && c != 10 && c != 13
    ensures Expect([c] + rest, c) == Some(rest) && Expect([32, c] + rest, c) == Some(rest)
  {
    assert ([c] + rest)[1..] == rest;
    assert ([32, c] + rest)[1..] == [c] + rest;
  }

  lemma QuotedReads(t: Str, rest: Str)
    ensures var s := Json.Escape(t) + [Json.QUOTE] + rest;
      && QuotedString([Json.QUOTE] + s) == Some(Json.Parsed(Json.Joined(t), rest))
      && QuotedString([32, Json.QUOTE] + s) == Some(Json.Parsed(Json.Joined(t), rest))
  {
    ExpectReads(Json.QUOTE, Json.Escape(t) + [Json.QUOTE] + rest);
    Json.EscapeScans(t, rest);
  }

  /** What each step of the reader finds, and so what it returns. */
  lemma LoadsSteps(s: Str, first: Str, comma: Str, second: Str, close: Str, p: Pair)
    requires Expect(s, 91) == Some(first) && QuotedString(first) == Some(Json.Parsed(p.sortValue, comma))
    requires Expect(comma, 44) == Some(second) && QuotedString(second) == Some(Json.Parsed(p.rowId, close))
    requires Expect(close, 93) == Some([])
    ensures Loads(s) == Some(p)
  {}

  lemma DumpsShape(p: Pair)
    ensures var q := Json.QUOTE;
      var second := [32, q] + (Json.Escape(p.rowId) + [q] + [93]);
      Dumps(p) == [91] + ([q] + (Json.Escape(p.sortValue) + [q] + ([44] + second)))
  {
    var q := Json.QUOTE;
    var a, b := Json.Escape(p.sortValue), Json.Escape(p.rowId);
    assert [91, q] + a + [q, 44, 32, q] + b + [q, 93] == [91] + ([q] + (a + [q] + ([44] + ([32, q] + (b + [q] + [93])))));
  }

  lemma LoadsDumps(p: Pair)
    ensures Loads(Dumps(p)) == Some(Pair(Json.Joined(p.sortValue), Json.Joined(p.rowId)))
  {
    var q := Json.QUOTE;
    var second := [32, q] + (Json.Escape(p.rowId) + [q] + [93]);
    var first := [q] + (Json.Escape(p.sortValue) + [q] + ([44] + second));
    DumpsShape(p);
    ExpectReads(91, first);
    QuotedReads(p.sortValue, [44] + second);
    ExpectReads(44, second);
    QuotedReads(p.rowId, [93]);
    assert [93] + [] == [93];
    ExpectReads(93, []);
    LoadsSteps(Dumps(p), first, [44] + second, second, [93], Pair(Json.Joined(p.sortValue), Json.Joined(p.rowId)));
  }

  lemma {:induction false} EncodedIsAscii(b: seq<B64.Byte>)
    ensures IsAscii(B64.Encode(b))
    decreases |b|
  {
    if |b| >= 3 { EncodedIsAscii(b[3..]); }
  }

  lemma {:induction false} StripIsPrefix(s: Str, c: CodePoint)
    ensures StripEnd(s, c) <= s
    decreases |s|
  {
    if s != [] && s[|s| - 1] == c { StripIsPrefix(s[..|s| - 1], c); }
  }

  /** The base64 layer gives back every ASCII document. */
  lemma LayerRoundTrip(t: Str)
    requires IsAscii(t)
    ensures var c := StripEnd(B64.Encode(Bytes(t)), B64.PAD);
      IsAscii(c) && B64.Decode(B64.Repad(c)) == Some(t)
  {
    var bytes := Bytes(t);
    EncodedIsAscii(bytes);
    StripIsPrefix(B64.Encode(bytes), B64.PAD);
    B64.StripThenRepad(bytes);
    B64.RoundTrip(bytes);
    assert bytes == t;
  }

  /** Decoding an encoded pair yields the pair with surrogate pairs joined. */
  lemma DecodeEncode(p: Pair)
    ensures DecodeCursor(EncodeCursor(p)) == Ok(Pair(Json.Joined(p.sortValue), Json.Joined(p.rowId)))
  {
    DumpsIsAscii(p);
    LayerRoundTrip(Dumps(p));
    LoadsDumps(p);
  }

  /** A cursor returns the very pair it was made from exactly when neither text holds a high
      surrogate directly before a low one. */
  lemma RoundTripExactlyWhen(p: Pair)
    ensures DecodeCursor(EncodeCursor(p)) == Ok(p) <==> !Json.HasPair(p.sortValue) && !Json.HasPair(p.rowId)
  {
    DecodeEncode(p);
    Json.SurvivesExactlyWhen(p.sortValue);
    Json.SurvivesExactlyWhen(p.rowId);
  }

  lemma SurrogatesAreJoined(h: CodePoint, l: CodePoint)
    requires Json.High(h) && Json.Low(l)
    ensures DecodeCursor(EncodeCursor(Pair([h, l], []))) == Ok(Pair([Json.Join(h, l)], []))
  {
    DecodeEncode(Pair([h, l], []));
    assert [h, l][2..] == [];
    assert [Json.Join(h, l)] + [] == [Json.Join(h, l)];
  }

  /** An emoji written as its two surrogates comes back as one code point. */
  lemma FailingPair() returns (p: Pair)
    ensures p == Pair([0xD83D, 0xDE00], []) && DecodeCursor(EncodeCursor(p)) == Ok(Pair([0x1F600], []))
  {
    var h, l := 0xD83D, 0xDE00;
    p := Pair([h, l], []);
    SurrogatesAreJoined(h, l);
  }

  // ------------------------------------------------------- what cursors hold

  /** A UUID as its 32 hexadecimal digits. */
  predicate IsUuid(u: seq<nat>) {
    |u| == 32 && forall i :: 0 <= i < 32 ==> u[i] < 16
  }

  function Digits(u: seq<nat>): (t: Str)
    requires forall i :: 0 <= i < |u| ==> u[i] < 16
    ensures |t| == |u|
  {
    seq(|u|, i requires 0 <= i < |u| => HexDigit(u[i]))
  }

  const DASH: CodePoint := 45

  /** str(uuid): groups of 8, 4, 4, 4 and 12 digits. */
  function UuidText(u: seq<nat>): Str
    requires IsUuid(u)
  {
    Digits(u[..8]) + [DASH] + (Digits(u[8..12]) + [DASH] + (Digits(u[12..16]) + [DASH]
    + (Digits(u[16..20]) + [DASH] + Digits(u[20..]))))
  }

  function WithoutDashes(t: Str): Str {
    if t == [] then [] else (if t[0] == DASH then [] else [t[0]]) + WithoutDashes(t[1..])
  }

  function ParseUuid(t: Str): (u: Option<seq<nat>>)
    ensures u.Some? ==> IsUuid(u.value)
  {
    var d := WithoutDashes(t);
    if |d| == 32 && forall i :: 0 <= i < 32 ==> HexValue(d[i]).Some?
    then Some(seq(32, i requires 0 <= i < 32 => HexValue(d[i]).value)) else None
  }

  datatype UuidPair = UuidPair(sortValue: Str, rowId: seq<nat>)

  function DecodeUuidCursor(cursor: Str): (r: Result<UuidPair, CursorError>)
    ensures r.Ok? ==> IsUuid(r.value.rowId)
  {
    match DecodeCursor(cursor)
    case Err(e) => Err(e)
    case Ok(p) =>
      var u := ParseUuid(p.rowId);
      if u.None? then Err(InvalidCursor) else Ok(UuidPair(p.sortValue, u.value))
  }

  lemma {:induction false} DashesDistribute(a: Str, b: Str)
    ensures WithoutDashes(a + b) == WithoutDashes(a) + WithoutDashes(b)
    decreases |a|
  {
    if a == [] {
      assert a + b == b;
    } else {
      DashesDistribute(a[1..], b);
      assert (a + b)[1..] == a[1..] + b;
    }
  }

  lemma {:induction false} DigitsHaveNoDash(t: Str)
    requires DASH !in t
    ensures WithoutDashes(t) == t
    decreases |t|
  {
    if t != [] { DigitsHaveNoDash(t[1..]); }
  }

  lemma GroupThenRest(g: seq<nat>, rest: Str)
    requires forall i :: 0 <= i < |g| ==> g[i] < 16
    ensures WithoutDashes(Digits(g) + [DASH] + rest) == Digits(g) + WithoutDashes(rest)
    ensures WithoutDashes(Digits(g)) == Digits(g)
  {
    var d := Digits(g);
    DigitsHaveNoDash(d);
    DashesDistribute(d + [DASH], rest);
    DashesDistribute(d, [DASH]);
    assert WithoutDashes([DASH]) == [] by { assert [DASH][1..] == []; }
    assert d + [] == d;
  }

  lemma DigitsParse(t: Str, u: seq<nat>)
    requires IsUuid(u) && WithoutDashes(t) == Digits(u)
    ensures ParseUuid(t) == Some(u)
  {
    var d := WithoutDashes(t);
    forall i | 0 <= i < 32 ensures HexValue(d[i]) == Some(u[i]) {
      assert d[i] == HexDigit(u[i]);
    }
    var parsed := ParseUuid(t);
    assert parsed.Some? && parsed.value == u;
  }

  lemma DigitsSplit(u: seq<nat>, n: nat)
    requires n <= |u| && forall i :: 0 <= i < |u| ==> u[i] < 16
    ensures Digits(u) == Digits(u[..n]) + Digits(u[n..])
  {}

  lemma UuidRoundTrip(u: seq<nat>)
    requires IsUuid(u)
    ensures ParseUuid(UuidText(u)) == Some(u)
  {
    var r4 := Digits(u[20..]);
    var r3 := Digits(u[16..20]) + [DASH] + r4;
    var r2 := Digits(u[12..16]) + [DASH] + r3;
    var r1 := Digits(u[8..12]) + [DASH] + r2;
    assert WithoutDashes(r4) == r4 by { GroupThenRest(u[20..], []); }
    assert WithoutDashes(r3) == Digits(u[16..20]) + r4 by { GroupThenRest(u[16..20], r4); }
    assert WithoutDashes(r2) == Digits(u[12..16]) + WithoutDashes(r3) by { GroupThenRest(u[12..16], r3); }
    assert WithoutDashes(r1) == Digits(u[8..12]) + WithoutDashes(r2) by { GroupThenRest(u[8..12], r2); }
    GroupThenRest(u[..8], r1);
    assert WithoutDashes(UuidText(u)) == Digits(u) by { UuidGroups(u); }
    DigitsParse(UuidText(u), u);
  }

  lemma UuidGroups(u: seq<nat>)
    requires IsUuid(u)
    ensures Digits(u) == Digits(u[..8]) + (Digits(u[8..12]) + (Digits(u[12..16]) + (Digits(u[16..20]) + Digits(u[20..]))))
  {
    DigitsSplit(u, 8);
    DigitsSplit(u[8..], 4);
    DigitsSplit(u[12..], 4);
    DigitsSplit(u[16..], 4);
    assert u[8..][..4] == u[8..12] && u[8..][4..] == u[12..];
    assert u[12..][..4] == u[12..16] && u[12..][4..] == u[16..];
    assert u[16..][..4] == u[16..20] && u[16..][4..] == u[20..];
  }

  lemma AsciiHasNoPair(t: Str)
    requires IsAscii(t)
    ensures !Json.HasPair(t)
  {}

  lemma UuidTextIsAscii(u: seq<nat>)
    requires IsUuid(u)
    ensures IsAscii(UuidText(u))
  {}

  /** An incident cursor gives back the ISO time stamp and the id it was made from. */
  lemma IncidentCursorCarriesKey(iso: Str, u: seq<nat>)
    requires IsAscii(iso) && IsUuid(u)
    ensures DecodeUuidCursor(EncodeCursor(Pair(iso, UuidText(u)))) == Ok(UuidPair(iso, u))
  {
    UuidTextIsAscii(u);
    AsciiHasNoPair(iso);
    AsciiHasNoPair(UuidText(u));
    RoundTripExactlyWhen(Pair(iso, UuidText(u)));
    UuidRoundTrip(u);
  }

  /** A timeline cursor gives back the sequence number it was made from. */
  lemma EventCursorCarriesSeq(n: int, u: seq<nat>)
    requires IsUuid(u)
    ensures var decoded := DecodeCursor(EncodeCursor(Pair(PrintInt(n), UuidText(u))));
      decoded.Ok? && ParseInt(decoded.value.sortValue) == Some(n)
  {
    IntRoundTrip(n);
    UuidTextIsAscii(u);
    AsciiHasNoPair(PrintInt(n));
    AsciiHasNoPair(UuidText(u));
    RoundTripExactlyWhen(Pair(PrintInt(n), UuidText(u)));
  }

  // --------------------------------------------------------- ids as numbers

  function Pow16(k: nat): (p: nat)
    ensures p >= 1
  {
    if k == 0 then 1 else Pow16(k - 1) * 16
  }

  /** A UUID as the 128-bit number it is ordered by. */
  type Uuid = n: nat | n < Pow16(32)

  function ToDigits(n: nat, k: nat): (u: seq<nat>)
    ensures |u| == k && forall i :: 0 <= i < k ==> u[i] < 16
  {
    if k == 0 then [] else ToDigits(n / 16, k - 1) + [n % 16]
  }

  function FromDigits(u: seq<nat>): (n: nat)
    requires forall i :: 0 <= i < |u| ==> u[i] < 16
    ensures n < Pow16(|u|)
  {
    if u == [] then 0 else FromDigits(u[..|u| - 1]) * 16 + u[|u| - 1]
  }

  lemma {:induction false} DigitsRoundTrip(n: nat, k: nat)
    requires n < Pow16(k)
    ensures FromDigits(ToDigits(n, k)) == n
    decreases k
  {
    if k > 0 {
      var u := ToDigits(n, k);
      assert u[..|u| - 1] == ToDigits(n / 16, k - 1);
      DigitsRoundTrip(n / 16, k - 1);
    }
  }
}
