/** The URL-safe base64 alphabet (section 5 of RFC 4648), printed with padding and parsed
    the way CPython's non-strict decoder reads it. */
module Base64Url {
  import opened Wrappers
  import opened Text
  import opened Sequences

  type Byte = b: nat | b < 256

  const PAD: CodePoint := 61

  function Sextet(v: nat): CodePoint
    requires v < 64
  {
    if v < 26 then 65 + v
    else if v < 52 then 97 + v - 26
    else if v < 62 then 48 + v - 52
    else if v == 62 then 45
    else 95
  }

  /** Both alphabets' values: the URL-safe characters are translated before decoding. */
  function SextetValue(c: CodePoint): Option<nat> {
    if 65 <= c <= 90 then Some(c - 65)
    else if 97 <= c <= 122 then Some(c - 97 + 26)
    else if 48 <= c <= 57 then Some(c - 48 + 52)
    else if c == 45 || c == 43 then Some(62)
    else if c == 95 || c == 47 then Some(63)
    else None
  }

  function Encode(b: seq<Byte>): Str
    decreases |b|
  {
    if b == [] then []
    else if |b| == 1 then [Sextet(b[0] / 4), Sextet(b[0] % 4 * 16), PAD, PAD]
    else if |b| == 2 then
      [Sextet(b[0] / 4), Sextet(b[0] % 4 * 16 + b[1] / 16), Sextet(b[1] % 16 * 4), PAD]
    else Group(b[0], b[1], b[2]) + Encode(b[3..])
  }

  function Group(x: Byte, y: Byte, z: Byte): (s: Str)
    ensures |s| == 4
  {
    [Sextet(x / 4), Sextet(x % 4 * 16 + y / 16), Sextet(y % 16 * 4 + z / 64), Sextet(z % 64)]
  }

  /** `quad` is the position in the group of four, `left` the bits not yet emitted, `pads`
      the padding characters seen since the last digit; other characters are skipped. */
  function Scan(s: Str, quad: nat, left: nat, pads: nat): Option<seq<Byte>>
    requires quad < 4 && left < 64 && (quad == 2 ==> left < 16) && (quad == 3 ==> left < 4)
    decreases |s|
  {
    if s == [] then (if quad == 0 then Some([]) else None)
    else if s[0] == PAD then
      if quad >= 2 && quad + pads + 1 >= 4 then Some([])
      else Scan(s[1..], quad, left, if quad >= 2 then pads + 1 else pads)
    else
      match SextetValue(s[0])
      case None => Scan(s[1..], quad, left, pads)
      case Some(v) =>
        if quad == 0 then Scan(s[1..], 1, v, 0)
        else if quad == 1 then Emit(left * 4 + v / 16, Scan(s[1..], 2, v % 16, 0))
        else if quad == 2 then Emit(left * 16 + v / 4, Scan(s[1..], 3, v % 4, 0))
        else Emit(left * 64 + v, Scan(s[1..], 0, 0, 0))
  }

  function Emit(b: Byte, rest: Option<seq<Byte>>): Option<seq<Byte>> {
    if rest.None? then None else Some([b] + rest.value)
  }

  function Decode(s: Str): Option<seq<Byte>> {
    Scan(s, 0, 0, 0)
  }

  /** One digit of the encoding, in each position of the group. */
  lemma ScanDigit(v: nat, rest: Str, left: nat)
    requires v < 64 && left < 64
    ensures SextetValue(Sextet(v)) == Some(v) && Sextet(v) != PAD
    ensures Scan([Sextet(v)] + rest, 0, left, 0) == Scan(rest, 1, v, 0)
    ensures Scan([Sextet(v)] + rest, 1, left, 0) == Emit(left * 4 + v / 16, Scan(rest, 2, v % 16, 0))
    ensures left < 16 ==> Scan([Sextet(v)] + rest, 2, left, 0) == Emit(left * 16 + v / 4, Scan(rest, 3, v % 4, 0))
    ensures left < 4 ==> Scan([Sextet(v)] + rest, 3, left, 0) == Emit(left * 64 + v, Scan(rest, 0, 0, 0))
  {
    assert ([Sextet(v)] + rest)[1..] == rest;
  }

  /** The bits of three bytes, cut into sextets and joined again. */
  lemma Bits(x: Byte, y: Byte, z: Byte)
    ensures x / 4 * 4 + (x % 4 * 16 + y / 16) / 16 == x
    ensures (x % 4 * 16 + y / 16) % 16 == y / 16
    ensures y / 16 * 16 + (y % 16 * 4 + z / 64) / 4 == y
    ensures (y % 16 * 4 + z / 64) % 4 == z / 64
    ensures z / 64 * 64 + z % 64 == z
  {}

  lemma GroupScans(x: Byte, y: Byte, z: Byte, rest: Str)
    ensures Decode(Group(x, y, z) + rest) == Emit(x, Emit(y, Emit(z, Decode(rest))))
  {
    var a, b, c, d := x / 4, x % 4 * 16 + y / 16, y % 16 * 4 + z / 64, z % 64;
    var s3 := [Sextet(d)] + rest;
    var s2 := [Sextet(c)] + s3;
    var s1 := [Sextet(b)] + s2;
    Bits(x, y, z);
    ScanDigit(d, rest, c % 4);
    ScanDigit(c, s3, b % 16);
    ScanDigit(b, s2, a);
    ScanDigit(a, s1, 0);
    assert Group(x, y, z) + rest == [Sextet(a)] + s1;
  }

  lemma OneByte(x: Byte)
    ensures Decode(Encode([x])) == Some([x])
  {
    var a, b := x / 4, x % 4 * 16;
    var pads := [PAD, PAD];
    assert pads[1..] == [PAD];
    assert Scan(pads, 2, b % 16, 0) == Some([]);
    Bits(x, 0, 0);
    ScanDigit(b, pads, a);
    ScanDigit(a, [Sextet(b)] + pads, 0);
    assert Encode([x]) == [Sextet(a)] + ([Sextet(b)] + pads);
    assert [x] + [] == [x];
  }

  lemma TwoBytes(x: Byte, y: Byte)
    ensures Decode(Encode([x, y])) == Some([x, y])
  {
    var a, b, c := x / 4, x % 4 * 16 + y / 16, y % 16 * 4;
    assert Scan([PAD], 3, c % 4, 0) == Some([]);
    Bits(x, y, 0);
    ScanDigit(c, [PAD], b % 16);
    ScanDigit(b, [Sextet(c)] + [PAD], a);
    ScanDigit(a, [Sextet(b)] + ([Sextet(c)] + [PAD]), 0);
    assert Encode([x, y]) == [Sextet(a)] + ([Sextet(b)] + ([Sextet(c)] + [PAD]));
    assert [x] + ([y] + []) == [x, y];
  }

  lemma {:induction false} RoundTrip(b: seq<Byte>)
    ensures Decode(Encode(b)) == Some(b)
    decreases |b|
  {
    if |b| == 1 {
      OneByte(b[0]);
      assert b == [b[0]];
    } else if |b| == 2 {
      TwoBytes(b[0], b[1]);
      assert b == [b[0], b[1]];
    } else if |b| >= 3 {
      GroupScans(b[0], b[1], b[2], Encode(b[3..]));
      RoundTrip(b[3..]);
      assert b == [b[0]] + ([b[1]] + ([b[2]] + b[3..]));
    }
  }

  /** "=" * (-len % 4), Python's remainder. */
  function Repad(s: Str): Str {
    s + seq((4 - |s| % 4) % 4, _ => PAD)
  }

  /** Stripping the padding and adding it back restores the encoding exactly (section 3.2 of
      RFC 4648 allows leaving it out when the length is known). */
  lemma {:induction false} StripThenRepad(b: seq<Byte>)
    ensures Repad(StripEnd(Encode(b), PAD)) == Encode(b)
  {
    PaddingIsShort(b);
    var s := StripEnd(Encode(b), PAD);
    var n := |Encode(b)| - |s|;
    assert Encode(b) == s + seq(n, _ => PAD);
    assert (4 - |s| % 4) % 4 == n;
  }

  /** `e` is `s` and at most two padding characters, a multiple of four in all. */
  ghost predicate Padded(e: Str, s: Str) {
    |e| % 4 == 0 && |s| <= |e| <= |s| + 2 && e == s + seq(|e| - |s|, _ => PAD)
  }

  lemma {:induction false} PaddingIsShort(b: seq<Byte>)
    ensures Padded(Encode(b), StripEnd(Encode(b), PAD))
    decreases |b|
  {
    if |b| == 1 {
      TailPadded(Encode(b), [Sextet(b[0] / 4), Sextet(b[0] % 4 * 16)], 2);
    } else if |b| == 2 {
      TailPadded(Encode(b), [Sextet(b[0] / 4), Sextet(b[0] % 4 * 16 + b[1] / 16), Sextet(b[1] % 16 * 4)], 1);
    } else if |b| >= 3 {
      PaddingIsShort(b[3..]);
      GroupPadded(Group(b[0], b[1], b[2]), Encode(b[3..]));
    }
  }

  lemma TailPadded(e: Str, digits: Str, n: nat)
    requires digits != [] && digits[|digits| - 1] != PAD && n <= 2 && |digits| + n == 4
    requires e == digits + seq(n, _ => PAD)
    ensures Padded(e, StripEnd(e, PAD))
  {
    StripTail(digits, n);
  }

  lemma GroupPadded(g: Str, e: Str)
    requires |g| == 4 && g[3] != PAD && Padded(e, StripEnd(e, PAD))
    ensures Padded(g + e, StripEnd(g + e, PAD))
  {
    var s := StripEnd(e, PAD);
    var pads := seq(|e| - |s|, _ => PAD);
    StripEndAppend(g, e, PAD);
    assert g + e == (g + s) + pads by { Regroup(g, s, pads); }
    assert |g + e| == 4 + |e| && |g + s| == 4 + |s|;
  }

  lemma {:induction false} StripTail(digits: Str, n: nat)
    requires digits != [] && digits[|digits| - 1] != PAD
    ensures StripEnd(digits + seq(n, _ => PAD), PAD) == digits
    decreases n
  {
    var s := digits + seq(n, _ => PAD);
    if n == 0 {
      assert s == digits;
    } else {
      assert s[..|s| - 1] == digits + seq(n - 1, _ => PAD);
      StripTail(digits, n - 1);
    }
  }
}
