/** Python strings as code points, with the few printers and parsers the program uses. */
module Text {
  import opened Wrappers

  /** A Python string may hold any code point, lone surrogates included. */
  type CodePoint = c: nat | c < 0x110000

  type Str = seq<CodePoint>

  // ------------------------------------------------------------------ hex

  function HexDigit(v: nat): CodePoint
    requires v < 16
  {
    if v < 10 then 48 + v else 97 + v - 10
  }

  function HexValue(c: CodePoint): Option<nat> {
    if 48 <= c <= 57 then Some(c - 48)
    else if 97 <= c <= 102 then Some(c - 97 + 10)
    else if 65 <= c <= 70 then Some(c - 65 + 10)
    else None
  }

  // -------------------------------------------------------------- decimal

  /** str(n). */
  function Decimal(n: nat): Str
    decreases n
  {
    if n < 10 then [48 + n] else Decimal(n / 10) + [48 + n % 10]
  }

  /** int() of ASCII digits. */
  function ParseDecimal(s: Str): Option<nat>
    decreases |s|
  {
    if s == [] then None
    else if !(48 <= s[|s| - 1] <= 57) then None
    else if |s| == 1 then Some(s[0] - 48)
    else
      var rest := ParseDecimal(s[..|s| - 1]);
      if rest.None? then None else Some(rest.value * 10 + (s[|s| - 1] - 48))
  }

  lemma {:induction false} DecimalRoundTrip(n: nat)
    ensures ParseDecimal(Decimal(n)) == Some(n)
    ensures forall i :: 0 <= i < |Decimal(n)| ==> 48 <= Decimal(n)[i] <= 57
    decreases n
  {
    if n >= 10 {
      DecimalRoundTrip(n / 10);
      assert Decimal(n)[..|Decimal(n)| - 1] == Decimal(n / 10);
    }
  }

  function Pow10(k: nat): nat {
    if k == 0 then 1 else Pow10(k - 1) * 10
  }

  lemma {:induction false} DecimalLength(n: nat, k: nat)
    requires k >= 1 && n < Pow10(k)
    ensures |Decimal(n)| <= k
    decreases k
  {
    if n >= 10 { DecimalLength(n / 10, k - 1); }
  }

  // -------------------------------------------------------------- stripping

  /** s.rstrip(c). */
  function StripEnd(s: Str, c: CodePoint): Str
    decreases |s|
  {
    if s != [] && s[|s| - 1] == c then StripEnd(s[..|s| - 1], c) else s
  }

  lemma {:induction false} StripEndAppend(a: Str, b: Str, c: CodePoint)
    requires a != [] && a[|a| - 1] != c
    ensures StripEnd(a + b, c) == a + StripEnd(b, c)
    decreases |b|
  {
    if b == [] {
      assert a + b == a;
    } else if b[|b| - 1] == c {
      StripEndAppend(a, b[..|b| - 1], c);
      assert (a + b)[..|a + b| - 1] == a + b[..|b| - 1];
    }
  }

  /** The characters Python's str.strip() removes. */
  predicate IsSpace(c: CodePoint) {
    9 <= c <= 13 || 28 <= c <= 32 || c == 0x85 || c == 0xA0 || c == 0x1680 || 0x2000 <= c <= 0x200A
    || c == 0x2028 || c == 0x2029 || c == 0x202F || c == 0x205F || c == 0x3000
  }

  /** s.strip() for a class of characters. */
  function Strip(s: Str, drop: CodePoint -> bool): Str
    decreases |s|
  {
    if s != [] && drop(s[0]) then Strip(s[1..], drop)
    else if s != [] && drop(s[|s| - 1]) then Strip(s[..|s| - 1], drop)
    else s
  }

  predicate Blank(s: Str) {
    forall i :: 0 <= i < |s| ==> IsSpace(s[i])
  }

  /** A text strips to nothing exactly when it is blank; otherwise it strips to a text that
      begins and ends with a visible character. */
  lemma {:induction false} StripBlank(s: Str)
    ensures Strip(s, IsSpace) == [] <==> Blank(s)
    ensures var t := Strip(s, IsSpace);
      t != [] ==> !IsSpace(t[0]) && !IsSpace(t[|t| - 1]) && !Blank(t)
    decreases |s|
  {
    if s != [] && IsSpace(s[0]) {
      StripBlank(s[1..]);
      assert Blank(s) <==> Blank(s[1..]) by {
        assert forall i :: 0 < i < |s| ==> s[i] == s[1..][i - 1];
      }
    } else if s != [] && IsSpace(s[|s| - 1]) {
      StripBlank(s[..|s| - 1]);
    }
  }

  /** `t` is `s` without the blanks around it. */
  ghost predicate Trimmed(s: Str, t: Str) {
    && (t != [] ==> !IsSpace(t[0]) && !IsSpace(t[|t| - 1]))
    && exists a, b :: Blank(a) && Blank(b) && s == a + t + b
  }

  lemma TrimFront(s: Str, t: Str)
    requires s != [] && IsSpace(s[0]) && Trimmed(s[1..], t)
    ensures Trimmed(s, t)
  {
    var a, b :| Blank(a) && Blank(b) && s[1..] == a + t + b;
    var front := [s[0]] + a;
    assert Blank(front);
    assert s == [s[0]] + s[1..] == front + t + b;
  }

  lemma TrimBack(s: Str, t: Str)
    requires s != [] && IsSpace(s[|s| - 1]) && Trimmed(s[..|s| - 1], t)
    ensures Trimmed(s, t)
  {
    var a, b :| Blank(a) && Blank(b) && s[..|s| - 1] == a + t + b;
    var back := b + [s[|s| - 1]];
    assert Blank(back);
    assert s == s[..|s| - 1] + [s[|s| - 1]] == a + t + back;
  }

  lemma {:induction false} StripTrims(s: Str)
    ensures Trimmed(s, Strip(s, IsSpace))
    decreases |s|
  {
    if s != [] && IsSpace(s[0]) {
      StripTrims(s[1..]);
      TrimFront(s, Strip(s[1..], IsSpace));
    } else if s != [] && IsSpace(s[|s| - 1]) {
      StripTrims(s[..|s| - 1]);
      TrimBack(s, Strip(s[..|s| - 1], IsSpace));
    } else {
      assert Blank([]) && s == [] + s + [];
    }
  }

  /** str(n) of any integer. */
  function PrintInt(n: int): Str {
    if n < 0 then [45] + Decimal(-n) else Decimal(n)
  }

  /** int(): surrounding white space, a sign, then digits. */
  function ParseInt(s: Str): Option<int> {
    ParseSigned(Strip(s, IsSpace))
  }

  function ParseSigned(t: Str): Option<int> {
    if t != [] && (t[0] == 45 || t[0] == 43) then
      var n := ParseDecimal(t[1..]);
      if n.None? then None
      else
        var v: int := n.value;
        Some(if t[0] == 45 then -v else v)
    else
      var n := ParseDecimal(t);
      if n.None? then None else Some(n.value)
  }

  /** Nothing is stripped from a text with visible ends. */
  lemma StripsNothing(s: Str)
    requires s != [] && !IsSpace(s[0]) && !IsSpace(s[|s| - 1])
    ensures Strip(s, IsSpace) == s
  {}

  lemma DecimalIsVisible(n: nat)
    ensures var d := Decimal(n);
      d != [] && 48 <= d[0] <= 57 && 48 <= d[|d| - 1] <= 57 && forall i :: 0 <= i < |d| ==> 45 <= d[i] <= 57
  {
    DecimalRoundTrip(n);
  }

  lemma SignedRoundTrip(n: int)
    ensures ParseSigned(PrintInt(n)) == Some(n)
  {
    if n < 0 {
      DecimalRoundTrip(-n);
      assert PrintInt(n)[1..] == Decimal(-n);
    } else {
      DecimalIsVisible(n);
      DecimalRoundTrip(n);
    }
  }

  lemma IntRoundTrip(n: int)
    ensures ParseInt(PrintInt(n)) == Some(n)
    ensures forall i :: 0 <= i < |PrintInt(n)| ==> 45 <= PrintInt(n)[i] <= 57
  {
    DecimalIsVisible(if n < 0 then -n else n);
    StripsNothing(PrintInt(n));
    SignedRoundTrip(n);
  }

  /** Characters at the ends that are not in the class stop the stripping. */
  lemma {:induction false} StripInside(a: Str, s: Str, b: Str, drop: CodePoint -> bool)
    requires s != [] && !drop(s[0]) && !drop(s[|s| - 1])
    requires (forall i :: 0 <= i < |a| ==> drop(a[i])) && (forall i :: 0 <= i < |b| ==> drop(b[i]))
    ensures Strip(a + s + b, drop) == s
    decreases |a| + |b|
  {
    var t := a + s + b;
    if a != [] {
      assert t[1..] == a[1..] + s + b;
      StripInside(a[1..], s, b, drop);
    } else if b != [] {
      assert t[..|t| - 1] == a + s + b[..|b| - 1];
      StripInside(a, s, b[..|b| - 1], drop);
    } else {
      assert t == s;
    }
  }
}
