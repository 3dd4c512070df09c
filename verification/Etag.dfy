/** The version ETag and the If-Match header that carries it back. */
module Etag {
  import opened Wrappers
  import opened Text

  /** Invalid: the 400 the handler raises.  Crash: int() raises on a text that isdigit()
      accepted, which nothing catches. */
  datatype HeaderError = Invalid | Crash

  const QUOTE: CodePoint := 34

  /** A header reaches the program as text of one character per byte. */
  type Header = s: Str | forall i :: 0 <= i < |s| ==> s[i] < 256

  function Print(version: nat): Header {
    DecimalRoundTrip(version);
    [QUOTE] + Decimal(version) + [QUOTE]
  }

  /** str.isdigit() on the characters a header can hold: besides 0-9 the three superscripts. */
  predicate DigitLike(c: CodePoint) {
    48 <= c <= 57 || Superscript(c)
  }

  predicate Superscript(c: CodePoint) {
    c == 0xB2 || c == 0xB3 || c == 0xB9
  }

  function WithoutWeak(s: Str): Str {
    if |s| >= 2 && s[0] == 87 && s[1] == 47 then s[2..] else s
  }

  /** What is left of a header without blanks, weak mark and quotes around it. */
  function Cleaned(value: Header): Str {
    Strip(Strip(WithoutWeak(Strip(value, IsSpace)), IsSpace), c => c == QUOTE)
  }

  /** int() refuses texts of more digits than this, leading zeros included. */
  const MAX_DIGITS: nat := 4300

  /** The version column is a signed 32-bit integer. */
  const MAX_VERSION: nat := 0x7FFF_FFFF

  function Parse(value: Header): Result<nat, HeaderError> {
    var s := Cleaned(value);
    if s == [] || exists i :: 0 <= i < |s| && !DigitLike(s[i]) then Err(Invalid)
    else if |s| > MAX_DIGITS then Err(Crash)
    else
      match ParseDecimal(s)
      case None => Err(Crash)
      case Some(n) => Ok(n)
  }

  /** A header between visible characters, bare or quoted, cleans to what the quotes hold. */
  lemma CleanedVisible(value: Header, digits: Str, quotes: Str)
    requires digits != [] && forall i :: 0 <= i < |digits| ==> 48 <= digits[i] <= 57
    requires quotes == [] || quotes == [QUOTE]
    requires value != [] && !IsSpace(value[0]) && !IsSpace(value[|value| - 1])
    requires WithoutWeak(value) == quotes + digits + quotes
    ensures Cleaned(value) == digits
  {
    var inner := quotes + digits + quotes;
    StripsNothing(value);
    StripsNothing(inner);
    StripInside(quotes, digits, quotes, c => c == QUOTE);
  }

  lemma ParsesDigits(value: Header, version: nat)
    requires Cleaned(value) == Decimal(version)
    ensures Parse(value) == if |Decimal(version)| <= MAX_DIGITS then Ok(version) else Err(Crash)
  {
    DecimalRoundTrip(version);
  }

  lemma QuotedForms(d: Str)
    requires d != [] && forall i :: 0 <= i < |d| ==> 48 <= d[i] <= 57
    ensures Cleaned([QUOTE] + d + [QUOTE]) == d
    ensures Cleaned([87, 47] + ([QUOTE] + d + [QUOTE])) == d
  {
    var quoted := [QUOTE] + d + [QUOTE];
    var weak := [87, 47] + quoted;
    CleanedVisible(quoted, d, [QUOTE]);
    assert WithoutWeak(weak) == quoted;
    CleanedVisible(weak, d, [QUOTE]);
  }

  function Unquoted(version: nat): Header {
    DecimalRoundTrip(version);
    Decimal(version)
  }

  function Weak(version: nat): Header {
    [87, 47] + Print(version)
  }

  lemma UnquotedParses(version: nat)
    ensures Parse(Unquoted(version)) == if |Decimal(version)| <= MAX_DIGITS then Ok(version) else Err(Crash)
  {
    var d := Decimal(version);
    DecimalRoundTrip(version);
    assert [] + d + [] == d;
    CleanedVisible(Unquoted(version), d, []);
    ParsesDigits(Unquoted(version), version);
  }

  lemma QuotedParse(version: nat)
    ensures Parse(Print(version)) == if |Decimal(version)| <= MAX_DIGITS then Ok(version) else Err(Crash)
    ensures Parse(Weak(version)) == if |Decimal(version)| <= MAX_DIGITS then Ok(version) else Err(Crash)
  {
    DecimalRoundTrip(version);
    QuotedForms(Decimal(version));
    ParsesDigits(Print(version), version);
    ParsesDigits(Weak(version), version);
  }

  /** The forms the header is documented to accept all give the version back exactly while it
      has no more digits than int() reads, as every version the column can hold does. */
  lemma EtagRoundTrip(version: nat)
    ensures Parse(Print(version)) == Ok(version) <==> |Decimal(version)| <= MAX_DIGITS
    ensures Parse(Unquoted(version)) == Ok(version) <==> |Decimal(version)| <= MAX_DIGITS
    ensures Parse(Weak(version)) == Ok(version) <==> |Decimal(version)| <= MAX_DIGITS
    ensures version <= MAX_VERSION ==> |Decimal(version)| <= MAX_DIGITS
  {
    UnquotedParses(version);
    QuotedParse(version);
    if version <= MAX_VERSION { VersionIsShort(version); }
  }

  lemma VersionIsShort(version: nat)
    requires version <= MAX_VERSION
    ensures |Decimal(version)| <= 10
  {
    assert Pow10(5) == 100_000;
    assert Pow10(10) == 10_000_000_000;
    DecimalLength(version, 10);
  }

  lemma {:induction false} ParsesExactlyDigits(s: Str)
    ensures ParseDecimal(s).Some? <==> s != [] && forall i :: 0 <= i < |s| ==> 48 <= s[i] <= 57
    decreases |s|
  {
    if |s| > 1 { ParsesExactlyDigits(s[..|s| - 1]); }
  }

  /** The handler crashes instead of answering 400 or reading a version exactly when the cleaned
      header consists of digits and superscript digits, and holds a superscript or more digits
      than int() reads. */
  lemma CrashesExactlyWhen(value: Header)
    ensures var s := Cleaned(value);
      Parse(value) == Err(Crash) <==>
        && (forall i :: 0 <= i < |s| ==> DigitLike(s[i]))
        && (|s| > MAX_DIGITS || exists i :: 0 <= i < |s| && Superscript(s[i]))
  {
    ParsesExactlyDigits(Cleaned(value));
  }

  /** If-Match: the superscript two. */
  lemma SuperscriptCrashes()
    ensures Parse([0xB2]) == Err(Crash)
  {
    StripsNothing([0xB2]);
    assert Cleaned([0xB2]) == [0xB2];
    assert Superscript(Cleaned([0xB2])[0]);
    CrashesExactlyWhen([0xB2]);
  }

  /** If-Match: 4301 ones. */
  lemma ManyDigitsCrash() returns (value: Header)
    ensures |value| == MAX_DIGITS + 1 && (forall i :: 0 <= i < |value| ==> value[i] == 49)
    ensures Parse(value) == Err(Crash)
  {
    value := seq(MAX_DIGITS + 1, _ => 49);
    var digits: Str := value;
    assert [] + digits + [] == digits;
    CleanedVisible(value, digits, []);
    CrashesExactlyWhen(value);
  }
}
