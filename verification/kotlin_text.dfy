/**
 * The few pieces of the Kotlin standard library that the two form screens
 * rely on: `String.length`, `isEmpty`, `isBlank` and `Int.toString` (string
 * templates), together with a reference decimal parser that inverts the
 * latter.
 */
module KotlinText {
  import opened Wrappers

  /** Kotlin's `Int`: a 32-bit two's-complement integer. */
  newtype int32 = x: int | -0x8000_0000 <= x < 0x8000_0000

  // ---------------------------------------------------------------------
  // Length: a Kotlin String is a sequence of UTF-16 code units, so a
  // character outside the Basic Multilingual Plane counts twice.
  // ---------------------------------------------------------------------

  function Utf16Units(c: char): nat {
    if c as int >= 0x1_0000 then 2 else 1
  }

  ghost predicate AllBmp(s: string) {
    forall i :: 0 <= i < |s| ==> s[i] as int < 0x1_0000
  }

  /** The positions of the characters outside the Basic Multilingual Plane. */
  ghost function Supplementary(s: string): set<int> {
    set i | 0 <= i < |s| && s[i] as int >= 0x1_0000
  }

  /** `s.length` as Kotlin computes it: one unit per character, plus one per supplementary character. */
  function Length(s: string): (n: nat)
    ensures n == |s| + |Supplementary(s)|
    ensures |s| <= n <= 2 * |s|
    ensures n == |s| <==> AllBmp(s)
  {
    if |s| == 0 then
      assert Supplementary(s) == {};
      0
    else
      var s' := s[..|s| - 1];
      var last := |s| - 1;
      var n' := Length(s');
      assert Supplementary(s) ==
        Supplementary(s') + (if s[last] as int >= 0x1_0000 then {last} else {});
      assert last !in Supplementary(s');
      assert AllBmp(s) <==> Supplementary(s) == {};
      n' + Utf16Units(s[last])
  }

  /** A single character takes one unit, or two outside the Basic Multilingual Plane. */
  lemma LengthOfChar(c: char)
    ensures Length([c]) == Utf16Units(c)
  {
    assert [c][..0] == [];
  }

  lemma {:induction false} LengthAppend(a: string, b: string)
    ensures Length(a + b) == Length(a) + Length(b)
    decreases |b|
  {
    if |b| == 0 {
      assert a + b == a;
    } else {
      var b' := b[..|b| - 1];
      assert (a + b)[..|a + b| - 1] == a + b';
      LengthAppend(a, b');
    }
  }

  /** `s.isEmpty()`, which Kotlin defines as `length == 0`. */
  function IsEmpty(s: string): (r: bool)
    ensures r <==> s == ""
  {
    Length(s) == 0
  }

  // ---------------------------------------------------------------------
  // Blankness: `isBlank()` holds when every character is whitespace in the
  // sense of Kotlin/JVM `Char.isWhitespace()`, i.e. Java's
  // `Character.isWhitespace(c) || Character.isSpaceChar(c)`.
  // ---------------------------------------------------------------------

  predicate IsWhitespace(c: char) {
    var u := c as int;
    || 0x0009 <= u <= 0x000D   // tab, line feed, vertical tab, form feed, carriage return
    || 0x001C <= u <= 0x001F   // file, group, record and unit separators
    || u == 0x0020             // space
    || u == 0x00A0             // no-break space
    || u == 0x1680             // ogham space mark
    || 0x2000 <= u <= 0x200A   // en quad .. hair space
    || u == 0x2028 || u == 0x2029   // line and paragraph separators
    || u == 0x202F || u == 0x205F   // narrow no-break space, medium mathematical space
    || u == 0x3000             // ideographic space
  }

  function IsBlank(s: string): (r: bool)
    ensures r <==> forall i :: 0 <= i < |s| ==> IsWhitespace(s[i])
    ensures IsEmpty(s) ==> r
  {
    forall c | c in s :: IsWhitespace(c)
  }

  // ---------------------------------------------------------------------
  // Decimal rendering of an Int, as a string template `"$n"` produces it,
  // and the parser that reads it back.
  // ---------------------------------------------------------------------

  predicate IsDigit(c: char) {
    '0' <= c <= '9'
  }

  function DigitChar(d: nat): (c: char)
    requires d < 10
    ensures IsDigit(c)
  {
    ('0' as int + d) as char
  }

  function DigitValue(c: char): (d: nat)
    requires IsDigit(c)
    ensures d < 10 && DigitChar(d) == c
  {
    c as int - '0' as int
  }

  predicate AllDigits(s: string) {
    forall i :: 0 <= i < |s| ==> IsDigit(s[i])
  }

  /** The shortest decimal numeral of `n` (no leading zeros). */
  function NatToDecimal(n: nat): (s: string)
    ensures |s| >= 1 && AllDigits(s)
    ensures s[0] == '0' ==> n == 0
    ensures s[0] == '0' ==> s == "0"
    decreases n
  {
    if n < 10 then [DigitChar(n)]
    else NatToDecimal(n / 10) + [DigitChar(n % 10)]
  }

  /** The value of a numeral, most significant digit first. */
  function DecimalValue(s: string): nat
    requires AllDigits(s)
  {
    if |s| == 0 then 0
    else DecimalValue(s[..|s| - 1]) * 10 + DigitValue(s[|s| - 1])
  }

  lemma {:induction false} DecimalRoundTrip(n: nat)
    ensures DecimalValue(NatToDecimal(n)) == n
    decreases n
  {
    if n >= 10 {
      var s := NatToDecimal(n);
      assert s[..|s| - 1] == NatToDecimal(n / 10);
      DecimalRoundTrip(n / 10);
    }
  }

  /** `n.toString()`: a minus sign for negative values, then the digits. */
  function IntToString(n: int32): (s: string)
    ensures |s| >= 1
    ensures s[0] == '-' <==> n < 0
    ensures n < 0 ==> |s| >= 2 && AllDigits(s[1..]) && s[1] != '0'
    ensures n >= 0 ==> AllDigits(s)
    ensures s[0] == '0' ==> s == "0"
  {
    if n < 0 then "-" + NatToDecimal(-(n as int)) else NatToDecimal(n as int)
  }

  /**
   * A reference decimal parser over ASCII digits: an optional sign followed
   * by at least one digit, whose value fits in an Int.
   */
  function ParseInt(s: string): (r: Option<int32>)
    ensures r.Some? ==> |s| >= 1
  {
    if |s| == 0 then None
    else
      var negative := s[0] == '-';
      var digits := if s[0] == '-' || s[0] == '+' then s[1..] else s;
      if |digits| == 0 || !AllDigits(digits) then None
      else
        var magnitude: int := DecimalValue(digits);
        var v := if negative then 0 - magnitude else magnitude;
        if -0x8000_0000 <= v < 0x8000_0000 then Some(v as int32) else None
  }

  lemma IntToStringRoundTrip(n: int32)
    ensures ParseInt(IntToString(n)) == Some(n)
  {
    var s := IntToString(n);
    if n < 0 {
      assert s[1..] == NatToDecimal(-(n as int));
      DecimalRoundTrip(-(n as int));
    } else {
      DecimalRoundTrip(n as int);
    }
  }

  lemma IntToStringInjective(a: int32, b: int32)
    ensures IntToString(a) == IntToString(b) <==> a == b
  {
    if IntToString(a) == IntToString(b) {
      IntToStringRoundTrip(a);
      IntToStringRoundTrip(b);
    }
  }
}
