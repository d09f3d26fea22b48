/** Text helpers with PHP's meaning: ASCII `strtolower`, `trim` with its default
    character list, `explode` on one separator, and the decimal prefix that
    `floatval` reads from a string. */
module Strings {

  /** ASCII lower-casing of one character (what `strtolower` does since PHP 8.2). */
  function LowerChar(c: char): (r: char)
    ensures 'A' <= c <= 'Z' ==> r as int == c as int + 32
    ensures !('A' <= c <= 'Z') ==> r == c
    ensures !('A' <= r <= 'Z')
  {
    if 'A' <= c <= 'Z' then (c as int + 32) as char else c
  }

  function ToLower(s: string): (r: string)
    ensures |r| == |s|
    ensures forall i :: 0 <= i < |s| ==> r[i] == LowerChar(s[i])
  {
    if s == [] then [] else [LowerChar(s[0])] + ToLower(s[1..])
  }

  lemma {:induction false} ToLowerIdempotent(s: string)
    ensures ToLower(ToLower(s)) == ToLower(s)
  {
    var once := ToLower(s);
    assert forall i :: 0 <= i < |once| ==> LowerChar(once[i]) == once[i];
  }

  /** The characters PHP's `trim` removes by default: space, tab, newline,
      carriage return, NUL and vertical tab. */
  predicate IsTrimSpace(c: char) {
    c == ' ' || c == '\t' || c == '\n' || c == '\r' || c == 0 as char || c == 11 as char
  }

  /** Where `Trim` starts in its input: the number of trim characters in front. */
  function TrimStart(s: string): (a: nat)
    ensures a <= |s|
    ensures forall i :: 0 <= i < a ==> IsTrimSpace(s[i])
    ensures a == |s| || !IsTrimSpace(s[a])
  {
    if s != [] && IsTrimSpace(s[0]) then 1 + TrimStart(s[1..]) else 0
  }

  /** Where `rtrim` ends: the length left once the trailing trim characters go. */
  function TrimEnd(s: string): (b: nat)
    ensures b <= |s|
    ensures forall i :: b <= i < |s| ==> IsTrimSpace(s[i])
    ensures b == 0 || !IsTrimSpace(s[b - 1])
  {
    if s != [] && IsTrimSpace(s[|s| - 1]) then TrimEnd(s[..|s| - 1]) else |s|
  }

  /** PHP `ltrim($s)`. */
  function TrimLeft(s: string): string {
    s[TrimStart(s)..]
  }

  /** PHP `rtrim($s)`. */
  function TrimRight(s: string): string {
    s[..TrimEnd(s)]
  }

  /** PHP `trim($s)`: the longest infix with no removable character at either end. */
  function Trim(s: string): (r: string)
    ensures r == [] || (!IsTrimSpace(r[0]) && !IsTrimSpace(r[|r| - 1]))
  {
    TrimRight(TrimLeft(s))
  }

  /** The trimmed text sits in its input right after the leading trim characters. */
  lemma TrimSlice(s: string)
    ensures TrimStart(s) + |Trim(s)| <= |s|
    ensures forall i :: 0 <= i < |Trim(s)| ==> Trim(s)[i] == s[TrimStart(s) + i]
  {
    var a := TrimStart(s);
    var l := s[a..];
    var r := l[..TrimEnd(l)];
    assert r == Trim(s);
    forall i | 0 <= i < |r| ensures r[i] == s[a + i] {
      assert r[i] == l[i];
    }
  }

  /** What follows the trimmed text in its input is trim characters. */
  lemma TrimTail(s: string)
    ensures forall i :: TrimStart(s) + |Trim(s)| <= i < |s| ==> IsTrimSpace(s[i])
  {
    var a := TrimStart(s);
    var l := s[a..];
    var b := TrimEnd(l);
    assert |Trim(s)| == b;
    forall i | a + b <= i < |s| ensures IsTrimSpace(s[i]) {
      assert s[i] == l[i - a];
    }
  }

  /** Trimming keeps an infix of the input and removes only trim characters. */
  lemma TrimIsInfix(s: string)
    ensures TrimStart(s) + |Trim(s)| <= |s|
    ensures forall i :: 0 <= i < |Trim(s)| ==> Trim(s)[i] == s[TrimStart(s) + i]
    ensures forall i :: 0 <= i < TrimStart(s) ==> IsTrimSpace(s[i])
    ensures forall i :: TrimStart(s) + |Trim(s)| <= i < |s| ==> IsTrimSpace(s[i])
  {
    TrimSlice(s);
    TrimTail(s);
  }

  /** Characters of the trimmed text are characters of the original. */
  lemma TrimKeepsChars(s: string, c: char)
    requires c in Trim(s)
    ensures c in s
  {
    var t := Trim(s);
    TrimSlice(s);
    var i :| 0 <= i < |t| && t[i] == c;
    assert s[TrimStart(s) + i] == c;
  }

  lemma {:induction false} TrimIdempotent(s: string)
    ensures Trim(Trim(s)) == Trim(s)
  {
    var r := Trim(s);
    assert TrimStart(r) == 0;
    assert TrimLeft(r) == r;
    assert TrimEnd(r) == |r|;
    assert TrimRight(r) == r;
  }

  /** PHP `explode($sep, $s)`: the pieces between separators; never empty. */
  function Explode(sep: char, s: string): (r: seq<string>)
    ensures |r| >= 1
    ensures forall i :: 0 <= i < |r| ==> sep !in r[i]
  {
    if s == [] then [""]
    else
      var rest := Explode(sep, s[1..]);
      if s[0] == sep then [""] + rest else [[s[0]] + rest[0]] + rest[1..]
  }

  /** PHP `implode($sep, $parts)`. */
  function Join(sep: char, parts: seq<string>): string {
    if parts == [] then "" else if |parts| == 1 then parts[0] else parts[0] + [sep] + Join(sep, parts[1..])
  }

  /** Splitting and joining again gives the text back. */
  lemma {:induction false} JoinExplode(sep: char, s: string)
    ensures Join(sep, Explode(sep, s)) == s
  {
    if s != [] {
      var rest := Explode(sep, s[1..]);
      JoinExplode(sep, s[1..]);
      if s[0] == sep {
        assert Explode(sep, s) == [""] + rest;
        assert Join(sep, [""] + rest) == "" + [sep] + Join(sep, rest);
      } else {
        var pieces := [[s[0]] + rest[0]] + rest[1..];
        assert Explode(sep, s) == pieces;
        if |rest| == 1 {
          assert Join(sep, pieces) == [s[0]] + rest[0];
          assert Join(sep, rest) == rest[0];
        } else {
          assert pieces[1..] == rest[1..];
          assert Join(sep, pieces) == [s[0]] + rest[0] + [sep] + Join(sep, rest[1..]);
          assert Join(sep, rest) == rest[0] + [sep] + Join(sep, rest[1..]);
        }
      }
    }
  }

  /** A text with no separator is one piece. */
  lemma {:induction false} ExplodeNoSeparator(sep: char, s: string)
    requires sep !in s
    ensures Explode(sep, s) == [s]
  {
    if s != [] {
      ExplodeNoSeparator(sep, s[1..]);
      assert [s[0]] + s[1..] == s;
    }
  }

  function DigitChar(d: nat): (c: char)
    requires d < 10
    ensures '0' <= c <= '9' && c as int - '0' as int == d
  {
    ('0' as int + d) as char
  }

  predicate IsDigit(c: char) {
    '0' <= c <= '9'
  }

  /** Decimal representation of a natural number, as PHP writes an integer key. */
  function NatToString(n: nat): (r: string)
    ensures |r| >= 1
    ensures forall i :: 0 <= i < |r| ==> IsDigit(r[i])
  {
    if n < 10 then [DigitChar(n)] else NatToString(n / 10) + [DigitChar(n % 10)]
  }

  function DigitOf(c: char): (d: nat)
    requires IsDigit(c)
    ensures d < 10
  {
    c as int - '0' as int
  }

  /** Value of a string of decimal digits. */
  function DigitsValue(ds: string): nat
    requires forall i :: 0 <= i < |ds| ==> IsDigit(ds[i])
  {
    if ds == [] then 0 else DigitsValue(ds[..|ds| - 1]) * 10 + DigitOf(ds[|ds| - 1])
  }

  /** Length of the leading run of decimal digits. */
  function DigitRun(s: string): (n: nat)
    ensures n <= |s|
    ensures forall i :: 0 <= i < n ==> IsDigit(s[i])
    ensures n == |s| || !IsDigit(s[n])
  {
    if s != [] && IsDigit(s[0]) then 1 + DigitRun(s[1..]) else 0
  }

  function Pow10(n: nat): (r: nat)
    ensures r >= 1
  {
    if n == 0 then 1 else 10 * Pow10(n - 1)
  }

  /** Whitespace PHP skips before a leading-numeric string. */
  predicate IsNumericSpace(c: char) {
    c == ' ' || c == '\t' || c == '\n' || c == '\r' || c == 11 as char || c == 12 as char
  }

  function SkipNumericSpace(s: string): (r: string)
    ensures |r| <= |s|
    ensures r == [] || !IsNumericSpace(r[0])
  {
    if s != [] && IsNumericSpace(s[0]) then SkipNumericSpace(s[1..]) else s
  }

  /** Unsigned decimal number `digits[.digits]` at the start of `t`; 0 when there is none. */
  function UnsignedPrefix(t: string): (r: real)
    ensures r >= 0.0
  {
    var ip := DigitRun(t);
    var frac := if ip < |t| && t[ip] == '.' then t[ip + 1..][..DigitRun(t[ip + 1..])] else "";
    DigitsValue(t[..ip]) as real + DigitsValue(frac) as real / Pow10(|frac|) as real
  }

  /** The number `floatval` reads from a string: leading whitespace, an optional
      sign and a decimal prefix; anything after the prefix is ignored and a
      string with no numeric prefix reads as 0. */
  function DecimalPrefix(s: string): real {
    var t := SkipNumericSpace(s);
    if t != [] && t[0] == '-' then -UnsignedPrefix(t[1..])
    else if t != [] && t[0] == '+' then UnsignedPrefix(t[1..])
    else UnsignedPrefix(t)
  }

  lemma {:induction false} DigitsValueNatToString(n: nat)
    ensures DigitsValue(NatToString(n)) == n
  {
    var s := NatToString(n);
    if n >= 10 {
      DigitsValueNatToString(n / 10);
      assert s[..|s| - 1] == NatToString(n / 10);
    }
  }

  lemma {:induction false} DigitRunAllDigits(s: string)
    requires forall i :: 0 <= i < |s| ==> IsDigit(s[i])
    ensures DigitRun(s) == |s|
  {
    if s != [] {
      DigitRunAllDigits(s[1..]);
    }
  }

  /** Reading back the decimal text of a natural number gives that number. */
  lemma DecimalPrefixNatToString(n: nat)
    ensures DecimalPrefix(NatToString(n)) == n as real
  {
    var s := NatToString(n);
    assert SkipNumericSpace(s) == s;
    DigitRunAllDigits(s);
    assert s[..|s|] == s;
    DigitsValueNatToString(n);
  }

  /** The empty string, the default of every numeric rule field, reads as 0. */
  lemma DecimalPrefixEmpty()
    ensures DecimalPrefix("") == 0.0
  {
  }
}
