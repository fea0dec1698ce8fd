/**
 * The handful of Python string operations the tool relies on:
 * str.isspace, str.strip, str.lstrip(chars), str.upper, str.lower,
 * str.split(sep), str(int) and int(str).
 */
module Text {
  import opened Wrappers

  /** Python's str.isspace() on a single character. */
  predicate IsSpace(c: char) {
    || c == ' '
    || '\t' <= c <= '\r'
    || '\U{1c}' <= c <= '\U{1f}'
    || c == '\U{85}' || c == '\U{a0}' || c == '\U{1680}'
    || '\U{2000}' <= c <= '\U{200a}'
    || c == '\U{2028}' || c == '\U{2029}' || c == '\U{202f}' || c == '\U{205f}' || c == '\U{3000}'
  }

  /** Neither end of `s` is whitespace. */
  predicate Trimmed(s: string) {
    s == [] || (!IsSpace(s[0]) && !IsSpace(s[|s| - 1]))
  }

  /** Python's s.lstrip(): drops leading whitespace. */
  function LStrip(s: string): (r: string)
    ensures |r| <= |s|
    ensures r == [] || !IsSpace(r[0])
    ensures forall i :: 0 <= i < |s| - |r| ==> IsSpace(s[i])
  {
    if s != [] && IsSpace(s[0]) then LStrip(s[1..]) else s
  }

  /**
   * What lstrip keeps is a suffix of its argument. This is a lemma rather
   * than a postcondition of LStrip so that callers comparing a stripped
   * answer with a literal do not carry it.
   */
  lemma {:induction false} LStripSuffix(s: string)
    ensures LStrip(s) == s[|s| - |LStrip(s)|..]
  {
    if s != [] && IsSpace(s[0]) {
      LStripSuffix(s[1..]);
    }
  }

  /** Python's s.rstrip(): drops trailing whitespace. */
  function RStrip(s: string): (r: string)
    ensures |r| <= |s| && r == s[..|r|]
    ensures r == [] || !IsSpace(r[|r| - 1])
    ensures forall i :: |r| <= i < |s| ==> IsSpace(s[i])
  {
    if s != [] && IsSpace(s[|s| - 1]) then RStrip(s[..|s| - 1]) else s
  }

  /** Python's s.strip(): the longest infix with no whitespace at either end. */
  function Strip(s: string): (r: string)
    ensures Trimmed(r)
    ensures |r| <= |s|
    ensures r == [] <==> forall i :: 0 <= i < |s| ==> IsSpace(s[i])
  {
    LStripSuffix(s);
    RStrip(LStrip(s))
  }

  /** A string that is already trimmed is its own strip. */
  lemma StripTrimmed(s: string)
    requires Trimmed(s)
    ensures Strip(s) == s
  {
  }

  predicate AllSpace(s: string) {
    forall i :: 0 <= i < |s| ==> IsSpace(s[i])
  }

  lemma {:induction false} LStripPadding(pre: string, rest: string)
    requires AllSpace(pre) && (rest == [] || !IsSpace(rest[0]))
    ensures LStrip(pre + rest) == rest
  {
    if pre != [] {
      assert (pre + rest)[1..] == pre[1..] + rest;
      LStripPadding(pre[1..], rest);
    } else {
      assert pre + rest == rest;
    }
  }

  lemma {:induction false} RStripPadding(rest: string, post: string)
    requires AllSpace(post) && (rest == [] || !IsSpace(rest[|rest| - 1]))
    ensures RStrip(rest + post) == rest
  {
    if post != [] {
      assert (rest + post)[..|rest + post| - 1] == rest + post[..|post| - 1];
      RStripPadding(rest, post[..|post| - 1]);
    } else {
      assert rest + post == rest;
    }
  }

  /** Whitespace around a trimmed string is what strip removes, and all it removes. */
  lemma StripPadding(pre: string, core: string, post: string)
    requires AllSpace(pre) && AllSpace(post) && Trimmed(core)
    ensures Strip(pre + core + post) == core
  {
    assert pre + core + post == pre + (core + post);
    if core == [] {
      assert core + post == post;
      assert AllSpace(pre + post);
      assert Strip(pre + post) == [];
    } else {
      LStripPadding(pre, core + post);
      RStripPadding(core, post);
    }
  }

  /** A one-character answer, padded with whitespace, reads back stripped and lower-cased as that character lower-cased. */
  lemma LowerPadded(pre: string, c: char, post: string)
    requires AllSpace(pre) && AllSpace(post) && !IsSpace(c)
    ensures Lower(Strip(pre + [c] + post)) == [LowerChar(c)]
  {
    StripPadding(pre, [c], post);
    assert Lower([c])[0] == LowerChar(c);
  }

  /** Python's s.lstrip(chars): drops leading characters that are in `chars`. */
  function LStripChars(s: string, chars: set<char>): (r: string)
    ensures |r| <= |s|
    ensures r == [] || r[0] !in chars
    ensures forall i :: 0 <= i < |s| - |r| ==> s[i] in chars
  {
    if s != [] && s[0] in chars then
      var r := LStripChars(s[1..], chars);
      assert forall i :: 1 <= i < |s| - |r| ==> s[i] == s[1..][i - 1];
      r
    else s
  }

  /** What lstrip(chars) keeps is a suffix of its argument. */
  lemma {:induction false} LStripCharsSuffix(s: string, chars: set<char>)
    ensures LStripChars(s, chars) == s[|s| - |LStripChars(s, chars)|..]
  {
    if s != [] && s[0] in chars {
      LStripCharsSuffix(s[1..], chars);
    }
  }

  function UpperChar(c: char): char {
    if 'a' <= c <= 'z' then (c as int - 32) as char else c
  }

  function LowerChar(c: char): char {
    if 'A' <= c <= 'Z' then (c as int + 32) as char else c
  }

  /** Python's s.upper(), for the ASCII letters. */
  function Upper(s: string): (r: string)
    ensures |r| == |s|
    ensures forall i :: 0 <= i < |s| ==> r[i] == UpperChar(s[i])
  {
    seq(|s|, i requires 0 <= i < |s| => UpperChar(s[i]))
  }

  /** Python's s.lower(), for the ASCII letters. */
  function Lower(s: string): (r: string)
    ensures |r| == |s|
    ensures forall i :: 0 <= i < |s| ==> r[i] == LowerChar(s[i])
  {
    seq(|s|, i requires 0 <= i < |s| => LowerChar(s[i]))
  }

  /** Python's s.split(sep) for a one-character separator. */
  function Split(s: string, sep: char): (parts: seq<string>)
    ensures |parts| >= 1
    ensures forall k :: 0 <= k < |parts| ==> sep !in parts[k]
  {
    if s == [] then [[]]
    else
      var rest := Split(s[1..], sep);
      if s[0] == sep then [[]] + rest else [[s[0]] + rest[0]] + rest[1..]
  }

  /** Python's sep.join(parts). */
  function Join(parts: seq<string>, sep: char): string
    requires |parts| >= 1
  {
    if |parts| == 1 then parts[0] else parts[0] + [sep] + Join(parts[1..], sep)
  }

  /** Splitting loses nothing: joining the pieces gives the string back. */
  lemma {:induction false} JoinSplit(s: string, sep: char)
    ensures Join(Split(s, sep), sep) == s
  {
    if s != [] {
      var rest := Split(s[1..], sep);
      JoinSplit(s[1..], sep);
      if s[0] == sep {
        assert Split(s, sep)[1..] == rest;
      } else {
        var parts := Split(s, sep);
        if |rest| == 1 {
          assert parts == [[s[0]] + rest[0]];
        } else {
          assert parts[1..] == rest[1..];
          assert Join(rest, sep) == rest[0] + [sep] + Join(rest[1..], sep);
        }
      }
    }
  }

  predicate IsDigit(c: char) {
    '0' <= c <= '9'
  }

  function DigitChar(d: nat): (c: char)
    requires d < 10
    ensures IsDigit(c)
  {
    ('0' as int + d) as char
  }

  function DigitValue(c: char): nat
    requires IsDigit(c)
  {
    c as int - '0' as int
  }

  /** The decimal digits of a natural number, most significant first. */
  function Digits(n: nat): (s: string)
    ensures |s| >= 1
    ensures forall i :: 0 <= i < |s| ==> IsDigit(s[i])
  {
    if n < 10 then [DigitChar(n)] else Digits(n / 10) + [DigitChar(n % 10)]
  }

  /** Python's str(n) for an int. */
  function DecimalString(n: int): string {
    if n < 0 then "-" + Digits(-n) else Digits(n)
  }

  /** Python's integer literal body: digits, with single underscores between digits. */
  predicate IsNumeral(t: string) {
    && |t| > 0
    && IsDigit(t[0])
    && NumeralChars(t)
    && forall i :: 0 <= i < |t| && t[i] == '_' ==> i + 1 < |t| && IsDigit(t[i + 1])
  }

  predicate NumeralChars(t: string) {
    forall i :: 0 <= i < |t| ==> IsDigit(t[i]) || t[i] == '_'
  }

  /** The value of a numeral, underscores ignored. */
  function NumeralValue(t: string): nat
    requires NumeralChars(t)
  {
    if t == [] then 0
    else if t[|t| - 1] == '_' then NumeralValue(t[..|t| - 1])
    else NumeralValue(t[..|t| - 1]) * 10 + DigitValue(t[|t| - 1])
  }

  /**
   * Python's int(s) in base 10: surrounding whitespace, an optional sign,
   * then a numeral. None stands for the ValueError.
   */
  function PyInt(s: string): Option<int> {
    var t := Strip(s);
    if |t| > 0 && (t[0] == '+' || t[0] == '-') && IsNumeral(t[1..]) then
      var magnitude: int := NumeralValue(t[1..]);
      Some(if t[0] == '-' then -magnitude else magnitude)
    else if IsNumeral(t) then Some(NumeralValue(t))
    else None
  }

  lemma {:induction false} DigitsValue(n: nat)
    ensures IsNumeral(Digits(n)) && NumeralValue(Digits(n)) == n
  {
    var d := Digits(n);
    if n >= 10 {
      DigitsValue(n / 10);
      assert d[..|d| - 1] == Digits(n / 10);
      assert NumeralChars(d);
    }
  }

  lemma NumeralTrimmed(t: string)
    requires IsNumeral(t)
    ensures Trimmed(t)
  {
    assert IsDigit(t[|t| - 1]);
  }

  lemma UnsignedRoundTrip(n: nat)
    ensures PyInt(DecimalString(n)) == Some(n)
  {
    assert DecimalString(n) == Digits(n);
    DigitsValue(n);
    NumeralTrimmed(Digits(n));
    StripTrimmed(Digits(n));
  }

  lemma NegativeRoundTrip(n: int)
    requires n < 0
    ensures PyInt(DecimalString(n)) == Some(n)
  {
    var m: nat := -n;
    var d := Digits(m);
    var s := "-" + d;
    assert DecimalString(n) == s;
    DigitsValue(m);
    NumeralTrimmed(d);
    assert s[1..] == d;
    assert s[|s| - 1] == d[|d| - 1];
    StripTrimmed(s);
  }

  /** str(n) has no surrounding whitespace. */
  lemma DecimalTrimmed(n: int)
    ensures Trimmed(DecimalString(n))
  {
    var m: nat := if n < 0 then -n else n;
    DigitsValue(m);
    NumeralTrimmed(Digits(m));
    if n < 0 {
      var s := "-" + Digits(m);
      assert DecimalString(n) == s;
      assert s[|s| - 1] == Digits(m)[|Digits(m)| - 1];
    }
  }

  /** int(str(n)) == n: reading back a printed integer gives the integer. */
  lemma DecimalRoundTrip(n: int)
    ensures PyInt(DecimalString(n)) == Some(n)
  {
    if n < 0 {
      NegativeRoundTrip(n);
    } else {
      UnsignedRoundTrip(n);
    }
  }
}
