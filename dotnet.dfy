/** The behaviour of the .NET primitives the plugin builds on, stated once so
    that every other module can use the same definitions: fixed-width integers
    and C#'s unchecked 64-bit addition, the decimal text of an integer,
    `int.TryParse`/`ulong.TryParse` under `NumberStyles.Integer`,
    `string.IsNullOrWhiteSpace` and `string.Split(char)`. */
module DotNet {

  datatype Option<+T> = None | Some(value: T)

  /** Success, or a failure carrying the error kind (the source's exceptions). */
  datatype Outcome<+E> = Pass | Fail(error: E)

  const IntMin: int := -0x8000_0000
  const IntMax: int := 0x7FFF_FFFF
  const LongMin: int := -0x8000_0000_0000_0000
  const LongMax: int := 0x7FFF_FFFF_FFFF_FFFF
  const ULongMax: int := 0xFFFF_FFFF_FFFF_FFFF
  const TwoTo64: int := 0x1_0000_0000_0000_0000

  /** C# `int`. */
  type Int32 = x: int | IntMin <= x <= IntMax

  /** C# `long`. */
  type Int64 = x: int | LongMin <= x <= LongMax

  /** `a + b` on two `long`s in C#'s unchecked context: a sum outside the
      range wraps around by 2^64. */
  function AddInt64(a: Int64, b: Int64): (r: Int64)
    ensures LongMin <= a + b <= LongMax ==> r == a + b
  {
    if a + b > LongMax then a + b - TwoTo64
    else if a + b < LongMin then a + b + TwoTo64
    else a + b
  }

  /** `a - b` on two `long`s in C#'s unchecked context. */
  function SubInt64(a: Int64, b: Int64): (r: Int64)
    ensures LongMin <= a - b <= LongMax ==> r == a - b
  {
    if a - b > LongMax then a - b - TwoTo64
    else if a - b < LongMin then a - b + TwoTo64
    else a - b
  }

  // ---------------------------------------------------------------------
  // Decimal digits

  predicate IsDigit(c: char) { '0' <= c <= '9' }

  predicate AllDigits(s: string) { forall i :: 0 <= i < |s| ==> IsDigit(s[i]) }

  function DigitValue(c: char): (d: nat)
    requires IsDigit(c)
    ensures d < 10
  {
    c as int - '0' as int
  }

  function DigitChar(d: nat): (c: char)
    requires d < 10
    ensures IsDigit(c) && DigitValue(c) == d
  {
    ('0' as int + d) as char
  }

  /** The number an ASCII digit string denotes, most significant digit first. */
  function DigitsValue(s: string): nat
    requires AllDigits(s)
    decreases |s|
  {
    if s == [] then 0 else 10 * DigitsValue(s[..|s| - 1]) + DigitValue(s[|s| - 1])
  }

  /** The decimal text of a natural number, as `ToString()` writes it: at
      least one digit and no leading zero. */
  function NatToString(n: nat): (s: string)
    ensures |s| >= 1 && AllDigits(s)
    ensures s[0] == '0' ==> n == 0 && |s| == 1
    decreases n
  {
    if n < 10 then [DigitChar(n)] else NatToString(n / 10) + [DigitChar(n % 10)]
  }

  /** `long.ToString()` (and `StringBuilder.Append(long)`) with the invariant
      culture: a '-' before the digits of the magnitude when negative. */
  function LongToString(x: int): string
  {
    if x < 0 then "-" + NatToString(-x) else NatToString(x)
  }

  /** Reading back the digits that NatToString writes gives the number. */
  lemma {:induction false} DigitsRoundTrip(n: nat)
    ensures DigitsValue(NatToString(n)) == n
  {
    if n >= 10 {
      var s := NatToString(n);
      DigitsRoundTrip(n / 10);
      assert s[..|s| - 1] == NatToString(n / 10);
    }
  }

  // ---------------------------------------------------------------------
  // Parsing under NumberStyles.Integer

  /** The white space `NumberStyles.AllowLeadingWhite`/`AllowTrailingWhite`
      accept: U+0009 to U+000D and U+0020. */
  predicate IsNumberWhite(c: char) { c == ' ' || '\t' <= c <= '\r' }

  function TrimStartWhite(s: string): string
    decreases |s|
  {
    if s != [] && IsNumberWhite(s[0]) then TrimStartWhite(s[1..]) else s
  }

  function TrimEndWhite(s: string): string
    decreases |s|
  {
    if s != [] && IsNumberWhite(s[|s| - 1]) then TrimEndWhite(s[..|s| - 1]) else s
  }

  /** How many NUL characters ('\0') end the text: .NET's number parser
      ignores them. */
  function TrailingNuls(s: string): (n: nat)
    ensures n <= |s|
    decreases |s|
  {
    if s != [] && s[|s| - 1] == '\0' then TrailingNuls(s[..|s| - 1]) + 1 else 0
  }

  /** The text without its trailing NUL characters. */
  function TrimEndNul(s: string): string
  {
    s[..|s| - TrailingNuls(s)]
  }

  /** `TryParse` of an integral type whose range is [lo, hi]: optional white
      space, an optional '+' or '-', one or more ASCII digits, optional white
      space, any number of trailing NUL characters, and a value inside the
      range. */
  function TryParseInteger(s: string, lo: int, hi: int): (r: Option<int>)
  {
    var t := TrimEndWhite(TrimStartWhite(TrimEndNul(s)));
    var negative := |t| > 0 && t[0] == '-';
    var body := if |t| > 0 && (t[0] == '-' || t[0] == '+') then t[1..] else t;
    if body == [] || !AllDigits(body) then None
    else
      var magnitude: int := DigitsValue(body);
      var v := if negative then -magnitude else magnitude;
      if lo <= v <= hi then Some(v) else None
  }

  /** `int.TryParse(s, out n)`. */
  function TryParseInt32(s: string): (r: Option<int>)
    ensures r.Some? ==> IntMin <= r.value <= IntMax
  {
    TryParseInteger(s, IntMin, IntMax)
  }

  /** `ulong.TryParse(s, out n)`. */
  function TryParseUInt64(s: string): (r: Option<int>)
    ensures r.Some? ==> 0 <= r.value <= ULongMax
  {
    TryParseInteger(s, 0, ULongMax)
  }

  /** The text of every integer in range parses back to that integer. */
  lemma ParseRoundTrip(n: int, lo: int, hi: int)
    requires lo <= n <= hi
    ensures TryParseInteger(LongToString(n), lo, hi) == Some(n)
  {
    var s := LongToString(n);
    var m: nat := if n < 0 then -n else n;
    var digits := NatToString(m);
    DigitsRoundTrip(m);
    assert !IsNumberWhite(s[0]) && !IsNumberWhite(s[|s| - 1]) && s[|s| - 1] != '\0';
    assert TrimEndNul(s) == s;
    assert TrimStartWhite(s) == s;
    assert TrimEndWhite(s) == s;
    if n < 0 {
      assert s[1..] == digits;
    } else {
      assert s == digits && s[0] != '-' && s[0] != '+';
    }
  }

  /** A string holding a character that is neither white space, a sign, a
      digit nor NUL never parses. */
  lemma ParseRejectsOtherCharacters(s: string, i: nat, lo: int, hi: int)
    requires i < |s|
    requires !IsNumberWhite(s[i]) && !IsDigit(s[i]) && s[i] != '+' && s[i] != '-' && s[i] != '\0'
    ensures TryParseInteger(s, lo, hi) == None
  {
    var w := TrimEndNul(s);
    TrimEndNulSpec(s);
    assert i < |w| && w[i] == s[i];
    var u := TrimStartWhite(w);
    var t := TrimEndWhite(u);
    TrimStartSpec(w);
    TrimEndSpec(u);
    var k := i - (|w| - |u|);
    assert 0 <= k < |t| && t[k] == w[i] by {
      if i < |w| - |u| {
        assert w[i] in w[..|w| - |u|];
        LeadingIsWhite(w, i);
      }
      assert u[k] == w[i];
      if k >= |t| {
        TrailingIsWhite(u, k);
      }
    }
    if |t| > 0 && (t[0] == '-' || t[0] == '+') {
      assert k > 0;
      assert t[1..][k - 1] == w[i];
    }
  }

  /** NUL characters at the end change nothing: "12\0" parses as 12, and
      text that does not parse still does not. */
  lemma ParseIgnoresTrailingNul(s: string, lo: int, hi: int)
    ensures TryParseInteger(s + ['\0'], lo, hi) == TryParseInteger(s, lo, hi)
  {
    var s' := s + ['\0'];
    assert s'[..|s'| - 1] == s;
    assert TrimEndNul(s') == TrimEndNul(s);
  }

  /** Removing trailing NULs keeps a prefix, and every character removed is
      NUL. */
  lemma {:induction false} TrimEndNulSpec(s: string)
    ensures var r := TrimEndNul(s);
      |r| <= |s| && r == s[..|r|] && forall j :: |r| <= j < |s| ==> s[j] == '\0'
    decreases |s|
  {
    if s != [] && s[|s| - 1] == '\0' {
      var p := s[..|s| - 1];
      TrimEndNulSpec(p);
      assert TrimEndNul(s) == p[..|p| - TrailingNuls(p)];
    }
  }

  /** Trimming the front keeps a suffix that starts with no white space. */
  lemma {:induction false} TrimStartSpec(s: string)
    ensures var r := TrimStartWhite(s);
      |r| <= |s| && r == s[|s| - |r|..] && (r != [] ==> !IsNumberWhite(r[0]))
    decreases |s|
  {
    if s != [] && IsNumberWhite(s[0]) {
      TrimStartSpec(s[1..]);
    }
  }

  /** Trimming the end keeps a prefix that ends with no white space. */
  lemma {:induction false} TrimEndSpec(s: string)
    ensures var r := TrimEndWhite(s);
      |r| <= |s| && r == s[..|r|] && (r != [] ==> !IsNumberWhite(r[|r| - 1]))
    decreases |s|
  {
    if s != [] && IsNumberWhite(s[|s| - 1]) {
      TrimEndSpec(s[..|s| - 1]);
    }
  }

  lemma {:induction false} LeadingIsWhite(s: string, i: nat)
    requires i < |s| - |TrimStartWhite(s)|
    ensures IsNumberWhite(s[i])
    decreases |s|
  {
    if i > 0 {
      assert s != [] && IsNumberWhite(s[0]);
      LeadingIsWhite(s[1..], i - 1);
    }
  }

  lemma {:induction false} TrailingIsWhite(s: string, i: nat)
    requires |TrimEndWhite(s)| <= i < |s|
    ensures IsNumberWhite(s[i])
    decreases |s|
  {
    if i < |s| - 1 {
      assert s != [] && IsNumberWhite(s[|s| - 1]);
      TrailingIsWhite(s[..|s| - 1], i);
    }
  }

  // ---------------------------------------------------------------------
  // White space and splitting

  /** `char.IsWhiteSpace`: the Unicode separators and the control characters
      U+0009 to U+000D, U+0085. */
  predicate IsWhiteSpace(c: char)
  {
    c == ' ' || '\t' <= c <= '\r' || c == '\U{0085}' || c == '\U{00A0}' || c == '\U{1680}'
    || '\U{2000}' <= c <= '\U{200A}' || c == '\U{2028}' || c == '\U{2029}'
    || c == '\U{202F}' || c == '\U{205F}' || c == '\U{3000}'
  }

  /** `string.IsNullOrWhiteSpace` (strings here are never null). */
  predicate IsNullOrWhiteSpace(s: string)
  {
    forall i :: 0 <= i < |s| ==> IsWhiteSpace(s[i])
  }

  /** `s.Split(sep)`: the pieces between separators, empty pieces kept. */
  function Split(s: string, sep: char): (parts: seq<string>)
    ensures |parts| >= 1
    ensures forall i :: 0 <= i < |parts| ==> sep !in parts[i]
    decreases |s|
  {
    if s == [] then [""]
    else
      var rest := Split(s[1..], sep);
      if s[0] == sep then [""] + rest else [[s[0]] + rest[0]] + rest[1..]
  }

  /** `string.Join(sep, parts)`. */
  function Join(parts: seq<string>, sep: char): string
    requires |parts| >= 1
    decreases |parts|
  {
    if |parts| == 1 then parts[0] else parts[0] + [sep] + Join(parts[1..], sep)
  }

  /** Splitting loses nothing: joining the pieces with the separator gives
      the original text back. */
  lemma {:induction false} SplitJoin(s: string, sep: char)
    ensures Join(Split(s, sep), sep) == s
    decreases |s|
  {
    if s != [] {
      var rest := Split(s[1..], sep);
      SplitJoin(s[1..], sep);
      if s[0] == sep {
        assert Split(s, sep)[1..] == rest;
      } else if |rest| == 1 {
        assert Join(Split(s, sep), sep) == [s[0]] + rest[0];
      } else {
        var parts := Split(s, sep);
        assert parts[1..] == rest[1..];
        assert Join(rest, sep) == rest[0] + [sep] + Join(rest[1..], sep);
      }
    }
  }

  /** A text without the separator is a single piece, itself. */
  lemma {:induction false} SplitWithoutSeparator(s: string, sep: char)
    requires sep !in s
    ensures Split(s, sep) == [s]
    decreases |s|
  {
    if s != [] {
      assert sep !in s[1..];
      SplitWithoutSeparator(s[1..], sep);
      assert [s[0]] + s[1..] == s;
    }
  }

  /** Splitting text that starts with a separator-free piece and a
      separator yields that piece, then the pieces of the rest. */
  lemma {:induction false} SplitAfterPiece(a: string, b: string, sep: char)
    requires sep !in a
    ensures Split(a + [sep] + b, sep) == [a] + Split(b, sep)
    decreases |a|
  {
    var s := a + [sep] + b;
    if a == [] {
      assert s[0] == sep && s[1..] == b;
    } else {
      assert s[0] == a[0] && s[1..] == a[1..] + [sep] + b;
      assert sep !in a[1..];
      SplitAfterPiece(a[1..], b, sep);
      assert [a[0]] + a[1..] == a;
    }
  }

  // ---------------------------------------------------------------------
  // Ordinal case-insensitive comparison

  /** Upper-casing of the ASCII letters; every other character is kept. */
  function UpperAscii(c: char): char
  {
    if 'a' <= c <= 'z' then (c as int - 32) as char else c
  }

  /** `a.Equals(b, StringComparison.OrdinalIgnoreCase)` on ASCII case. */
  predicate EqualsIgnoreCase(a: string, b: string)
  {
    |a| == |b| && forall i :: 0 <= i < |a| ==> UpperAscii(a[i]) == UpperAscii(b[i])
  }

  function ToUpperAscii(s: string): (r: string)
    ensures |r| == |s| && forall i :: 0 <= i < |s| ==> r[i] == UpperAscii(s[i])
  {
    seq(|s|, i requires 0 <= i < |s| => UpperAscii(s[i]))
  }
}
