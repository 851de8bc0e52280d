/** The string operations of the JavaScript runtime that the forms rely on:
    `trim`, `split`, `join`, `parseInt` and number-to-text rendering, plus the
    `a || b` fallback on strings (an empty string counts as absent). */
module Text {
  import opened Wrappers

  /** White space removed by `String.prototype.trim` (the ASCII controls,
      the space, no-break space, byte-order mark and the two Unicode line
      separators). */
  predicate IsSpace(c: char) {
    c == ' ' || c == '\t' || c == '\n' || c == '\r' || c == '\U{0B}' || c == '\U{0C}'
    || c == '\U{A0}' || c == '\U{FEFF}' || c == '\U{2028}' || c == '\U{2029}'
  }

  predicate AllSpace(s: string) {
    forall i :: 0 <= i < |s| ==> IsSpace(s[i])
  }

  function TrimStart(s: string): (r: string)
    ensures |r| <= |s| && r == s[|s| - |r|..]
    ensures AllSpace(s[..|s| - |r|])
    ensures r == [] || !IsSpace(r[0])
  {
    if s != [] && IsSpace(s[0]) then
      var r := TrimStart(s[1..]);
      assert s[..|s| - |r|] == [s[0]] + s[1..][..|s| - 1 - |r|];
      r
    else s
  }

  function TrimEnd(s: string): (r: string)
    ensures |r| <= |s| && r == s[..|r|]
    ensures AllSpace(s[|r|..])
    ensures r == [] || !IsSpace(r[|r| - 1])
  {
    if s != [] && IsSpace(s[|s| - 1]) then
      var r := TrimEnd(s[..|s| - 1]);
      assert s[|r|..] == s[..|s| - 1][|r|..] + [s[|s| - 1]];
      r
    else s
  }

  /** `String.prototype.trim`. */
  function Trim(s: string): (r: string)
    ensures r == [] || (!IsSpace(r[0]) && !IsSpace(r[|r| - 1]))
  {
    TrimEnd(TrimStart(s))
  }

  /** `trim` removes white space from the two ends and nothing else. */
  lemma TrimIsInner(s: string)
    ensures exists i, j :: 0 <= i <= j <= |s| && Trim(s) == s[i..j] && AllSpace(s[..i]) && AllSpace(s[j..])
  {
    var t := TrimStart(s);
    var r := TrimEnd(t);
    var i := |s| - |t|;
    assert s[i..i + |r|] == r;
    assert s[i + |r|..] == t[|r|..];
  }

  /** `trim` gives the empty string exactly for white space. */
  lemma TrimEmptyIffAllSpace(s: string)
    ensures Trim(s) == [] <==> AllSpace(s)
  {
    BlankWhenTrimmedEmpty(s);
  }

  lemma BlankWhenTrimmedEmpty(s: string)
    ensures TrimEnd(TrimStart(s)) == [] ==> AllSpace(s)
  {
    var t := TrimStart(s);
    var i := |s| - |t|;
    if TrimEnd(t) == [] {
      assert t == [] by { assert AllSpace(t[0..]); }
      forall k | 0 <= k < |s| ensures IsSpace(s[k]) {
        assert s[k] == s[..i][k];
      }
    }
  }

  /** `!s.trim()`: the text is empty once white space is removed. */
  predicate IsBlank(s: string) {
    Trim(s) == []
  }

  /** A leading space never survives `trim`. */
  lemma TrimLeadingSpace(c: char, s: string)
    requires IsSpace(c)
    ensures Trim([c] + s) == Trim(s)
  {
    assert ([c] + s)[1..] == s;
  }

  /** Text that neither starts nor ends with white space is its own `trim`. */
  lemma TrimOfTrimmed(s: string)
    requires s == [] || (!IsSpace(s[0]) && !IsSpace(s[|s| - 1]))
    ensures Trim(s) == s
  {
  }

  /** `s.split(sep)`: the pieces between occurrences of `sep`; never empty. */
  function Split(s: string, sep: char): (r: seq<string>)
    ensures |r| >= 1
    ensures forall k :: 0 <= k < |r| ==> sep !in r[k]
    ensures Join(r, [sep]) == s
  {
    if s == [] then [[]]
    else
      var rest := Split(s[1..], sep);
      if s[0] == sep then
        assert Join([[]] + rest, [sep]) == [] + [sep] + Join(rest, [sep]);
        [[]] + rest
      else
        var r := [[s[0]] + rest[0]] + rest[1..];
        JoinHead(s[0], rest, [sep]);
        r
  }

  /** `parts.join(delim)`. */
  function Join(parts: seq<string>, delim: string): string
  {
    if |parts| == 0 then []
    else if |parts| == 1 then parts[0]
    else parts[0] + delim + Join(parts[1..], delim)
  }

  lemma JoinHead(c: char, parts: seq<string>, delim: string)
    requires |parts| >= 1
    ensures Join([[c] + parts[0]] + parts[1..], delim) == [c] + Join(parts, delim)
  {
    var q := [[c] + parts[0]] + parts[1..];
    assert q[1..] == parts[1..];
  }

  /** Splitting after a separator-free piece and a separator gives that
      piece first. */
  lemma {:induction false} SplitAfterPiece(a: string, sep: char, b: string)
    requires sep !in a
    ensures Split(a + [sep] + b, sep) == [a] + Split(b, sep)
  {
    if a == [] {
      assert a + [sep] + b == [sep] + b;
      assert ([sep] + b)[1..] == b;
    } else {
      assert (a + [sep] + b)[1..] == a[1..] + [sep] + b;
      SplitAfterPiece(a[1..], sep, b);
      assert [a[0]] + a[1..] == a;
    }
  }

  function IsDigit(c: char): bool {
    '0' <= c <= '9'
  }

  predicate AllDigits(s: string) {
    forall i :: 0 <= i < |s| ==> IsDigit(s[i])
  }

  function DigitValue(c: char): nat
    requires IsDigit(c)
  {
    (c as int - '0' as int) as nat
  }

  /** The number a run of decimal digits denotes. */
  function DigitsValue(s: string): nat
    requires AllDigits(s)
  {
    if s == [] then 0 else DigitsValue(s[..|s| - 1]) * 10 + DigitValue(s[|s| - 1])
  }

  function DigitChar(d: nat): (c: char)
    requires d < 10
    ensures IsDigit(c) && DigitValue(c) == d
  {
    ('0' as int + d) as char
  }

  /** The decimal rendering of a count, as a template literal `${n}` gives it. */
  function NatToString(n: nat): (r: string)
    ensures |r| >= 1 && AllDigits(r)
    ensures DigitsValue(r) == n
    ensures r[0] != '0' || n == 0
  {
    if n < 10 then [DigitChar(n)]
    else
      var r := NatToString(n / 10) + [DigitChar(n % 10)];
      assert r[..|r| - 1] == NatToString(n / 10);
      r
  }

  /** The longest prefix of decimal digits. */
  function DigitPrefix(s: string): (r: string)
    ensures |r| <= |s| && r == s[..|r|] && AllDigits(r)
    ensures |r| == |s| || !IsDigit(s[|r|])
  {
    if s == [] || !IsDigit(s[0]) then [] else [s[0]] + DigitPrefix(s[1..])
  }

  /** `parseInt(s)` in base ten: leading white space, an optional sign, then
      the longest run of digits; `None` stands for `NaN`. */
  function ParseInt(s: string): (r: Option<int>)
    ensures r.None? <==> DigitPrefix(SignStripped(TrimStart(s))) == []
  {
    ParseSigned(TrimStart(s))
  }

  /** `parseInt` once the leading white space is gone. */
  function ParseSigned(t: string): Option<int> {
    var digits := DigitPrefix(SignStripped(t));
    if digits == [] then None
    else if |t| > 0 && t[0] == '-' then Some(0 - DigitsValue(digits) as int)
    else Some(DigitsValue(digits))
  }

  function SignStripped(t: string): string {
    if |t| > 0 && (t[0] == '-' || t[0] == '+') then t[1..] else t
  }

  /** Rendering a count and parsing it back gives the count. */
  lemma ParseIntOfNatToString(n: nat)
    ensures ParseInt(NatToString(n)) == Some(n)
  {
    var r := NatToString(n);
    assert !IsSpace(r[0]);
    assert TrimStart(r) == r;
    assert SignStripped(r) == r;
    DigitPrefixOfDigits(r);
  }

  /** Digits followed by something that is not a digit: the digit run is
      exactly the digits. */
  lemma {:induction false} DigitPrefixStops(digits: string, rest: string)
    requires AllDigits(digits)
    requires rest == [] || !IsDigit(rest[0])
    ensures DigitPrefix(digits + rest) == digits
  {
    if digits == [] {
      assert digits + rest == rest;
    } else {
      assert (digits + rest)[1..] == digits[1..] + rest;
      DigitPrefixStops(digits[1..], rest);
    }
  }

  /** Leading white space in front of text that starts otherwise is all
      `TrimStart` removes. */
  lemma {:induction false} TrimStartSpaces(ws: string, x: string)
    requires AllSpace(ws)
    requires x == [] || !IsSpace(x[0])
    ensures TrimStart(ws + x) == x
  {
    if ws == [] {
      assert ws + x == x;
    } else {
      assert (ws + x)[1..] == ws[1..] + x;
      TrimStartSpaces(ws[1..], x);
    }
  }

  /** `parseInt` on text that has white space, an optional sign and a written
      count in front of anything that is not a digit ("12px", " -5", "+3 marks")
      gives that count with its sign; whatever follows is ignored. */
  lemma ParseIntOfPrefix(ws: string, sign: string, n: nat, rest: string)
    requires AllSpace(ws)
    requires sign == "" || sign == "-" || sign == "+"
    requires rest == [] || !IsDigit(rest[0])
    ensures ParseInt(ws + sign + NatToString(n) + rest) == Some(if sign == "-" then 0 - n as int else n as int)
  {
    var digits := NatToString(n);
    var x := sign + (digits + rest);
    assert ws + sign + digits + rest == ws + x;
    SignedStartsPlainly(sign, digits, rest);
    ParseIntSkipsSpace(ws, x);
    DigitPrefixStops(digits, rest);
    ParseIntSigned(sign, digits, rest);
  }

  lemma SignedStartsPlainly(sign: string, digits: string, rest: string)
    requires sign == "" || sign == "-" || sign == "+"
    requires AllDigits(digits) && digits != []
    ensures !IsSpace((sign + (digits + rest))[0])
  {
    if sign == "" {
      assert (sign + (digits + rest))[0] == digits[0];
    } else {
      assert (sign + (digits + rest))[0] == sign[0];
    }
  }

  lemma ParseIntSkipsSpace(ws: string, x: string)
    requires AllSpace(ws)
    requires x == [] || !IsSpace(x[0])
    ensures ParseInt(ws + x) == ParseInt(x)
  {
    TrimStartSpaces(ws, x);
    TrimStartNoSpace(x);
  }

  lemma TrimStartNoSpace(x: string)
    requires x == [] || !IsSpace(x[0])
    ensures TrimStart(x) == x
  {
  }

  lemma ParseIntSigned(sign: string, digits: string, rest: string)
    requires sign == "" || sign == "-" || sign == "+"
    requires AllDigits(digits) && digits != [] && DigitPrefix(digits + rest) == digits
    ensures ParseInt(sign + (digits + rest)) == Some(if sign == "-" then 0 - DigitsValue(digits) as int else DigitsValue(digits) as int)
  {
    var x := sign + (digits + rest);
    SignedStartsPlainly(sign, digits, rest);
    TrimStartNoSpace(x);
    if sign == "" {
      assert x == digits + rest;
      assert IsDigit(x[0]);
    } else {
      assert x[1..] == digits + rest;
      assert x[0] == sign[0];
    }
  }

  lemma {:induction false} DigitPrefixOfDigits(s: string)
    requires AllDigits(s)
    ensures DigitPrefix(s) == s
  {
    if s != [] {
      DigitPrefixOfDigits(s[1..]);
    }
  }

  /** `a || fallback` where `a` may be absent or empty. */
  function OrElse(a: Option<string>, fallback: string): (r: string)
    ensures r == fallback || (a.Some? && r == a.value)
    ensures r == fallback <== (a.None? || a.value == [])
    ensures a.Some? && a.value != [] ==> r == a.value
  {
    if a.Some? && a.value != [] then a.value else fallback
  }
}
