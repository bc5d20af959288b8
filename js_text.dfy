/** Character classes, decimal numerals, `parseInt` and `join`/`split`, with the
    meaning JavaScript gives them. Strings are sequences of Unicode scalar values. */
module JsText {

  /** `\d` in a JavaScript regular expression: the ASCII digits only. */
  predicate IsDigit(c: char) {
    '0' <= c <= '9'
  }

  /** `\s` in a JavaScript regular expression, which is also the white space that
      `parseInt` skips: ECMA-262's WhiteSpace and LineTerminator code points. */
  predicate IsWhitespace(c: char) {
    || c == '\t' || c == '\n' || c == '\r' || c == ' '
    || c as int == 0x0B || c as int == 0x0C || c as int == 0xA0 || c as int == 0x1680
    || 0x2000 <= c as int <= 0x200A
    || c as int == 0x2028 || c as int == 0x2029 || c as int == 0x202F
    || c as int == 0x205F || c as int == 0x3000 || c as int == 0xFEFF
  }

  predicate AllDigits(s: string) {
    forall i :: 0 <= i < |s| ==> IsDigit(s[i])
  }

  function DigitValue(c: char): (d: nat)
    requires IsDigit(c)
    ensures d < 10
  {
    c as int - '0' as int
  }

  function DigitChar(d: nat): (c: char)
    requires d < 10
    ensures IsDigit(c) && DigitValue(c) == d
  {
    (d + '0' as int) as char
  }

  /** The value of a string of decimal digits, most significant first. */
  function DigitsValue(s: string): nat
    requires AllDigits(s)
  {
    if s == [] then 0 else 10 * DigitsValue(s[..|s| - 1]) + DigitValue(s[|s| - 1])
  }

  /** From 10^21 on, `String(n)` switches to exponent notation ("1e+21"). */
  const ExponentFrom: nat := 1000000000000000000000

  /** `String(n)` for a non-negative integer below `ExponentFrom`: the shortest
      decimal numeral. Above it this still writes every digit, which JavaScript
      does not; every number the quiz and the export write is far below it. */
  function NatToString(n: nat): (s: string)
    ensures |s| > 0 && AllDigits(s)
    ensures |s| == 1 <==> n < 10
    ensures |s| > 1 ==> s[0] != '0'
    decreases n
  {
    if n < 10 then [DigitChar(n)] else NatToString(n / 10) + [DigitChar(n % 10)]
  }

  /** Reading back the numeral that `String(n)` writes gives `n`. */
  lemma {:induction false} NatToStringValue(n: nat)
    ensures DigitsValue(NatToString(n)) == n
  {
    if n >= 10 {
      NatToStringValue(n / 10);
      var s := NatToString(n);
      assert s[..|s| - 1] == NatToString(n / 10);
    }
  }

  lemma NatToStringInjective(a: nat, b: nat)
    ensures NatToString(a) == NatToString(b) <==> a == b
  {
    NatToStringValue(a);
    NatToStringValue(b);
  }

  /** A number as `parseInt` produces it: NaN, an integer, or an infinity. */
  datatype JsNumber = NaN | Finite(value: int) | Infinity(negative: bool)

  /** 2^1024 - 2^970, half-way between the largest finite double and 2^1024: an
      integer of at least this magnitude rounds to an infinity. */
  const DoubleOverflow: int := 179769313486231580793728971405303415079934132710037826936173778980444968292764750946649017977587207096330286416692887910946555547851940402630657488671505820681908902000708383676273854845817711531764475730270069855571366959622842914819860834936475292719074168444365510704342711559699508093042880177904174497792

  /** The number an integer denotes once it is stored in a double. */
  function ToNumber(v: int): (r: JsNumber)
    ensures r.Finite? <==> -DoubleOverflow < v < DoubleOverflow
    ensures r.Finite? ==> r.value == v
    ensures r.Infinity? ==> r.negative == (v < 0)
    ensures !r.NaN?
  {
    if v >= DoubleOverflow then Infinity(false)
    else if v <= -DoubleOverflow then Infinity(true)
    else Finite(v)
  }

  /** The string without its leading white space. */
  function TrimStart(s: string): (t: string)
    ensures |t| <= |s| && t == s[|s| - |t|..]
    ensures forall i :: 0 <= i < |s| - |t| ==> IsWhitespace(s[i])
    ensures t == [] || !IsWhitespace(t[0])
  {
    if s != [] && IsWhitespace(s[0]) then TrimStart(s[1..]) else s
  }

  /** The longest prefix of the string made of decimal digits. */
  function LeadingDigits(s: string): (d: string)
    ensures AllDigits(d) && d <= s
    ensures |d| == |s| || !IsDigit(s[|d|])
  {
    if s != [] && IsDigit(s[0]) then [s[0]] + LeadingDigits(s[1..]) else []
  }

  /** `parseInt(s, 10)`: skip leading white space, take an optional sign, then the
      longest run of decimal digits; no digits gives NaN and the rest is ignored. */
  function ParseInt(s: string): JsNumber {
    var t := TrimStart(s);
    var signed := t != [] && (t[0] == '-' || t[0] == '+');
    var digits := LeadingDigits(if signed then t[1..] else t);
    if digits == [] then NaN
    else if signed && t[0] == '-' then ToNumber(-(DigitsValue(digits) as int))
    else ToNumber(DigitsValue(digits))
  }

  lemma LeadingDigitsOfDigits(s: string, rest: string)
    requires AllDigits(s)
    requires rest == [] || !IsDigit(rest[0])
    ensures LeadingDigits(s + rest) == s
  {
    if s != [] {
      assert (s + rest)[1..] == s[1..] + rest;
      LeadingDigitsOfDigits(s[1..], rest);
    }
  }

  /** `parseInt` reads back what `String(n)` wrote, whatever non-digit text follows. */
  lemma ParseIntOfNumeral(n: nat, rest: string)
    requires n < DoubleOverflow
    requires rest == [] || !IsDigit(rest[0])
    ensures ParseInt(NatToString(n) + rest) == Finite(n)
  {
    var s := NatToString(n);
    var x := s + rest;
    assert x[0] == s[0] && IsDigit(x[0]) && !IsWhitespace(x[0]);
    assert TrimStart(x) == x;
    assert !(x[0] == '-' || x[0] == '+');
    LeadingDigitsOfDigits(s, rest);
    NatToStringValue(n);
  }

  /** Leading white space is skipped up to the first other character. */
  lemma {:induction false} TrimStartBlank(blank: string, rest: string)
    requires forall i :: 0 <= i < |blank| ==> IsWhitespace(blank[i])
    requires rest == [] || !IsWhitespace(rest[0])
    ensures TrimStart(blank + rest) == rest
  {
    if blank != [] {
      assert (blank + rest)[1..] == blank[1..] + rest;
      TrimStartBlank(blank[1..], rest);
    }
  }

  /** White space, at most one sign, then anything that begins with neither a
      digit, nor white space, nor a sign: `parseInt` finds no digits and gives NaN. */
  lemma ParseIntWithoutDigits(blank: string, sign: string, rest: string)
    requires forall i :: 0 <= i < |blank| ==> IsWhitespace(blank[i])
    requires sign == [] || sign == "-" || sign == "+"
    requires rest == [] || !(IsDigit(rest[0]) || IsWhitespace(rest[0]) || rest[0] == '-' || rest[0] == '+')
    ensures ParseInt(blank + sign + rest) == NaN
  {
    var t := sign + rest;
    assert blank + sign + rest == blank + t;
    TrimStartBlank(blank, t);
    if sign != [] {
      assert t[0] == sign[0] && t[1..] == rest;
      assert LeadingDigits(rest) == [];
    } else {
      assert t == rest && LeadingDigits(t) == [];
    }
  }

  /** The index of the first occurrence of `c`. */
  function IndexOf(s: string, c: char): (i: nat)
    requires c in s
    ensures i < |s| && s[i] == c && c !in s[..i]
  {
    if s[0] == c then 0 else 1 + IndexOf(s[1..], c)
  }

  lemma {:induction false} IndexOfAfter(a: string, c: char, b: string)
    requires c !in a
    ensures c in a + [c] + b && IndexOf(a + [c] + b, c) == |a|
  {
    if a != [] {
      assert (a + [c] + b)[1..] == a[1..] + [c] + b;
      IndexOfAfter(a[1..], c, b);
    }
  }

  /** `parts.join(sep)` with a one-character separator. */
  function Join(sep: char, parts: seq<string>): string {
    if |parts| == 0 then []
    else if |parts| == 1 then parts[0]
    else parts[0] + [sep] + Join(sep, parts[1..])
  }

  /** `s.split(sep)` with a one-character separator. */
  function Split(sep: char, s: string): (parts: seq<string>)
    ensures |parts| >= 1
    decreases |s|
  {
    if sep in s then
      var i := IndexOf(s, sep);
      [s[..i]] + Split(sep, s[i + 1..])
    else [s]
  }

  /** Splitting a join gives back the parts, when no part holds the separator. */
  lemma {:induction false} SplitJoin(sep: char, parts: seq<string>)
    requires |parts| >= 1
    requires forall i :: 0 <= i < |parts| ==> sep !in parts[i]
    ensures Split(sep, Join(sep, parts)) == parts
  {
    if |parts| == 1 {
      assert sep !in parts[0];
    } else {
      var rest := parts[1..];
      assert forall i :: 0 <= i < |rest| ==> sep !in rest[i] by {
        forall i | 0 <= i < |rest| ensures sep !in rest[i] {
          assert rest[i] == parts[i + 1];
        }
      }
      SplitJoin(sep, rest);
      SplitAfter(sep, parts[0], Join(sep, rest));
      assert [parts[0]] + rest == parts;
    }
  }

  lemma SplitAfter(sep: char, p: string, tail: string)
    requires sep !in p
    ensures Split(sep, p + [sep] + tail) == [p] + Split(sep, tail)
  {
    var s := p + [sep] + tail;
    IndexOfAfter(p, sep, tail);
    assert s[..|p|] == p && s[|p| + 1..] == tail;
  }
}
