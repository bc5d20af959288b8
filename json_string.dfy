/** `JSON.stringify` applied to a string (section 7 of RFC 8259, as ECMA-262's
    QuoteJSONString writes it), a decoder for JSON string literals, and the
    comma-separated line of quoted cells that the admin CSV export writes. */
module JsonString {
  import opened Wrappers
  import opened JsText

  /** Lower-case hexadecimal digit, as QuoteJSONString writes `\u` escapes. */
  function HexDigit(n: nat): (c: char)
    requires n < 16
    ensures IsHexDigit(c) && HexValue(c) == n
  {
    if n < 10 then (n + '0' as int) as char else (n - 10 + 'a' as int) as char
  }

  predicate IsHexDigit(c: char) {
    '0' <= c <= '9' || 'a' <= c <= 'f' || 'A' <= c <= 'F'
  }

  function HexValue(c: char): (n: nat)
    requires IsHexDigit(c)
    ensures n < 16
  {
    if '0' <= c <= '9' then c as int - '0' as int
    else if 'a' <= c <= 'f' then c as int - 'a' as int + 10
    else c as int - 'A' as int + 10
  }

  /** The escaped form of one character inside a JSON string literal. */
  function EscapeChar(c: char): (e: string)
    ensures |e| > 0 && '\n' !in e
  {
    if c == '"' then ['\\', '"']
    else if c == '\\' then ['\\', '\\']
    else if c as int == 0x08 then ['\\', 'b']
    else if c as int == 0x0C then ['\\', 'f']
    else if c == '\n' then ['\\', 'n']
    else if c == '\r' then ['\\', 'r']
    else if c == '\t' then ['\\', 't']
    else if c < ' ' then ['\\', 'u', '0', '0', HexDigit(c as int / 16), HexDigit(c as int % 16)]
    else [c]
  }

  function Escape(s: string): (e: string)
    ensures '\n' !in e
  {
    if s == [] then [] else EscapeChar(s[0]) + Escape(s[1..])
  }

  /** `JSON.stringify(s)` for a string `s`. */
  function Quote(s: string): (q: string)
    ensures |q| >= 2 && q[0] == '"' && q[|q| - 1] == '"'
    ensures '\n' !in q
  {
    ['"'] + Escape(s) + ['"']
  }

  /** Decodes the escape sequence at the front of `t` (which starts with a
      backslash): the character it stands for and the number of characters it takes. */
  function Unescape(t: string): (r: Option<(char, nat)>)
    requires |t| > 0 && t[0] == '\\'
    ensures r.Some? ==> 2 <= r.value.1 <= |t|
  {
    if |t| < 2 then None
    else if t[1] == '"' then Some(('"', 2))
    else if t[1] == '\\' then Some(('\\', 2))
    else if t[1] == '/' then Some(('/', 2))
    else if t[1] == 'b' then Some((0x08 as char, 2))
    else if t[1] == 'f' then Some((0x0C as char, 2))
    else if t[1] == 'n' then Some(('\n', 2))
    else if t[1] == 'r' then Some(('\r', 2))
    else if t[1] == 't' then Some(('\t', 2))
    else if t[1] == 'u' && |t| >= 6 && IsHexDigit(t[2]) && IsHexDigit(t[3])
         && IsHexDigit(t[4]) && IsHexDigit(t[5]) then
      var code := 4096 * HexValue(t[2]) + 256 * HexValue(t[3]) + 16 * HexValue(t[4]) + HexValue(t[5]);
      // a lone surrogate code unit is not a character of its own
      if 0xD800 <= code < 0xE000 then None else Some((code as char, 6))
    else None
  }

  /** Reads the body of a JSON string literal up to its closing quote: the
      decoded text and what follows the quote; None on malformed input. */
  function ReadBody(t: string): (r: Option<(string, string)>)
    ensures r.Some? ==> |r.value.1| < |t|
    decreases |t|
  {
    if t == [] then None
    else if t[0] == '"' then Some(([], t[1..]))
    else if t[0] == '\\' then
      match Unescape(t)
      case None => None
      case Some((c, n)) =>
        match ReadBody(t[n..])
        case None => None
        case Some((d, rest)) => Some(([c] + d, rest))
    else if t[0] < ' ' then None
    else
      match ReadBody(t[1..])
      case None => None
      case Some((d, rest)) => Some(([t[0]] + d, rest))
  }

  /** `JSON.parse` restricted to a string literal. */
  function Unquote(q: string): Option<string> {
    if q == [] || q[0] != '"' then None
    else
      match ReadBody(q[1..])
      case Some((d, rest)) => if rest == [] then Some(d) else None
      case None => None
  }

  /** Decoding one escaped character, then the rest, gives that character first. */
  lemma ReadBodyEscapeChar(c: char, tail: string)
    ensures ReadBody(EscapeChar(c) + tail) ==
      match ReadBody(tail)
      case None => None
      case Some((d, rest)) => Some(([c] + d, rest))
  {
    var t := EscapeChar(c) + tail;
    var e := EscapeChar(c);
    if c < ' ' && !(c as int == 0x08 || c as int == 0x0C || c == '\n' || c == '\r' || c == '\t') {
      var hi, lo := c as int / 16, c as int % 16;
      assert t[..6] == ['\\', 'u', '0', '0', HexDigit(hi), HexDigit(lo)];
      assert t[2] == '0' && t[3] == '0' && t[4] == HexDigit(hi) && t[5] == HexDigit(lo);
      assert Unescape(t) == Some((c, 6));
      assert t[6..] == tail;
    } else if |e| == 2 {
      assert t[2..] == tail;
    } else {
      assert t[1..] == tail;
    }
  }

  /** The body of a quoted string decodes to the string, leaving what follows. */
  lemma {:induction false} ReadBodyEscape(s: string, rest: string)
    ensures ReadBody(Escape(s) + ['"'] + rest) == Some((s, rest))
  {
    if s == [] {
      assert Escape(s) + ['"'] + rest == ['"'] + rest;
    } else {
      var tail := Escape(s[1..]) + ['"'] + rest;
      assert Escape(s) + ['"'] + rest == EscapeChar(s[0]) + tail;
      ReadBodyEscape(s[1..], rest);
      ReadBodyEscapeChar(s[0], tail);
      assert [s[0]] + s[1..] == s;
    }
  }

  /** `JSON.parse(JSON.stringify(s)) == s`. */
  lemma UnquoteQuote(s: string)
    ensures Unquote(Quote(s)) == Some(s)
  {
    var q := Quote(s);
    assert q[1..] == Escape(s) + ['"'] + [];
    ReadBodyEscape(s, []);
  }

  /** Distinct strings have distinct JSON literals. */
  lemma QuoteInjective(a: string, b: string)
    ensures Quote(a) == Quote(b) ==> a == b
  {
    UnquoteQuote(a);
    UnquoteQuote(b);
  }

  /** A CSV line: each cell as a JSON string literal, joined by commas. */
  function Line(cells: seq<string>): (line: string)
    ensures '\n' !in line
    ensures |cells| > 0 ==> |line| >= 2
  {
    if |cells| == 0 then []
    else if |cells| == 1 then Quote(cells[0])
    else Quote(cells[0]) + [','] + Line(cells[1..])
  }

  /** Reads one or more quoted cells separated by commas that make up all of `t`. */
  function ParseCells(t: string): Option<seq<string>>
    decreases |t|
  {
    if t == [] || t[0] != '"' then None
    else
      match ReadBody(t[1..])
      case None => None
      case Some((cell, rest)) =>
        if rest == [] then Some([cell])
        else if rest[0] != ',' then None
        else
          match ParseCells(rest[1..])
          case None => None
          case Some(cells) => Some([cell] + cells)
  }

  /** Reads a CSV line back into its cells. */
  function ParseLine(line: string): Option<seq<string>> {
    if line == [] then Some([]) else ParseCells(line)
  }

  lemma ParseCellsLast(cell: string)
    ensures ParseCells(Quote(cell)) == Some([cell])
  {
    var q := Quote(cell);
    assert q[1..] == Escape(cell) + ['"'] + [];
    ReadBodyEscape(cell, []);
  }

  lemma ParseCellsCons(cell: string, tail: string)
    ensures ParseCells(Quote(cell) + [','] + tail) ==
      match ParseCells(tail)
      case None => None
      case Some(cells) => Some([cell] + cells)
  {
    var t := Quote(cell) + [','] + tail;
    assert t[1..] == Escape(cell) + ['"'] + ([','] + tail);
    ReadBodyEscape(cell, [','] + tail);
    assert ([','] + tail)[1..] == tail;
  }

  /** Every line the export writes reads back as exactly its cells. */
  lemma {:induction false} ParseLineOfLine(cells: seq<string>)
    ensures ParseLine(Line(cells)) == Some(cells)
  {
    if |cells| == 1 {
      ParseCellsLast(cells[0]);
      assert [cells[0]] == cells;
    } else if |cells| > 1 {
      ParseLineOfLine(cells[1..]);
      ParseCellsCons(cells[0], Line(cells[1..]));
      assert [cells[0]] + cells[1..] == cells;
    }
  }
}
