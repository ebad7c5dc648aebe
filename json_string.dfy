/** JSON string literals. `Quote` is what ECMA-262's `JSON.stringify` produces for a
    string (its abstract operation QuoteJSONString); `Unquote` reads a string literal
    by the grammar of section 7 of RFC 8259. Characters are Unicode scalar values, so
    the lone surrogates that QuoteJSONString would write as `\uXXXX` cannot occur. */
module JsonString {
  import opened Text

  /** Lower-case hexadecimal digit, as QuoteJSONString's UnicodeEscape writes it. */
  function HexDigit(d: nat): char
    requires d < 16
  {
    "0123456789abcdef"[d]
  }

  /** How QuoteJSONString writes one character: the two-character escapes for the
      quotation mark, the reverse solidus and five control characters, `\u00XX` for
      the other characters below U+0020, and every other character as itself. */
  function EscapeChar(c: char): string
  {
    if c == '"' then "\\\""
    else if c == '\\' then "\\\\"
    else if c as int == 0x08 then "\\b"
    else if c == '\t' then "\\t"
    else if c == '\n' then "\\n"
    else if c as int == 0x0C then "\\f"
    else if c == '\r' then "\\r"
    else if c as int < 0x20 then "\\u00" + [HexDigit(c as int / 16), HexDigit(c as int % 16)]
    else [c]
  }

  /** The escaped body of a string literal: no character of it is a control character. */
  function Escape(s: string): (e: string)
    ensures forall i :: 0 <= i < |e| ==> e[i] as int >= 0x20
  {
    if s == [] then "" else EscapeChar(s[0]) + Escape(s[1..])
  }

  /** `JSON.stringify(s)` for a string `s`. */
  function Quote(s: string): string
  {
    "\"" + Escape(s) + "\""
  }

  /** The value of a hexadecimal digit of either case. */
  function HexValue(c: char): Option<nat>
  {
    if '0' <= c <= '9' then Some(c as int - '0' as int)
    else if 'a' <= c <= 'f' then Some(c as int - 'a' as int + 10)
    else if 'A' <= c <= 'F' then Some(c as int - 'A' as int + 10)
    else None
  }

  /** The value of the four hexadecimal digits at the start of `t`. */
  function Hex4(t: string): (r: Option<nat>)
    requires |t| >= 4
    ensures r.Some? ==> r.value < 0x10000
  {
    match (HexValue(t[0]), HexValue(t[1]), HexValue(t[2]), HexValue(t[3]))
    case (Some(a), Some(b), Some(c), Some(d)) =>
      if a < 16 && b < 16 && c < 16 && d < 16 then Some(((a * 16 + b) * 16 + c) * 16 + d) else None
    case _ => None
  }

  predicate IsHighSurrogate(u: int) { 0xD800 <= u <= 0xDBFF }
  predicate IsLowSurrogate(u: int) { 0xDC00 <= u <= 0xDFFF }

  /** The character written by the four hex digits after `\u` (or by a surrogate pair
      `\uHHHH\uLLLL`) and how many characters after the `u` it takes. A lone surrogate
      names no Unicode scalar value and is refused. */
  function ReadUnicode(t: string): (r: Option<(char, nat)>)
    ensures r.Some? ==> 4 <= r.value.1 <= |t|
  {
    if |t| < 4 then None
    else match Hex4(t)
      case None => None
      case Some(u) =>
        if !IsHighSurrogate(u) && !IsLowSurrogate(u) then Some((u as char, 4))
        else if IsHighSurrogate(u) && |t| >= 10 && t[4] == '\\' && t[5] == 'u' then
          match Hex4(t[6..])
          case Some(l) =>
            if IsLowSurrogate(l) then Some(((0x10000 + (u - 0xD800) * 0x400 + (l - 0xDC00)) as char, 10))
            else None
          case None => None
        else None
  }

  /** The character an escape sequence stands for (`t` follows the reverse solidus)
      and how many characters of `t` the sequence takes. */
  function ReadEscape(t: string): (r: Option<(char, nat)>)
    ensures r.Some? ==> 1 <= r.value.1 <= |t|
  {
    if t == [] then None
    else if t[0] == '"' then Some(('"', 1))
    else if t[0] == '\\' then Some(('\\', 1))
    else if t[0] == '/' then Some(('/', 1))
    else if t[0] == 'b' then Some((0x08 as char, 1))
    else if t[0] == 'f' then Some((0x0C as char, 1))
    else if t[0] == 'n' then Some(('\n', 1))
    else if t[0] == 'r' then Some(('\r', 1))
    else if t[0] == 't' then Some(('\t', 1))
    else if t[0] == 'u' then
      match ReadUnicode(t[1..])
      case Some((c, n)) => Some((c, n + 1))
      case None => None
    else None
  }

  /** Puts `c` in front of the value of a successful scan. */
  function Cons(c: char, r: Option<(string, string)>): Option<(string, string)>
  {
    match r
    case Some((v, rest)) => Some(([c] + v, rest))
    case None => None
  }

  /** Reads the characters of a string literal after its opening quotation mark, up to
      and including the closing one: the value read and the text that follows. */
  function ScanBody(t: string): (r: Option<(string, string)>)
    ensures r.Some? ==> |r.value.1| < |t|
    decreases |t|
  {
    if t == [] then None
    else if t[0] == '"' then Some(([], t[1..]))
    else if t[0] == '\\' then
      match ReadEscape(t[1..])
      case None => None
      case Some((c, n)) => Cons(c, ScanBody(t[1 + n..]))
    else if t[0] as int < 0x20 then None
    else Cons(t[0], ScanBody(t[1..]))
  }

  /** The value of `q` when `q` is exactly one JSON string literal. */
  function Unquote(q: string): Option<string>
  {
    if |q| > 0 && q[0] == '"' then
      match ScanBody(q[1..])
      case Some((v, rest)) => if rest == [] then Some(v) else None
      case None => None
    else None
  }

  predicate HasShortEscape(c: char)
  {
    c == '"' || c == '\\' || c as int == 0x08 || c == '\t' || c == '\n' || c as int == 0x0C || c == '\r'
  }

  lemma ScanShortEscape(c: char, u: string)
    requires HasShortEscape(c)
    ensures ScanBody(EscapeChar(c) + u) == Cons(c, ScanBody(u))
  {
    var t := EscapeChar(c) + u;
    assert |EscapeChar(c)| == 2 && t[0] == '\\';
    assert ReadEscape(t[1..]) == Some((c, 1));
    assert t[2..] == u;
  }

  lemma HexDigitValue(d: nat)
    requires d < 16
    ensures HexValue(HexDigit(d)) == Some(d)
  {
  }

  lemma ScanUnicodeEscape(c: char, u: string)
    requires !HasShortEscape(c) && c as int < 0x20
    ensures ScanBody(EscapeChar(c) + u) == Cons(c, ScanBody(u))
  {
    var k := c as int;
    var hi, lo := k / 16, k % 16;
    var t := EscapeChar(c) + u;
    assert EscapeChar(c) == "\\u00" + [HexDigit(hi), HexDigit(lo)];
    assert t[0] == '\\' && t[1] == 'u';
    var digits := t[2..];
    assert digits[0] == '0' && digits[1] == '0' && digits[2] == HexDigit(hi) && digits[3] == HexDigit(lo);
    HexDigitValue(hi);
    HexDigitValue(lo);
    assert Hex4(digits) == Some(k);
    assert ReadUnicode(digits) == Some((c, 4));
    assert t[1..][1..] == digits;
    assert ReadEscape(t[1..]) == Some((c, 5));
    assert t[6..] == u;
  }

  /** Scanning the escape of one character reads back that character and carries on after it. */
  lemma ScanEscapeChar(c: char, u: string)
    ensures ScanBody(EscapeChar(c) + u) == Cons(c, ScanBody(u))
  {
    if HasShortEscape(c) {
      ScanShortEscape(c, u);
    } else if c as int < 0x20 {
      ScanUnicodeEscape(c, u);
    } else {
      var t := EscapeChar(c) + u;
      assert t[0] == c && t[1..] == u;
    }
  }

  /** Scanning an escaped body followed by a quotation mark reads back exactly the
      original characters and stops right after that quotation mark. */
  lemma {:induction false} ScanEscaped(s: string, rest: string)
    ensures ScanBody(Escape(s) + "\"" + rest) == Some((s, rest))
  {
    if s == [] {
      assert Escape(s) + "\"" + rest == "\"" + rest;
    } else {
      var tail := Escape(s[1..]) + "\"" + rest;
      assert Escape(s) + "\"" + rest == EscapeChar(s[0]) + tail;
      ScanEscapeChar(s[0], tail);
      ScanEscaped(s[1..], rest);
      assert [s[0]] + s[1..] == s;
    }
  }

  /** `Unquote` undoes `Quote`: the JSON text of a string reads back as that string. */
  lemma UnquoteQuote(s: string)
    ensures Unquote(Quote(s)) == Some(s)
  {
    ScanEscaped(s, "");
    assert Quote(s)[1..] == Escape(s) + "\"" + "";
  }

  /** A quoted string holds no raw line feed, nor any other control character. */
  lemma QuoteHasNoControl(s: string)
    ensures forall i :: 0 <= i < |Quote(s)| ==> Quote(s)[i] as int >= 0x20
    ensures '\n' !in Quote(s)
  {
    var q := Quote(s);
    assert forall i :: 0 < i < |q| - 1 ==> q[i] == Escape(s)[i - 1];
  }
}
