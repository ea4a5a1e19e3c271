/** Rust's `{:?}` (Debug) rendering of a string: the text between double
  * quotes with quote, backslash, tab, carriage return, newline and NUL
  * written as two-character escapes and the remaining ASCII control
  * characters written as `\u{..}` in lower-case hexadecimal. The non-ASCII
  * characters Rust also escapes (non-printable and grapheme-extending ones)
  * are copied as they are. */
module DebugFormat {
  import opened Common

  predicate IsAsciiControl(c: char) { c as int < 0x20 || c as int == 0x7F }

  function HexDigit(d: nat): (c: char)
    requires d < 16
  {
    if d < 10 then ('0' as int + d) as char else ('a' as int + d - 10) as char
  }

  function HexDigitValue(c: char): Option<nat>
  {
    if '0' <= c <= '9' then Some(c as int - '0' as int)
    else if 'a' <= c <= 'f' then Some(c as int - 'a' as int + 10)
    else None
  }

  /** Hexadecimal without leading zeros, for values below 0x80. */
  function Hex(n: nat): (h: string)
    requires n < 0x80
    ensures 1 <= |h| <= 2
  {
    if n < 16 then [HexDigit(n)] else [HexDigit(n / 16), HexDigit(n % 16)]
  }

  function EscapeChar(c: char): (r: string)
  {
    if c == '"' then ['\\', '"']
    else if c == '\\' then ['\\', '\\']
    else if c == '\n' then ['\\', 'n']
    else if c == '\r' then ['\\', 'r']
    else if c == '\t' then ['\\', 't']
    else if c == '\0' then ['\\', '0']
    else if IsAsciiControl(c) then ['\\', 'u', '{'] + Hex(c as int) + ['}']
    else [c]
  }

  function Escaped(s: string): string
  {
    if s == [] then [] else EscapeChar(s[0]) + Escaped(s[1..])
  }

  /** `format!("{:?}", s)`. */
  function DebugQuote(s: string): (r: string)
    ensures |r| >= 2 && r[0] == '"' && r[|r| - 1] == '"'
  {
    ['"'] + Escaped(s) + ['"']
  }

  /** Reads back the body of a quoted string; `None` on a malformed escape
    * or a bare double quote. */
  function Unescape(t: string): Option<string>
    decreases |t|
  {
    if t == [] then Some([])
    else if t[0] == '"' then None
    else if t[0] != '\\' then
      match Unescape(t[1..]) { case Some(rest) => Some([t[0]] + rest) case None => None }
    else if |t| < 2 then None
    else if t[1] in ['"', '\\', 'n', 'r', 't', '0'] then
      var c := if t[1] == 'n' then '\n' else if t[1] == 'r' then '\r'
               else if t[1] == 't' then '\t' else if t[1] == '0' then '\0' else t[1];
      match Unescape(t[2..]) { case Some(rest) => Some([c] + rest) case None => None }
    else if |t| >= 5 && t[1] == 'u' && t[2] == '{' && t[4] == '}' then
      match HexDigitValue(t[3])
      case None => None
      case Some(v) =>
        match Unescape(t[5..]) { case Some(rest) => Some([v as char] + rest) case None => None }
    else if |t| >= 6 && t[1] == 'u' && t[2] == '{' && t[5] == '}' then
      match (HexDigitValue(t[3]), HexDigitValue(t[4]))
      case (Some(hi), Some(lo)) =>
        if hi * 16 + lo < 0x80 then
          match Unescape(t[6..]) { case Some(rest) => Some([(hi * 16 + lo) as char] + rest) case None => None }
        else None
      case _ => None
    else None
  }

  function Unquote(t: string): Option<string>
  {
    if |t| >= 2 && t[0] == '"' && t[|t| - 1] == '"' then Unescape(t[1..|t| - 1]) else None
  }

  lemma HexDigitRoundTrip(d: nat)
    requires d < 16
    ensures HexDigitValue(HexDigit(d)) == Some(d)
  {
  }

  lemma {:induction false} EscapeCharThenRest(c: char, rest: string)
    ensures Unescape(EscapeChar(c) + rest) ==
      match Unescape(rest) { case Some(r) => Some([c] + r) case None => None }
  {
    var e := EscapeChar(c);
    if IsAsciiControl(c) && !(c == '"' || c == '\\' || c == '\n' || c == '\r' || c == '\t' || c == '\0') {
      var n := c as int;
      if n < 16 {
        HexDigitRoundTrip(n);
        assert (e + rest)[5..] == rest;
      } else {
        HexDigitRoundTrip(n / 16);
        HexDigitRoundTrip(n % 16);
        assert (e + rest)[6..] == rest;
      }
    } else if |e| == 2 {
      assert (e + rest)[2..] == rest;
    } else {
      assert (e + rest)[1..] == rest;
    }
  }

  lemma {:induction false} EscapedRoundTrip(s: string)
    ensures Unescape(Escaped(s)) == Some(s)
  {
    if s != [] {
      EscapedRoundTrip(s[1..]);
      EscapeCharThenRest(s[0], Escaped(s[1..]));
      assert [s[0]] + s[1..] == s;
    }
  }

  /** The Debug rendering is read back exactly: distinct names never share a label. */
  lemma DebugQuoteRoundTrip(s: string)
    ensures Unquote(DebugQuote(s)) == Some(s)
  {
    var q := DebugQuote(s);
    assert q[1..|q| - 1] == Escaped(s);
    EscapedRoundTrip(s);
  }

  lemma DebugQuoteInjective(s: string, t: string)
    requires DebugQuote(s) == DebugQuote(t)
    ensures s == t
  {
    DebugQuoteRoundTrip(s);
    DebugQuoteRoundTrip(t);
  }
}
