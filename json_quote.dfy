/**
 * `JSON.stringify` applied to a string, as the rewrite uses it to quote a
 * remote id and a remote-relative module name inside generated code, and
 * the matching decoder (the string literal's value as JavaScript reads it
 * back), so that quoting can be shown to lose nothing.
 *
 * Characters are Unicode scalar values, so the escaping of lone surrogates
 * has no counterpart here.
 */
module JsonQuote {
  import opened Wrappers

  const HexDigits := "0123456789abcdef"

  /** One lower-case hexadecimal digit. */
  function HexDigit(n: nat): (c: char)
    requires n < 16
    ensures HexValue(c) == Some(n)
  {
    HexDigits[n]
  }

  function HexValue(c: char): Option<nat>
  {
    if '0' <= c <= '9' then Some(c as nat - '0' as nat)
    else if 'a' <= c <= 'f' then Some(c as nat - 'a' as nat + 10)
    else if 'A' <= c <= 'F' then Some(c as nat - 'A' as nat + 10)
    else None
  }

  /** The short escapes of JSON: backspace, tab, line feed, form feed, carriage return, quote, backslash. */
  function ShortEscape(c: char): Option<char>
  {
    if c as int == 8 then Some('b')
    else if c == '\t' then Some('t')
    else if c == '\n' then Some('n')
    else if c as int == 12 then Some('f')
    else if c == '\r' then Some('r')
    else if c == '"' then Some('"')
    else if c == '\\' then Some('\\')
    else None
  }

  /** How `JSON.stringify` writes one character inside the quotes. */
  function Escape(c: char): (e: string)
    ensures |e| > 0
    ensures c != '\\' && c != '"' && c as int >= 0x20 ==> e == [c]
  {
    match ShortEscape(c)
    case Some(k) => ['\\', k]
    case None =>
      if c as int < 0x20 then ['\\', 'u', '0', '0', HexDigit(c as int / 16), HexDigit(c as int % 16)]
      else [c]
  }

  function EscapeAll(s: string): string
  {
    if s == [] then "" else Escape(s[0]) + EscapeAll(s[1..])
  }

  /** `JSON.stringify(s)` for a string `s`. */
  function Quote(s: string): (q: string)
    ensures |q| >= 2 && q[0] == '"' && q[|q| - 1] == '"'
  {
    "\"" + EscapeAll(s) + "\""
  }

  function Prepend(c: char, r: Option<string>): Option<string>
  {
    match r
    case None => None
    case Some(t) => Some([c] + t)
  }

  /** The character a short escape `\k` stands for. */
  function ShortUnescape(k: char): Option<char>
  {
    if k == 'b' then Some(8 as char)
    else if k == 't' then Some('\t')
    else if k == 'n' then Some('\n')
    else if k == 'f' then Some(12 as char)
    else if k == 'r' then Some('\r')
    else if k == '"' then Some('"')
    else if k == '\\' then Some('\\')
    else if k == '/' then Some('/')
    else None
  }

  /** The code point written by four hexadecimal digits, when it is a scalar value. */
  function Hex4(h: string): Option<char>
    requires |h| == 4
  {
    match (HexValue(h[0]), HexValue(h[1]), HexValue(h[2]), HexValue(h[3]))
    case (Some(a), Some(b), Some(c), Some(d)) =>
      var v := 4096 * a + 256 * b + 16 * c + d;
      if v < 0xD800 || 0xE000 <= v then Some(v as char) else None
    case _ => None
  }

  /** The value of the text between the quotes of a string literal; `None` when it is malformed. */
  function Unescape(t: string): Option<string>
    decreases |t|
  {
    if t == [] then Some([])
    else if t[0] == '\\' then
      if |t| < 2 then None
      else if t[1] == 'u' then
        if |t| < 6 then None
        else match Hex4(t[2..6])
          case None => None
          case Some(c) => Prepend(c, Unescape(t[6..]))
      else match ShortUnescape(t[1])
        case None => None
        case Some(c) => Prepend(c, Unescape(t[2..]))
    else if t[0] == '"' || t[0] as int < 0x20 then None
    else Prepend(t[0], Unescape(t[1..]))
  }

  /** The value of a double-quoted string literal. */
  function Unquote(q: string): Option<string>
  {
    if |q| >= 2 && q[0] == '"' && q[|q| - 1] == '"' then Unescape(q[1..|q| - 1]) else None
  }

  /** Reading back one escaped character. */
  lemma UnescapeOne(c: char, rest: string)
    ensures Unescape(Escape(c) + rest) == Prepend(c, Unescape(rest))
  {
    var t := Escape(c) + rest;
    match ShortEscape(c)
    case Some(k) =>
      assert t[0] == '\\' && t[1] == k && t[2..] == rest;
    case None =>
      if c as int < 0x20 {
        var hi, lo := c as int / 16, c as int % 16;
        assert t[0] == '\\' && t[1] == 'u' && t[6..] == rest;
        assert t[2..6] == ['0', '0', HexDigit(hi), HexDigit(lo)];
        assert Hex4(t[2..6]) == Some(c);
      } else {
        assert t[0] == c && t[1..] == rest;
      }
  }

  lemma {:induction false} UnescapeEscapeAll(s: string)
    ensures Unescape(EscapeAll(s)) == Some(s)
  {
    if s != [] {
      UnescapeEscapeAll(s[1..]);
      UnescapeOne(s[0], EscapeAll(s[1..]));
      assert [s[0]] + s[1..] == s;
    }
  }

  /** Quoting loses nothing: the generated literal reads back as the original string. */
  lemma QuoteRoundTrip(s: string)
    ensures Unquote(Quote(s)) == Some(s)
  {
    var q := Quote(s);
    assert q[1..|q| - 1] == EscapeAll(s);
    UnescapeEscapeAll(s);
  }

  /** A string without quotes, backslashes or control characters is quoted verbatim. */
  lemma {:induction false} QuotePlain(s: string)
    requires forall k :: 0 <= k < |s| ==> s[k] != '"' && s[k] != '\\' && s[k] as int >= 0x20
    ensures Quote(s) == "\"" + s + "\""
  {
    EscapeAllPlain(s);
  }

  lemma {:induction false} EscapeAllPlain(s: string)
    requires forall k :: 0 <= k < |s| ==> s[k] != '"' && s[k] != '\\' && s[k] as int >= 0x20
    ensures EscapeAll(s) == s
  {
    if s != [] {
      EscapeAllPlain(s[1..]);
      assert [s[0]] + s[1..] == s;
    }
  }
}
