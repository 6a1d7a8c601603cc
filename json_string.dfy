/**
 * JSON string literals as the relay's `json.dumps` calls write them (CPython's
 * defaults: `ensure_ascii=True`), and a reader for string literals following
 * section 7 of RFC 8259, used as the escaping's inverse.
 */
module JsonString {
  import opened Wrappers

  // ---------------------------------------------------------------------------
  // Writing

  /** A lower-case hexadecimal digit, as `'\\u{0:04x}'` formats it. */
  function HexDigit(d: nat): (c: char)
    requires d < 16
    ensures '0' <= c <= '9' || 'a' <= c <= 'f'
  {
    if d < 10 then ('0' as int + d) as char else ('a' as int + d - 10) as char
  }

  function Hex4(n: nat): (h: string)
    requires n < 0x10000
    ensures |h| == 4
  {
    [HexDigit(n / 0x1000), HexDigit(n / 0x100 % 0x10), HexDigit(n / 0x10 % 0x10), HexDigit(n % 0x10)]
  }

  /** `\uXXXX` for one UTF-16 code unit. */
  function UnicodeEscape(n: nat): (e: string)
    requires n < 0x10000
    ensures |e| == 6
  {
    "\\u" + Hex4(n)
  }

  /**
   * One character inside a string literal: the two-character escapes for the
   * quote, the backslash and five control characters, printable ASCII as it
   * is, and everything else as `\uXXXX` (a surrogate pair above U+FFFF).
   */
  function EscapeChar(c: char): string {
    if c == '"' then "\\\""
    else if c == '\\' then "\\\\"
    else if c == '\n' then "\\n"
    else if c == '\r' then "\\r"
    else if c == '\t' then "\\t"
    else if c == '\U{8}' then "\\b"
    else if c == '\U{c}' then "\\f"
    else if ' ' <= c <= '~' then [c]
    else if c as int < 0x10000 then UnicodeEscape(c as int)
    else
      var v := c as int - 0x10000;
      UnicodeEscape(0xD800 + v / 0x400) + UnicodeEscape(0xDC00 + v % 0x400)
  }

  /** The body of the string literal `json.dumps(s)` writes, without its quotes. */
  function Escape(s: string): string {
    if s == [] then [] else EscapeChar(s[0]) + Escape(s[1..])
  }

  predicate Printable(s: string) {
    forall i :: 0 <= i < |s| ==> ' ' <= s[i] <= '~'
  }

  lemma PrintableAppend(a: string, b: string)
    requires Printable(a) && Printable(b)
    ensures Printable(a + b)
  {
    forall i | 0 <= i < |a + b|
      ensures ' ' <= (a + b)[i] <= '~'
    {
      if i >= |a| {
        assert (a + b)[i] == b[i - |a|];
      }
    }
  }

  /** With `ensure_ascii` every character written is printable ASCII: no line break can occur. */
  lemma {:induction false} EscapeIsPrintable(s: string)
    ensures Printable(Escape(s))
  {
    if s != [] {
      var c := s[0];
      assert Printable(EscapeChar(c)) by {
        if !(' ' <= c <= '~') && c !in "\"\\\n\r\t\U{8}\U{c}" {
          if c as int < 0x10000 {
            assert Printable(UnicodeEscape(c as int));
          } else {
            var v := c as int - 0x10000;
            assert Printable(UnicodeEscape(0xD800 + v / 0x400));
            assert Printable(UnicodeEscape(0xDC00 + v % 0x400));
            PrintableAppend(UnicodeEscape(0xD800 + v / 0x400), UnicodeEscape(0xDC00 + v % 0x400));
          }
        }
      }
      EscapeIsPrintable(s[1..]);
      PrintableAppend(EscapeChar(c), Escape(s[1..]));
    }
  }

  // ---------------------------------------------------------------------------
  // Reading (RFC 8259, section 7)

  function HexValue(c: char): (r: Option<nat>)
    ensures r.Some? ==> r.value < 16
  {
    if '0' <= c <= '9' then Some(c as int - '0' as int)
    else if 'a' <= c <= 'f' then Some(c as int - 'a' as int + 10)
    else if 'A' <= c <= 'F' then Some(c as int - 'A' as int + 10)
    else None
  }

  function ParseHex4(h: string): (r: Option<nat>)
    requires |h| == 4
    ensures r.Some? ==> r.value < 0x10000
  {
    match (HexValue(h[0]), HexValue(h[1]), HexValue(h[2]), HexValue(h[3]))
    case (Some(a), Some(b), Some(c), Some(d)) => Some(a * 0x1000 + b * 0x100 + c * 0x10 + d)
    case _ => None
  }

  /** The character a surrogate pair stands for. */
  function FromSurrogates(hi: nat, lo: nat): (c: char)
    requires 0xD800 <= hi < 0xDC00 && 0xDC00 <= lo < 0xE000
  {
    var high := hi - 0xD800;
    assert high * 0x400 <= 0x3FF * 0x400;
    (0x10000 + high * 0x400 + (lo - 0xDC00)) as char
  }

  /** The character an escape at the start of `t` stands for, and how many characters it takes. */
  function EscapeAt(t: string): (r: Option<(char, nat)>)
    requires |t| >= 1 && t[0] == '\\'
    ensures r.Some? ==> 2 <= r.value.1 <= |t|
  {
    if |t| < 2 then None
    else if t[1] == '"' then Some(('"', 2))
    else if t[1] == '\\' then Some(('\\', 2))
    else if t[1] == '/' then Some(('/', 2))
    else if t[1] == 'b' then Some(('\U{8}', 2))
    else if t[1] == 'f' then Some(('\U{c}', 2))
    else if t[1] == 'n' then Some(('\n', 2))
    else if t[1] == 'r' then Some(('\r', 2))
    else if t[1] == 't' then Some(('\t', 2))
    else if t[1] != 'u' || |t| < 6 then None
    else match ParseHex4(t[2..6])
      case None => None
      case Some(hi) =>
        if hi < 0xD800 || 0xE000 <= hi then Some((hi as char, 6))
        else if 0xDC00 <= hi || |t| < 12 || t[6..8] != "\\u" then None
        else match ParseHex4(t[8..12])
          case Some(lo) => if 0xDC00 <= lo < 0xE000 then Some((FromSurrogates(hi, lo), 12)) else None
          case None => None
  }

  datatype Parsed = Parsed(value: string, rest: string)

  function Prepend(c: char, r: Option<Parsed>): Option<Parsed> {
    match r
    case Some(p) => Some(Parsed([c] + p.value, p.rest))
    case None => None
  }

  /** Reads a string literal's body up to and including its closing quote. */
  function ParseBody(t: string): Option<Parsed>
    decreases |t|
  {
    if t == [] then None
    else if t[0] == '"' then Some(Parsed([], t[1..]))
    else if t[0] == '\\' then
      match EscapeAt(t)
      case Some((c, n)) => Prepend(c, ParseBody(t[n..]))
      case None => None
    else if t[0] < ' ' then None
    else Prepend(t[0], ParseBody(t[1..]))
  }

  // ---------------------------------------------------------------------------
  // Reading what was written

  lemma HexDigitRead(d: nat)
    requires d < 16
    ensures HexValue(HexDigit(d)) == Some(d)
  {
  }

  lemma Hex4RoundTrip(n: nat)
    requires n < 0x10000
    ensures ParseHex4(Hex4(n)) == Some(n)
  {
    var h := Hex4(n);
    HexDigitRead(n / 0x1000);
    HexDigitRead(n / 0x100 % 0x10);
    HexDigitRead(n / 0x10 % 0x10);
    HexDigitRead(n % 0x10);
    var a := n / 0x10;
    var b := a / 0x10;
    assert n == a * 0x10 + n % 0x10;
    assert a == b * 0x10 + a % 0x10;
    assert b == (n / 0x1000) * 0x10 + b % 0x10;
    assert n / 0x100 == b;
  }

  lemma UnicodeEscapeRead(n: nat, rest: string)
    requires n < 0x10000
    ensures var t := UnicodeEscape(n) + rest;
      |t| >= 6 && t[..2] == "\\u" && ParseHex4(t[2..6]) == Some(n)
  {
    var t := UnicodeEscape(n) + rest;
    assert t[2..6] == Hex4(n);
    Hex4RoundTrip(n);
  }

  lemma TwoCharEscapeRead(c: char, rest: string)
    requires c in "\"\\\n\r\t\U{8}\U{c}"
    ensures ParseBody(EscapeChar(c) + rest) == Prepend(c, ParseBody(rest))
  {
    var t := EscapeChar(c) + rest;
    assert |EscapeChar(c)| == 2 && t[0] == '\\';
    assert t[2..] == rest;
  }

  lemma BmpEscapeRead(c: char, rest: string)
    requires !(' ' <= c <= '~') && c !in "\"\\\n\r\t\U{8}\U{c}" && c as int < 0x10000
    ensures ParseBody(EscapeChar(c) + rest) == Prepend(c, ParseBody(rest))
  {
    var t := EscapeChar(c) + rest;
    assert t == UnicodeEscape(c as int) + rest;
    UnicodeEscapeRead(c as int, rest);
    assert t[6..] == rest;
    assert EscapeAt(t) == Some((c, 6));
  }

  /** The two halves of a surrogate pair are in their ranges and stand for the character split into them. */
  lemma SurrogatesRecombine(c: char)
    requires c as int >= 0x10000
    ensures var v := c as int - 0x10000;
      && 0xD800 <= 0xD800 + v / 0x400 < 0xDC00 && 0xDC00 <= 0xDC00 + v % 0x400 < 0xE000
      && FromSurrogates(0xD800 + v / 0x400, 0xDC00 + v % 0x400) == c
  {
    var v := c as int - 0x10000;
    assert v < 0x100000;
    assert v == v / 0x400 * 0x400 + v % 0x400;
  }

  /** A `\u` escape of a high surrogate followed by one of a low surrogate reads as one character. */
  lemma PairEscapeAt(t: string, hi: nat, lo: nat)
    requires |t| >= 12 && t[0] == '\\' && t[1] == 'u' && t[6..8] == "\\u"
    requires 0xD800 <= hi < 0xDC00 && 0xDC00 <= lo < 0xE000
    requires ParseHex4(t[2..6]) == Some(hi) && ParseHex4(t[8..12]) == Some(lo)
    ensures EscapeAt(t) == Some((FromSurrogates(hi, lo), 12))
  {
  }

  lemma SurrogatePairRead(c: char, rest: string)
    requires c as int >= 0x10000
    ensures ParseBody(EscapeChar(c) + rest) == Prepend(c, ParseBody(rest))
  {
    var v := c as int - 0x10000;
    var hi, lo := 0xD800 + v / 0x400, 0xDC00 + v % 0x400;
    SurrogatesRecombine(c);
    var tail := UnicodeEscape(lo) + rest;
    var t := UnicodeEscape(hi) + tail;
    assert EscapeChar(c) == UnicodeEscape(hi) + UnicodeEscape(lo) by {
      assert !(' ' <= c <= '~') && c as int >= 0x10000;
    }
    assert EscapeChar(c) + rest == t;
    UnicodeEscapeRead(hi, tail);
    UnicodeEscapeRead(lo, rest);
    assert t[6..] == tail;
    assert t[6..8] == tail[..2] && t[8..12] == tail[2..6];
    PairEscapeAt(t, hi, lo);
    assert t[12..] == rest;
  }

  /** Reading one written character gives it back and leaves the rest for what follows. */
  lemma EscapeCharRoundTrip(c: char, rest: string)
    ensures ParseBody(EscapeChar(c) + rest) == Prepend(c, ParseBody(rest))
  {
    if c in "\"\\\n\r\t\U{8}\U{c}" {
      TwoCharEscapeRead(c, rest);
    } else if ' ' <= c <= '~' {
      assert (EscapeChar(c) + rest)[1..] == rest;
    } else if c as int < 0x10000 {
      BmpEscapeRead(c, rest);
    } else {
      SurrogatePairRead(c, rest);
    }
  }

  /** `json.dumps` escaping is undone by a JSON reader: the text comes back and reading stops after the quote. */
  lemma {:induction false} EscapeRoundTrip(s: string, rest: string)
    ensures ParseBody(Escape(s) + "\"" + rest) == Some(Parsed(s, rest))
  {
    if s == [] {
      assert Escape(s) + "\"" + rest == "\"" + rest;
      assert ("\"" + rest)[1..] == rest;
    } else {
      assert Escape(s) + "\"" + rest == EscapeChar(s[0]) + (Escape(s[1..]) + "\"" + rest);
      EscapeCharRoundTrip(s[0], Escape(s[1..]) + "\"" + rest);
      EscapeRoundTrip(s[1..], rest);
      assert [s[0]] + s[1..] == s;
    }
  }
}
