/**
 * The parts of Go's `strconv` package the query prettifier relies on: decimal
 * formatting of argument numbers and `%q` quoting of string arguments.
 */
module Strconv {
  import opened Wrappers

  // ----- strconv.Itoa

  function Digit(d: nat): char
    requires d < 10
  {
    "0123456789"[d]
  }

  predicate IsDigits(s: string) {
    forall i :: 0 <= i < |s| ==> '0' <= s[i] <= '9'
  }

  /** `strconv.Itoa(n)` for n >= 0: decimal digits, no leading zero. */
  function Itoa(n: nat): (r: string)
    ensures |r| >= 1 && IsDigits(r)
    ensures r[0] == '0' ==> n == 0
  {
    if n < 10 then [Digit(n)] else Itoa(n / 10) + [Digit(n % 10)]
  }

  /** The number a string of decimal digits denotes. */
  function ParseDecimal(s: string): nat
    requires IsDigits(s)
  {
    if s == [] then 0 else 10 * ParseDecimal(s[..|s| - 1]) + (s[|s| - 1] as int - '0' as int)
  }

  lemma {:induction false} ItoaRoundTrip(n: nat)
    ensures ParseDecimal(Itoa(n)) == n
  {
    if n >= 10 {
      ItoaRoundTrip(n / 10);
      var r := Itoa(n);
      assert r[..|r| - 1] == Itoa(n / 10);
    }
  }

  // ----- %q of a string (strconv.Quote)

  function HexDigit(d: nat): char
    requires d < 16
  {
    "0123456789abcdef"[d]
  }

  predicate IsHex(c: char) {
    ('0' <= c <= '9') || ('a' <= c <= 'f')
  }

  function HexValue(c: char): nat
    requires IsHex(c)
  {
    if '0' <= c <= '9' then c as int - '0' as int else c as int - 'a' as int + 10
  }

  /** The ASCII control characters, tab and newline among them. */
  predicate IsControl(c: char) {
    c as int < 0x20 || c as int == 0x7F
  }

  /** How `%q` writes one character between the quotes. */
  function EscapeChar(c: char): string {
    var n := c as int;
    if c == '"' then "\\\""
    else if c == '\\' then "\\\\"
    else if !IsControl(c) then [c]
    else if n == 7 then "\\a"
    else if n == 8 then "\\b"
    else if n == 12 then "\\f"
    else if n == 10 then "\\n"
    else if n == 13 then "\\r"
    else if n == 9 then "\\t"
    else if n == 11 then "\\v"
    else "\\x" + [HexDigit(n / 16), HexDigit(n % 16)]
  }

  function Escape(s: string): string {
    if s == [] then [] else EscapeChar(s[0]) + Escape(s[1..])
  }

  /** `fmt.Sprintf("%q", s)`. */
  function Quote(s: string): (r: string)
    ensures |r| >= 2 && r[0] == '"' && r[|r| - 1] == '"'
  {
    "\"" + Escape(s) + "\""
  }

  /** Reading escapes back: the inverse of `Escape`. */
  function Unescape(s: string): Option<string>
    decreases |s|
  {
    if s == [] then Some([])
    else if s[0] == '"' then None
    else if s[0] != '\\' then Prepend(s[0], Unescape(s[1..]))
    else if |s| < 2 then None
    else if s[1] == '"' || s[1] == '\\' then Prepend(s[1], Unescape(s[2..]))
    else if s[1] == 'a' then Prepend(7 as char, Unescape(s[2..]))
    else if s[1] == 'b' then Prepend(8 as char, Unescape(s[2..]))
    else if s[1] == 'f' then Prepend(12 as char, Unescape(s[2..]))
    else if s[1] == 'n' then Prepend(10 as char, Unescape(s[2..]))
    else if s[1] == 'r' then Prepend(13 as char, Unescape(s[2..]))
    else if s[1] == 't' then Prepend(9 as char, Unescape(s[2..]))
    else if s[1] == 'v' then Prepend(11 as char, Unescape(s[2..]))
    else if s[1] == 'x' && |s| >= 4 && IsHex(s[2]) && IsHex(s[3]) then
      Prepend((16 * HexValue(s[2]) + HexValue(s[3])) as char, Unescape(s[4..]))
    else None
  }

  function Prepend(c: char, rest: Option<string>): Option<string> {
    match rest
    case None => None
    case Some(r) => Some([c] + r)
  }

  /** Reading a quoted string back. */
  function Unquote(q: string): Option<string> {
    if |q| >= 2 && q[0] == '"' && q[|q| - 1] == '"' then Unescape(q[1..|q| - 1]) else None
  }

  lemma UnescapeChar(c: char, rest: string)
    ensures Unescape(EscapeChar(c) + rest) == Prepend(c, Unescape(rest))
  {
    var e := EscapeChar(c);
    var s := e + rest;
    var n := c as int;
    if |e| == 1 {
      assert s[1..] == rest;
    } else if |e| == 2 {
      assert s[2..] == rest;
    } else {
      UnescapeHexChar(c, rest);
    }
  }

  /** A control character without a letter escape is written as `\xhh`. */
  lemma UnescapeHexChar(c: char, rest: string)
    requires IsControl(c) && !(7 <= c as int <= 13)
    ensures Unescape(EscapeChar(c) + rest) == Prepend(c, Unescape(rest))
  {
    var n := c as int;
    var e := EscapeChar(c);
    var s := e + rest;
    assert e == ['\\', 'x', HexDigit(n / 16), HexDigit(n % 16)];
    assert s[4..] == rest;
    assert HexValue(HexDigit(n / 16)) == n / 16;
    assert HexValue(HexDigit(n % 16)) == n % 16;
  }

  lemma {:induction false} UnescapeEscape(s: string)
    ensures Unescape(Escape(s)) == Some(s)
  {
    if s != [] {
      UnescapeEscape(s[1..]);
      UnescapeChar(s[0], Escape(s[1..]));
      assert [s[0]] + s[1..] == s;
    }
  }

  /** Quoting loses nothing: reading the quoted text back gives the string. */
  lemma UnquoteQuote(s: string)
    ensures Unquote(Quote(s)) == Some(s)
  {
    var q := Quote(s);
    assert q[1..|q| - 1] == Escape(s);
    UnescapeEscape(s);
  }

  lemma {:induction false} EscapeHasNoControl(s: string)
    ensures forall i :: 0 <= i < |Escape(s)| ==> !IsControl(Escape(s)[i])
  {
    if s != [] {
      EscapeHasNoControl(s[1..]);
      var e := EscapeChar(s[0]);
      assert forall i :: 0 <= i < |e| ==> !IsControl(e[i]);
      assert forall i :: 0 <= i < |Escape(s)| ==>
        Escape(s)[i] == if i < |e| then e[i] else Escape(s[1..])[i - |e|];
    }
  }

  /** A quoted value holds no control character: tabs and newlines of a string argument
      appear escaped in the log, untouched by the cleanup. */
  lemma QuoteHasNoControl(s: string)
    ensures forall i :: 0 <= i < |Quote(s)| ==> !IsControl(Quote(s)[i])
  {
    EscapeHasNoControl(s);
    var q := Quote(s);
    assert forall i :: 1 <= i < |q| - 1 ==> q[i] == Escape(s)[i - 1];
  }
}
