/** Printing a basic string of TOML v1.0.0 (section "String"), and reading it back. */
module TomlString {
  import opened Collections

  // ---- the printer ----

  const HEX := "0123456789ABCDEF"

  function HexDigit(n: nat): char
    requires n < 16
  {
    HEX[n]
  }

  function Hex(code: nat, width: nat): string
    decreases width
  {
    if width == 0 then "" else Hex(code / 16, width - 1) + [HexDigit(code % 16)]
  }

  predicate IsControl(c: char) {
    c as int <= 0x1f || c as int == 0x7f || 0x80 <= c as int <= 0x9f
  }

  function Escaped(c: char): string {
    if c == '"' then "\\\""
    else if c == '\\' then "\\\\"
    else if c == 8 as char then "\\b"
    else if c == '\t' then "\\t"
    else if c == '\n' then "\\n"
    else if c == 12 as char then "\\f"
    else if c == '\r' then "\\r"
    else if IsControl(c) then
      if c as int <= 0xffff then "\\u" + Hex(c as int, 4) else "\\U" + Hex(c as int, 8)
    else [c]
  }

  function Body(value: string): string {
    if value == "" then "" else Escaped(value[0]) + Body(value[1..])
  }

  lemma {:induction false} BodyAppend(a: string, c: char)
    ensures Body(a + [c]) == Body(a) + Escaped(c)
  {
    if a == "" {
      assert a + [c] == [c] && [c][1..] == "";
    } else {
      assert (a + [c])[1..] == a[1..] + [c];
      BodyAppend(a[1..], c);
    }
  }

  lemma EmptyBody()
    ensures Body("") == ""
  {
  }

  lemma QuotesArePlain()
    ensures !IsControl('"')
  {
  }

  method TomlString(value: string) returns (encoded: string)
    ensures encoded == "\"" + Body(value) + "\""
    ensures Read(encoded) == Some(value)
    ensures forall i :: 0 <= i < |encoded| ==> !IsControl(encoded[i])
  {
    hide Escaped, Read, ReadBody, IsControl, Body;
    encoded := "\"";
    assert Body(value[..0]) == "" by { EmptyBody(); }
    for i := 0 to |value|
      invariant encoded == "\"" + Body(value[..i])
    {
      BodyAppend(value[..i], value[i]);
      assert value[..i + 1] == value[..i] + [value[i]];
      encoded := encoded + Escaped(value[i]);
    }
    assert value[..|value|] == value;
    encoded := encoded + "\"";
    RoundTrip(value);
    NoControls(value);
    QuotesArePlain();
  }

  // ---- an independent reader ----

  function DigitOf(c: char): Option<nat> {
    if '0' <= c <= '9' then Some(c as int - '0' as int)
    else if 'A' <= c <= 'F' then Some(c as int - 'A' as int + 10)
    else if 'a' <= c <= 'f' then Some(c as int - 'a' as int + 10)
    else None
  }

  function ReadHex(s: string): Option<nat> {
    if s == "" then Some(0)
    else
      var high, low := ReadHex(s[..|s| - 1]), DigitOf(s[|s| - 1]);
      if high.Some? && low.Some? then Some(high.value * 16 + low.value) else None
  }

  predicate IsScalar(n: nat) {
    n < 0xD800 || 0xE000 <= n < 0x110000
  }

  /** Characters the grammar allows unescaped. */
  predicate Plain(c: char) {
    c == '\t' || c == ' ' || c == '!' || '#' <= c <= '[' || ']' <= c <= '~' || c as int >= 0x80
  }

  function Simple(c: char): Option<char> {
    if c == 'b' then Some(8 as char)
    else if c == 't' then Some('\t')
    else if c == 'n' then Some('\n')
    else if c == 'f' then Some(12 as char)
    else if c == 'r' then Some('\r')
    else if c == '"' then Some('"')
    else if c == '\\' then Some('\\')
    else None
  }

  /** Reads up to the closing quote, which must end the text. */
  function ReadBody(s: string): Option<string>
    decreases |s|
  {
    if s == "" then None
    else if s[0] == '"' then if s == "\"" then Some("") else None
    else if s[0] != '\\' then
      if !Plain(s[0]) then None else Prepend(s[0], ReadBody(s[1..]))
    else if |s| < 2 then None
    else if s[1] == 'u' then ReadCode(s, 4)
    else if s[1] == 'U' then ReadCode(s, 8)
    else if Simple(s[1]).Some? then Prepend(Simple(s[1]).value, ReadBody(s[2..]))
    else None
  }

  function ReadCode(s: string, width: nat): Option<string>
    requires |s| >= 2
    decreases |s|, 0
  {
    if |s| < 2 + width then None
    else
      var code := ReadHex(s[2..2 + width]);
      if code.None? || !IsScalar(code.value) then None else Prepend(code.value as char, ReadBody(s[2 + width..]))
  }

  function Prepend(c: char, rest: Option<string>): Option<string> {
    if rest.None? then None else Some([c] + rest.value)
  }

  function Read(s: string): Option<string> {
    if s == "" || s[0] != '"' then None else ReadBody(s[1..])
  }

  // ---- the round trip ----

  lemma HexDigitRead(n: nat)
    requires n < 16
    ensures DigitOf(HexDigit(n)) == Some(n)
  {
  }

  lemma HexUnfolds(code: nat, width: nat)
    requires width > 0
    ensures Hex(code, width) == Hex(code / 16, width - 1) + [HexDigit(code % 16)]
  {
  }

  lemma ReadHexMore(high: string, n: nat, digit: char, d: nat)
    requires ReadHex(high) == Some(n) && DigitOf(digit) == Some(d)
    ensures ReadHex(high + [digit]) == Some(n * 16 + d)
  {
    assert (high + [digit])[..|high|] == high;
  }

  lemma {:induction false} HexRead(code: nat, width: nat)
    requires code < Power16(width)
    ensures |Hex(code, width)| == width && ReadHex(Hex(code, width)) == Some(code)
  {
    if width > 0 {
      var q, d := code / 16, code % 16;
      assert code == q * 16 + d && q < Power16(width - 1);
      hide Hex, Power16, DigitOf, HexDigit, ReadHex;
      HexRead(q, width - 1);
      HexDigitRead(d);
      HexUnfolds(code, width);
      ReadHexMore(Hex(q, width - 1), q, HexDigit(d), d);
    }
  }

  function Power16(width: nat): nat {
    if width == 0 then 1 else 16 * Power16(width - 1)
  }

  predicate IsSimple(c: char) {
    c in {'"', '\\', 8 as char, '\t', '\n', 12 as char, '\r'}
  }

  lemma ReadSimple(c: char, rest: string)
    requires IsSimple(c)
    ensures ReadBody(Escaped(c) + rest) == Prepend(c, ReadBody(rest))
  {
    var e := Escaped(c);
    assert |e| == 2 && e[0] == '\\' && Simple(e[1]) == Some(c) && e[1] != 'u' && e[1] != 'U';
    hide Escaped, Simple;
    var s := e + rest;
    assert s[0] == e[0] && s[1] == e[1] && s[2..] == rest;
  }

  lemma ReadControl(c: char, rest: string)
    requires IsControl(c) && !IsSimple(c)
    ensures ReadBody(Escaped(c) + rest) == Prepend(c, ReadBody(rest))
  {
    var h := Hex(c as int, 4);
    assert Power16(4) == 0x10000 by { assert Power16(1) == 16 && Power16(2) == 256 && Power16(3) == 4096; }
    HexRead(c as int, 4);
    assert Escaped(c) == "\\u" + h;
    hide Escaped, Hex, ReadHex;
    var s := "\\u" + h + rest;
    assert s[0] == '\\' && s[1] == 'u' && s[2..6] == h && s[6..] == rest;
    assert ReadCode(s, 4) == Prepend(c, ReadBody(rest));
  }

  lemma ReadPlain(c: char, rest: string)
    requires !IsControl(c) && !IsSimple(c)
    ensures ReadBody(Escaped(c) + rest) == Prepend(c, ReadBody(rest))
  {
    assert Escaped(c) == [c] && Plain(c);
    hide Escaped;
    var s := [c] + rest;
    assert s[0] == c && s[1..] == rest;
  }

  /** Reading one printed character and whatever follows. */
  lemma ReadEscaped(c: char, rest: string)
    ensures ReadBody(Escaped(c) + rest) == Prepend(c, ReadBody(rest))
  {
    hide ReadBody, Escaped, IsSimple, IsControl;
    if IsSimple(c) { ReadSimple(c, rest); } else if IsControl(c) { ReadControl(c, rest); } else { ReadPlain(c, rest); }
  }

  lemma {:induction false} ReadPrinted(value: string)
    ensures ReadBody(Body(value) + "\"") == Some(value)
  {
    if value == "" {
      assert Body(value) + "\"" == "\"";
    } else {
      hide ReadBody, Escaped;
      ReadPrinted(value[1..]);
      assert value == [value[0]] + value[1..];
      assert Body(value) + "\"" == Escaped(value[0]) + (Body(value[1..]) + "\"");
      ReadEscaped(value[0], Body(value[1..]) + "\"");
    }
  }

  /** Reading what was printed gives the value back, for every string. */
  lemma RoundTrip(value: string)
    ensures Read("\"" + Body(value) + "\"") == Some(value)
  {
    var s := "\"" + Body(value) + "\"";
    assert s[1..] == Body(value) + "\"";
    ReadPrinted(value);
  }

  /** Two values never print alike. */
  lemma Injective(a: string, b: string)
    requires Body(a) == Body(b)
    ensures a == b
  {
    RoundTrip(a);
    RoundTrip(b);
  }

  lemma {:induction false} HexIsPlain(code: nat, width: nat)
    ensures forall i :: 0 <= i < |Hex(code, width)| ==> !IsControl(Hex(code, width)[i])
  {
    if width > 0 { HexIsPlain(code / 16, width - 1); }
  }

  /** No control character appears in the output. */
  lemma {:induction false} NoControls(value: string)
    ensures forall i :: 0 <= i < |Body(value)| ==> !IsControl(Body(value)[i])
  {
    if value != "" {
      NoControls(value[1..]);
      HexIsPlain(value[0] as int, 4);
    }
  }
}
