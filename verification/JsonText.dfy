/**
 * Text the sink puts between quotes: escaped strings and hexadecimal bytes
 * (src/sinks/json_sink.cpp), and the readers of RFC 8259 section 7 that undo them.
 * A character stands for one byte.
 */
module JsonText {
  import opened Primitives
  import opened Sockaddr

  const QUOTE: char := '"'
  const BACKSLASH: char := '\\'
  const BACKSPACE: char := '\U{08}'
  const FORM_FEED: char := '\U{0c}'

  // ---- hexadecimal --------------------------------------------------------

  function HexDigit(d: nat): char
    requires d < 16
  {
    if d < 10 then '0' + d as char else 'a' + (d - 10) as char
  }

  function HexValue(c: char): Option<nat> {
    if '0' <= c <= '9' then Some((c - '0') as nat)
    else if 'a' <= c <= 'f' then Some((c - 'a') as nat + 10)
    else if 'A' <= c <= 'F' then Some((c - 'A') as nat + 10)
    else None
  }

  lemma HexDigitReadsBack(d: nat)
    requires d < 16
    ensures HexValue(HexDigit(d)) == Some(d) && HexDigit(d) > ' '
    ensures HexDigit(d) != QUOTE && HexDigit(d) != BACKSLASH
  {}

  function Hex(b: seq<byte>): string {
    if b == [] then "" else [HexDigit(b[0] / 16), HexDigit(b[0] % 16)] + Hex(b[1..])
  }

  function Unhex(s: string): Option<seq<byte>> {
    if s == "" then Some([])
    else if |s| == 1 then None
    else
      match (HexValue(s[0]), HexValue(s[1]), Unhex(s[2..]))
      case (Some(high), Some(low), Some(rest)) => if high < 16 && low < 16 then Some([16 * high + low] + rest) else None
      case _ => None
  }

  lemma {:induction false} HexReadsBack(b: seq<byte>)
    ensures Unhex(Hex(b)) == Some(b) && |Hex(b)| == 2 * |b|
  {
    if b != [] {
      HexDigitReadsBack(b[0] / 16);
      HexDigitReadsBack(b[0] % 16);
      HexReadsBack(b[1..]);
      assert Hex(b)[2..] == Hex(b[1..]);
      assert b == [b[0]] + b[1..];
    }
  }

  lemma {:induction false} HexAppend(b: seq<byte>, x: byte)
    ensures Hex(b + [x]) == Hex(b) + [HexDigit(x / 16), HexDigit(x % 16)]
    decreases |b|
  {
    if b == [] {
      assert Hex([x][1..]) == "";
    } else {
      HexAppend(b[1..], x);
      assert (b + [x])[1..] == b[1..] + [x];
    }
  }

  /** Render the first `size` bytes as lowercase hexadecimal; a null pointer has none. */
  method BytesToHex(bytes: Option<seq<byte>>, size: nat) returns (out: string)
    requires bytes.Some? ==> size <= |bytes.value|
    ensures bytes.Some? ==> out == Hex(bytes.value[..size])
    ensures bytes.None? ==> out == ""
  {
    out := "";
    if bytes.None? || size == 0 {
      return;
    }
    for i := 0 to size
      invariant out == Hex(bytes.value[..i])
    {
      var b := bytes.value[i];
      HexAppend(bytes.value[..i], b);
      assert bytes.value[..i + 1] == bytes.value[..i] + [b];
      out := out + [HexDigit(b / 16)];
      out := out + [HexDigit(b % 16)];
    }
  }

  // ---- escaping -----------------------------------------------------------

  /** What one byte becomes inside a JSON string. */
  function EscapeChar(c: char): string {
    if c == QUOTE then [BACKSLASH, QUOTE]
    else if c == BACKSLASH then [BACKSLASH, BACKSLASH]
    else if c == BACKSPACE then [BACKSLASH, 'b']
    else if c == FORM_FEED then [BACKSLASH, 'f']
    else if c == '\n' then [BACKSLASH, 'n']
    else if c == '\r' then [BACKSLASH, 'r']
    else if c == '\t' then [BACKSLASH, 't']
    else if c < ' ' then [BACKSLASH, 'u', '0', '0', HexDigit(c as nat / 16), HexDigit(c as nat % 16)]
    else [c]
  }

  function Escape(s: string): string {
    if s == "" then "" else EscapeChar(s[0]) + Escape(s[1..])
  }

  lemma {:induction false} EscapeAppend(s: string, c: char)
    ensures Escape(s + [c]) == Escape(s) + EscapeChar(c)
    decreases |s|
  {
    hide EscapeChar;
    if s == "" {
      assert Escape([c][1..]) == "";
      assert EscapeChar(c) + "" == EscapeChar(c);
    } else {
      EscapeAppend(s[1..], c);
      assert (s + [c])[1..] == s[1..] + [c];
      assert EscapeChar(s[0]) + (Escape(s[1..]) + EscapeChar(c)) == EscapeChar(s[0]) + Escape(s[1..]) + EscapeChar(c);
    }
  }

  lemma EscapeOfNothing()
    ensures Escape("") == ""
  {}

  lemma EscapeStep(s: string, i: nat)
    requires i < |s|
    ensures Escape(s[..i + 1]) == Escape(s[..i]) + EscapeChar(s[i])
  {
    EscapeAppend(s[..i], s[i]);
    assert s[..i + 1] == s[..i] + [s[i]];
  }

  lemma FirstNul(s: string) returns (end: nat)
    requires NUL in s
    ensures end < |s| && s[end] == NUL && (forall j :: 0 <= j < end ==> s[j] != NUL)
    ensures CString(s) == s[..end]
  {
    CStringFacts(s);
    end := |CString(s)|;
    assert CString(s) == s[..end];
    assert forall j :: 0 <= j < end ==> s[j] == CString(s)[j] && CString(s)[j] in CString(s);
  }

  /** The `std::string` overload. */
  method JsonEscape(s: string) returns (out: string)
    ensures out == Escape(s)
  {
    out := "";
    for i := 0 to |s|
      invariant out == Escape(s[..i])
    {
      EscapeStep(s, i);
      out := out + EscapeChar(s[i]);
    }
    assert s[..|s|] == s;
  }

  /** The `const char*` overload: a null pointer, or memory that holds a NUL somewhere. */
  method JsonEscapeCString(p: Option<string>) returns (out: string)
    requires p.Some? ==> NUL in p.value
    ensures out == if p.Some? then Escape(CString(p.value)) else ""
  {
    out := "";
    if p.None? {
      return;
    }
    hide EscapeChar, Escape, CString;
    ghost var end := FirstNul(p.value);
    var i := 0;
    assert p.value[..0] == "";
    EscapeOfNothing();
    while p.value[i] != NUL
      invariant i <= end
      invariant out == Escape(p.value[..i])
      decreases end - i
    {
      EscapeStep(p.value, i);
      out := out + EscapeChar(p.value[i]);
      i := i + 1;
    }
  }

  // ---- reading a string back ----------------------------------------------

  /** The byte a two-character escape stands for (RFC 8259 section 7). */
  function ShortEscape(c: char): Option<char> {
    if c == QUOTE || c == BACKSLASH || c == '/' then Some(c)
    else if c == 'b' then Some(BACKSPACE)
    else if c == 'f' then Some(FORM_FEED)
    else if c == 'n' then Some('\n')
    else if c == 'r' then Some('\r')
    else if c == 't' then Some('\t')
    else None
  }

  /** The code of four hexadecimal digits, if it is ASCII and so one byte. */
  function AsciiCode(a: char, b: char, c: char, d: char): Option<char> {
    match (HexValue(a), HexValue(b), HexValue(c), HexValue(d))
    case (Some(w), Some(x), Some(y), Some(z)) =>
      if w == 0 && x == 0 && y < 8 && z < 16 then Some((16 * y + z) as char) else None
    case _ => None
  }

  /** Read up to the closing quote: the bytes meant and the text after the quote. */
  function ReadString(t: string): (r: Option<(string, string)>)
    ensures r.Some? ==> |r.value.1| < |t|
  {
    if t == "" || t[0] < ' ' then None
    else if t[0] == QUOTE then Some(("", t[1..]))
    else if t[0] == BACKSLASH then
      if |t| >= 6 && t[1] == 'u' then
        match (AsciiCode(t[2], t[3], t[4], t[5]), ReadString(t[6..]))
        case (Some(c), Some((s, rest))) => Some(([c] + s, rest))
        case _ => None
      else if |t| >= 2 then
        match (ShortEscape(t[1]), ReadString(t[2..]))
        case (Some(c), Some((s, rest))) => Some(([c] + s, rest))
        case _ => None
      else None
    else
      match ReadString(t[1..]) case Some((s, rest)) => Some(([t[0]] + s, rest)) case None => None
  }

  /** One escaped byte is read back as that byte, whatever follows. */
  lemma ReadEscapedChar(c: char, t: string)
    ensures ReadString(EscapeChar(c) + t)
            == match ReadString(t) case Some((s, rest)) => Some(([c] + s, rest)) case None => None
  {
    var e := EscapeChar(c);
    assert (e + t)[|e|..] == t;
    if |e| == 6 {
      HexDigitReadsBack(c as nat / 16);
      HexDigitReadsBack(c as nat % 16);
      assert AsciiCode((e + t)[2], (e + t)[3], (e + t)[4], (e + t)[5]) == Some(c);
    }
  }

  /** Escaping loses nothing: an RFC 8259 reader gets every byte string back. */
  lemma {:induction false} EscapeReadsBack(s: string, rest: string)
    ensures ReadString(Escape(s) + [QUOTE] + rest) == Some((s, rest))
    decreases |s|
  {
    hide EscapeChar;
    if s == "" {
      var t := Escape(s) + [QUOTE] + rest;
      assert t[0] == QUOTE && t[1..] == rest;
    } else {
      var t := Escape(s[1..]) + [QUOTE] + rest;
      EscapeReadsBack(s[1..], rest);
      ReadEscapedChar(s[0], t);
      assert Escape(s) + [QUOTE] + rest == EscapeChar(s[0]) + t;
      assert s == [s[0]] + s[1..];
    }
  }

  /** The grammar of section 7: unescaped bytes from 0x20 except quote and backslash, or whole escapes. */
  predicate IsStringBody(t: string) {
    if t == "" then true
    else if t[0] != BACKSLASH then t[0] >= ' ' && t[0] != QUOTE && IsStringBody(t[1..])
    else if |t| >= 6 && t[1] == 'u' then (forall i :: 2 <= i < 6 ==> HexValue(t[i]).Some?) && IsStringBody(t[6..])
    else |t| >= 2 && ShortEscape(t[1]).Some? && IsStringBody(t[2..])
  }

  lemma EscapedCharExtendsBody(c: char, t: string)
    requires IsStringBody(t)
    ensures IsStringBody(EscapeChar(c) + t)
    ensures forall i :: 0 <= i < |EscapeChar(c)| ==> EscapeChar(c)[i] >= ' '
  {
    var e := EscapeChar(c);
    assert (e + t)[|e|..] == t;
    if |e| == 6 {
      HexDigitReadsBack(c as nat / 16);
      HexDigitReadsBack(c as nat % 16);
      assert (e + t)[4] == HexDigit(c as nat / 16) && (e + t)[5] == HexDigit(c as nat % 16);
    }
  }

  /** Escaped text is a JSON string body: no control byte, no bare quote, no bare backslash. */
  lemma {:induction false} EscapeIsStringBody(s: string)
    ensures IsStringBody(Escape(s))
    ensures forall i :: 0 <= i < |Escape(s)| ==> Escape(s)[i] >= ' '
    decreases |s|
  {
    hide EscapeChar;
    if s != "" {
      EscapeIsStringBody(s[1..]);
      EscapedCharExtendsBody(s[0], Escape(s[1..]));
    }
  }

  /** Names made of ordinary characters are printed as they are. */
  predicate Plain(s: string) { forall i :: 0 <= i < |s| ==> s[i] >= ' ' && s[i] != QUOTE && s[i] != BACKSLASH }

  lemma {:induction false} PlainEscapesToItself(s: string)
    requires Plain(s)
    ensures Escape(s) == s
    decreases |s|
  {
    if s != "" {
      PlainEscapesToItself(s[1..]);
      assert s == [s[0]] + s[1..];
    }
  }
}
