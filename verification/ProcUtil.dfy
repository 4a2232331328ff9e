/** Text helpers over `/proc` files (src/util/proc_util.cpp). */
module ProcUtil {
  import opened Primitives

  /** What `operator>>` treats as white space in the classic locale. */
  predicate IsSpace(c: char) {
    c == ' ' || c == '\t' || c == '\n' || c == '\r' || c == '\U{0b}' || c == '\U{0c}'
  }

  // ---- trimming -----------------------------------------------------------

  function TrimRight(s: string, drop: set<char>): string
    decreases |s|
  {
    if s != "" && s[|s| - 1] in drop then TrimRight(s[..|s| - 1], drop) else s
  }

  /** `TrimRight` is the one prefix that ends in a kept character and leaves only dropped ones. */
  lemma {:induction false} TrimRightIsUnique(s: string, drop: set<char>, r: string)
    ensures r == TrimRight(s, drop) <==> IsTrimmed(s, drop, r)
    decreases |s|
  {
    if s != "" && s[|s| - 1] in drop {
      TrimRightIsUnique(s[..|s| - 1], drop, r);
      TrimmedDropsLast(s, drop, r);
    } else if s != "" && r <= s && |r| < |s| {
      assert s[|s| - 1] !in drop;
    }
  }

  /** `r` ends in a kept character and `s` goes on with dropped ones only. */
  predicate IsTrimmed(s: string, drop: set<char>, r: string) {
    && r <= s
    && (r == "" || r[|r| - 1] !in drop)
    && forall i :: |r| <= i < |s| ==> s[i] in drop
  }

  /** Dropping one more character at the end makes no difference to what is left. */
  lemma TrimmedDropsLast(s: string, drop: set<char>, r: string)
    requires s != "" && s[|s| - 1] in drop
    ensures IsTrimmed(s, drop, r) <==> IsTrimmed(s[..|s| - 1], drop, r)
  {
    var t := s[..|s| - 1];
    assert forall i :: 0 <= i < |t| ==> t[i] == s[i];
    if r <= s && |r| == |s| {
      assert r == s;
    }
    if r <= s && |r| < |s| {
      assert r == s[..|r|] == t[..|r|];
    }
    if r <= t {
      assert r == t[..|r|] == s[..|r|];
    }
  }

  function NulToSpace(raw: string): string {
    seq(|raw|, i requires 0 <= i < |raw| => if raw[i] == '\0' then ' ' else raw[i])
  }

  function NormalizedCmdline(raw: string): string { TrimRight(NulToSpace(raw), {' '}) }

  function Stripped(s: string): string { TrimRight(s, {'\n', '\r', ' '}) }

  /** The command line with each NUL a blank, up to the last character that is neither. */
  lemma NormalizedIs(raw: string, r: string)
    ensures r == NormalizedCmdline(raw) <==>
              && |r| <= |raw|
              && (forall i :: 0 <= i < |r| ==> r[i] == if raw[i] == '\0' then ' ' else raw[i])
              && (r == "" || r[|r| - 1] != ' ')
              && forall i :: |r| <= i < |raw| ==> raw[i] == '\0' || raw[i] == ' '
  {
    var spaced := NulToSpace(raw);
    TrimRightIsUnique(spaced, {' '}, r);
    if |r| <= |raw| && forall i :: 0 <= i < |r| ==> r[i] == if raw[i] == '\0' then ' ' else raw[i] {
      assert r == spaced[..|r|];
    }
    assert forall i :: 0 <= i < |raw| ==> (spaced[i] in {' '} <==> raw[i] == '\0' || raw[i] == ' ');
    if r == NormalizedCmdline(raw) {
      assert forall i :: |r| <= i < |raw| ==> spaced[i] in {' '};
    }
  }

  /** What `RStrip` drops. */
  lemma StrippedIs(s: string, r: string)
    ensures r == Stripped(s) <==>
              && r <= s
              && (r == "" || r[|r| - 1] !in {'\n', '\r', ' '})
              && forall i :: |r| <= i < |s| ==> s[i] == '\n' || s[i] == '\r' || s[i] == ' '
  {
    TrimRightIsUnique(s, {'\n', '\r', ' '}, r);
  }

  method NormalizeCmdline(raw: string) returns (line: string)
    ensures line == NormalizedCmdline(raw)
    ensures '\0' !in line && (line == "" || line[|line| - 1] != ' ')
  {
    line := raw;
    if |raw| == 0 {
      return;
    }
    var i := 0;
    while i < |line|
      invariant 0 <= i <= |line| == |raw|
      invariant forall j :: 0 <= j < i ==> line[j] == NulToSpace(raw)[j]
      invariant forall j :: i <= j < |line| ==> line[j] == raw[j]
    {
      if line[i] == '\0' {
        line := line[i := ' '];
      }
      i := i + 1;
    }
    assert line == NulToSpace(raw);
    while |line| > 0 && line[|line| - 1] == ' '
      invariant line <= NulToSpace(raw)
      invariant TrimRight(line, {' '}) == NormalizedCmdline(raw)
    {
      line := line[..|line| - 1];
    }
  }

  method RStrip(s: string) returns (t: string)
    ensures t == Stripped(s)
  {
    t := s;
    while |t| > 0 && (t[|t| - 1] == '\n' || t[|t| - 1] == '\r' || t[|t| - 1] == ' ')
      invariant Stripped(t) == Stripped(s)
    {
      t := t[..|t| - 1];
    }
  }

  // ---- field 22 of /proc/<pid>/stat ---------------------------------------

  predicate ClosesComm(s: string, i: int) { 0 <= i && i + 1 < |s| && s[i] == ')' && s[i + 1] == ' ' }

  /** `rfind(") ")` looking no further right than `from`; -1 for npos. */
  function LastCloseBefore(s: string, from: nat): (r: int)
    requires from <= |s|
    ensures r == -1 || (0 <= r < from && ClosesComm(s, r))
    ensures forall i :: r < i < from ==> !ClosesComm(s, i)
  {
    if from == 0 then -1
    else if ClosesComm(s, from - 1) then from - 1
    else LastCloseBefore(s, from - 1)
  }

  function SkipSpaces(s: string): (r: string)
    ensures |r| <= |s|
    ensures r != "" ==> !IsSpace(r[0])
  {
    if s != "" && IsSpace(s[0]) then SkipSpaces(s[1..]) else s
  }

  function TokenLength(s: string): (n: nat)
    ensures n <= |s|
    ensures s != "" && !IsSpace(s[0]) ==> n >= 1
  {
    if s == "" || IsSpace(s[0]) then 0 else 1 + TokenLength(s[1..])
  }

  /** The n-th white-space separated token of `s`, counting from 0. */
  function NthToken(s: string, n: nat): Option<string>
    decreases n
  {
    var t := SkipSpaces(s);
    if t == "" then None
    else if n == 0 then Some(t[..TokenLength(t)])
    else NthToken(t[TokenLength(t)..], n - 1)
  }

  /** `std::stoull` on a token: optional sign, then the longest digit run; None when it throws. */
  function Stoull(tok: string): Option<u64> {
    var signed := tok != "" && (tok[0] == '-' || tok[0] == '+');
    var body := if signed then tok[1..] else tok;
    var n := DigitRun(body);
    if n == 0 || DigitsValue(body[..n]) >= TWO_64 then None
    else if signed && tok[0] == '-' then Some(Sub64(0, DigitsValue(body[..n])))
    else Some(DigitsValue(body[..n]))
  }

  function StoullOrZero(tok: string): u64 {
    match Stoull(tok) case Some(v) => v case None => 0
  }

  function StartTimeTicks(line: string): u64 {
    var close := LastCloseBefore(line, |line|);
    if close == -1 then 0 else
      match NthToken(line[close + 2..], 19)
      case Some(tok) => StoullOrZero(tok)
      case None => 0
  }

  /** `stat_line.rfind(") ")` */
  method RFindClose(s: string) returns (close: int)
    ensures close == LastCloseBefore(s, |s|)
  {
    close := |s| - 1;
    while close >= 0 && !ClosesComm(s, close)
      invariant -1 <= close < |s|
      invariant LastCloseBefore(s, |s|) == LastCloseBefore(s, close + 1)
    {
      close := close - 1;
    }
  }

  /** The `iss >> tok` loop: the token whose index is `wanted`, if the stream gets that far. */
  method ReadToken(rest: string, wanted: nat) returns (tok: Option<string>)
    ensures tok == NthToken(rest, wanted)
  {
    var cursor, idx := rest, 0;
    while true
      invariant 0 <= idx <= wanted
      invariant NthToken(rest, wanted) == NthToken(cursor, wanted - idx)
      decreases wanted - idx
    {
      cursor := SkipSpaces(cursor);
      if cursor == "" {
        return None;
      }
      var n := TokenLength(cursor);
      if idx == wanted {
        return Some(cursor[..n]);
      }
      assert NthToken(cursor, wanted - idx) == NthToken(cursor[n..], wanted - idx - 1);
      cursor, idx := cursor[n..], idx + 1;
    }
  }

  method ParseStartTimeTicks(statLine: string) returns (ticks: u64)
    ensures ticks == StartTimeTicks(statLine)
  {
    if |statLine| == 0 {
      return 0;
    }
    var close := RFindClose(statLine);
    if close == -1 || close + 2 >= |statLine| {
      return 0;
    }
    var tok := ReadToken(statLine[close + 2..], 19);
    ticks := match tok case Some(t) => StoullOrZero(t) case None => 0;
  }

  // ---- what the parser is for ---------------------------------------------

  predicate IsField(f: string) {
    f != "" && forall i :: 0 <= i < |f| ==> !IsSpace(f[i]) && f[i] != ')'
  }

  predicate AllSpace(s: string) { forall i :: 0 <= i < |s| ==> IsSpace(s[i]) }

  /** The fields after comm, each followed by a blank except that `tail` follows the last. */
  function FieldsText(fields: seq<string>, tail: string): string {
    if fields == [] then tail
    else if |fields| == 1 then fields[0] + tail
    else fields[0] + " " + FieldsText(fields[1..], tail)
  }

  /** One line of `/proc/<pid>/stat` as the kernel formats it (proc(5)). */
  function StatLine(pid: string, comm: string, fields: seq<string>, tail: string): string {
    pid + " (" + comm + ") " + FieldsText(fields, tail)
  }

  lemma {:induction false} TokenLengthOfField(f: string, rest: string)
    requires IsField(f)
    requires rest == "" || IsSpace(rest[0])
    ensures TokenLength(f + rest) == |f|
    decreases |f|
  {
    assert (f + rest)[1..] == f[1..] + rest;
    if |f| == 1 {
      assert f[1..] + rest == rest;
    } else {
      TokenLengthOfField(f[1..], rest);
    }
  }

  lemma {:induction false} SkipSpacesOfBlank(s: string)
    requires AllSpace(s)
    ensures SkipSpaces(s) == ""
    decreases |s|
  {
    if s != "" { SkipSpacesOfBlank(s[1..]); }
  }

  /** What follows a leading field in the formatted text. */
  function AfterFirst(fields: seq<string>, tail: string): string
    requires fields != []
  {
    if |fields| == 1 then tail else " " + FieldsText(fields[1..], tail)
  }

  lemma FirstToken(fields: seq<string>, tail: string, n: nat)
    requires fields != [] && IsField(fields[0]) && AllSpace(tail)
    ensures NthToken(FieldsText(fields, tail), n) ==
            if n == 0 then Some(fields[0]) else NthToken(AfterFirst(fields, tail), n - 1)
    ensures NthToken(" " + FieldsText(fields, tail), n) == NthToken(FieldsText(fields, tail), n)
  {
    var text, f, rest := FieldsText(fields, tail), fields[0], AfterFirst(fields, tail);
    assert text == f + rest;
    TokenLengthOfField(f, rest);
    assert text[0] == f[0] && SkipSpaces(text) == text;
    assert text[..|f|] == f && text[|f|..] == rest;
    assert (" " + text)[1..] == text;
    assert SkipSpaces(" " + text) == text;
  }

  lemma NoTokenInBlank(s: string, n: nat)
    requires AllSpace(s)
    ensures NthToken(s, n) == None
  {
    SkipSpacesOfBlank(s);
  }

  predicate AllFields(fields: seq<string>) { forall k :: 0 <= k < |fields| ==> IsField(fields[k]) }

  lemma RestAreFields(fields: seq<string>)
    requires AllFields(fields) && fields != []
    ensures IsField(fields[0]) && AllFields(fields[1..])
  {
    hide IsField;
  }

  lemma NothingAfterLast(fields: seq<string>, tail: string, n: nat)
    requires |fields| <= 1 && AllSpace(tail)
    ensures NthToken(if fields == [] then FieldsText(fields, tail) else AfterFirst(fields, tail), n) == None
  {
    hide NthToken, AllSpace;
    NoTokenInBlank(tail, n);
  }

  /** Tokenising the formatted fields gives them back, whatever the leading blanks. */
  lemma {:induction false} NthTokenOfFields(fields: seq<string>, tail: string, n: nat)
    requires AllFields(fields) && AllSpace(tail)
    ensures NthToken(FieldsText(fields, tail), n) == if n < |fields| then Some(fields[n]) else None
    ensures fields != [] ==> NthToken(" " + FieldsText(fields, tail), n) == NthToken(FieldsText(fields, tail), n)
    decreases |fields|
  {
    hide NthToken, IsField, AllSpace, FieldsText, AllFields;
    if fields == [] {
      NothingAfterLast(fields, tail, n);
    } else {
      RestAreFields(fields);
      FirstToken(fields, tail, n);
      if n > 0 {
        if |fields| == 1 {
          NothingAfterLast(fields, tail, n - 1);
        } else {
          NthTokenOfFields(fields[1..], tail, n - 1);
        }
      }
    }
  }

  lemma {:induction false} FieldsTextHasNoClose(fields: seq<string>, tail: string)
    requires forall k :: 0 <= k < |fields| ==> IsField(fields[k])
    requires AllSpace(tail)
    ensures forall i :: 0 <= i < |FieldsText(fields, tail)| ==> FieldsText(fields, tail)[i] != ')'
  {
    if |fields| > 1 { FieldsTextHasNoClose(fields[1..], tail); }
  }

  /**
   * Field 22 is found whatever comm contains, blanks and parentheses included, because no
   * later field holds a ')'. A line with fewer fields gives 0.
   */
  lemma StartTimeIsField22(pid: string, comm: string, fields: seq<string>, tail: string)
    requires forall k :: 0 <= k < |fields| ==> IsField(fields[k])
    requires AllSpace(tail)
    ensures StartTimeTicks(StatLine(pid, comm, fields, tail)) ==
            if |fields| > 19 then StoullOrZero(fields[19]) else 0
  {
    var line, text := StatLine(pid, comm, fields, tail), FieldsText(fields, tail);
    var head := pid + " (" + comm;
    assert line == head + (") " + text);
    assert ClosesComm(line, |head|);
    FieldsTextHasNoClose(fields, tail);
    forall i | |head| < i < |line| ensures !ClosesComm(line, i) {
      if i >= |head| + 2 { assert line[i] == text[i - |head| - 2]; }
    }
    assert LastCloseBefore(line, |line|) == |head|;
    assert line[|head| + 2..] == text;
    NthTokenOfFields(fields, tail, 19);
  }

  /** A field the kernel printed with `%llu` reads back as the number itself. */
  lemma StoullOfDecimal(n: u64)
    ensures Stoull(Decimal(n)) == Some(n)
  {
    DecimalDenotes(n);
    var s := Decimal(n);
    assert IsDigit(s[0]);
    assert DigitRun(s) == |s|;
    assert s[..|s|] == s;
  }
}
