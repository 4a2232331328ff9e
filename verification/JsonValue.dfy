/**
 * The JSON values the sink prints, their compact text, and a reader for the part of RFC 8259
 * they need: objects (section 4), integers (section 6) and strings (section 7).
 */
module JsonValue {
  import opened Primitives
  import opened JsonText

  datatype Json = Num(number: int) | Str(text: string) | Obj(members: Members)

  datatype Members = NoMembers | Member(name: string, value: Json, others: Members)

  // ---- printing -----------------------------------------------------------

  /** `operator<<` on an integer. */
  function IntText(n: int): string { if n < 0 then "-" + Decimal(-n) else Decimal(n) }

  function Quoted(s: string): string { [QUOTE] + Escape(s) + [QUOTE] }

  function Render(j: Json): string {
    match j
    case Num(n) => IntText(n)
    case Str(s) => Quoted(s)
    case Obj(ms) => "{" + RenderMembers(ms) + "}"
  }

  function RenderMembers(ms: Members): string {
    match ms
    case NoMembers => ""
    case Member(n, v, NoMembers) => Quoted(n) + ":" + Render(v)
    case Member(n, v, others) => Quoted(n) + ":" + Render(v) + "," + RenderMembers(others)
  }

  // ---- reading ------------------------------------------------------------

  type Parse<T> = Option<(T, string)>

  /** Section 6 without fraction and exponent: a run of digits with no superfluous zero. */
  function ReadDigits(t: string): (r: Parse<int>)
    ensures r.Some? ==> |r.value.1| < |t|
  {
    var n := DigitRun(t);
    if n == 0 || (t[0] == '0' && n > 1) then None else Some((DigitsValue(t[..n]), t[n..]))
  }

  function ReadNumber(t: string): (r: Parse<int>)
    ensures r.Some? ==> |r.value.1| < |t|
  {
    if t != "" && t[0] == '-'
    then match ReadDigits(t[1..]) case Some((n, rest)) => Some((-n, rest)) case None => None
    else ReadDigits(t)
  }

  function ReadValue(t: string): (r: Parse<Json>)
    ensures r.Some? ==> |r.value.1| < |t|
    decreases |t|
  {
    if t == "" then None
    else if t[0] == QUOTE then
      match ReadString(t[1..]) case Some((s, rest)) => Some((Str(s), rest)) case None => None
    else if t[0] == '{' then
      if |t| >= 2 && t[1] == '}' then Some((Obj(NoMembers), t[2..]))
      else match ReadMembers(t[1..]) case Some((ms, rest)) => Some((Obj(ms), rest)) case None => None
    else
      match ReadNumber(t) case Some((n, rest)) => Some((Num(n), rest)) case None => None
  }

  /** One or more members and the closing brace. */
  function ReadMembers(t: string): (r: Parse<Members>)
    ensures r.Some? ==> |r.value.1| < |t|
    decreases |t|
  {
    match ReadName(t)
    case None => None
    case Some((name, afterName)) =>
      match ReadValue(afterName)
      case None => None
      case Some((v, rest)) =>
        if rest == "" then None
        else if rest[0] == '}' then Some((Member(name, v, NoMembers), rest[1..]))
        else if rest[0] != ',' then None
        else
          match ReadMembers(rest[1..])
          case Some((ms, after)) => Some((Member(name, v, ms), after))
          case None => None
  }

  /** A quoted name and the colon after it. */
  function ReadName(t: string): (r: Parse<string>)
    ensures r.Some? ==> |r.value.1| < |t|
  {
    if t == "" || t[0] != QUOTE then None
    else
      match ReadString(t[1..])
      case Some((name, rest)) => if rest != "" && rest[0] == ':' then Some((name, rest[1..])) else None
      case None => None
  }

  // ---- what is printed is read back ---------------------------------------

  predicate EndsNumber(rest: string) { rest == "" || !IsDigit(rest[0]) }

  lemma {:induction false} DigitRunStops(d: string, rest: string)
    requires AllDigits(d) && EndsNumber(rest)
    ensures DigitRun(d + rest) == |d|
    decreases |d|
  {
    if d != "" {
      DigitRunStops(d[1..], rest);
      assert (d + rest)[1..] == d[1..] + rest;
    } else {
      assert d + rest == rest;
    }
  }

  lemma DigitsReadBack(n: nat, rest: string)
    requires EndsNumber(rest)
    ensures ReadDigits(Decimal(n) + rest) == Some((n, rest))
  {
    var d := Decimal(n);
    DecimalDenotes(n);
    DigitRunStops(d, rest);
    assert (d + rest)[..|d|] == d && (d + rest)[|d|..] == rest;
  }

  lemma NumberReadsBack(n: int, rest: string)
    requires EndsNumber(rest)
    ensures IntText(n) != "" && (IsDigit(IntText(n)[0]) || IntText(n)[0] == '-')
    ensures ReadNumber(IntText(n) + rest) == Some((n, rest))
  {
    hide Decimal, ReadDigits, DigitsValue;
    var m := if n < 0 then -n else n;
    DigitsReadBack(m, rest);
    DecimalDenotes(m);
    if n < 0 {
      assert (IntText(n) + rest)[1..] == Decimal(m) + rest;
    }
  }

  lemma QuotedReadsBack(s: string, rest: string)
    ensures Quoted(s) != "" && (Quoted(s) + rest)[0] == QUOTE && ReadString((Quoted(s) + rest)[1..]) == Some((s, rest))
  {
    EscapeReadsBack(s, rest);
    assert (Quoted(s) + rest)[1..] == Escape(s) + [QUOTE] + rest;
  }

  lemma NameReadsBack(name: string, rest: string)
    ensures ReadName(Quoted(name) + ":" + rest) == Some((name, rest))
  {
    QuotedReadsBack(name, ":" + rest);
    assert Quoted(name) + ":" + rest == Quoted(name) + (":" + rest);
    assert (":" + rest)[1..] == rest;
  }

  lemma MembersStart(ms: Members)
    requires ms.Member?
    ensures RenderMembers(ms)
            == Quoted(ms.name) + ":" + Render(ms.value) + if ms.others.Member? then "," + RenderMembers(ms.others) else ""
    ensures RenderMembers(ms) != "" && RenderMembers(ms)[0] == QUOTE
  {
    hide Escape, Render;
    assert Quoted(ms.name)[0] == QUOTE;
    if ms.others.Member? {
      assert RenderMembers(ms) == Quoted(ms.name) + ":" + Render(ms.value) + "," + RenderMembers(ms.others);
      assert RenderMembers(ms) == Quoted(ms.name) + ":" + Render(ms.value) + ("," + RenderMembers(ms.others));
    }
  }

  lemma ReadObject(t: string, ms: Members, rest: string)
    requires t != "" && t[0] == QUOTE && ReadMembers(t) == Some((ms, rest))
    ensures ReadValue("{" + t) == Some((Obj(ms), rest))
  {
    hide ReadMembers, ReadString, ReadNumber;
    assert ("{" + t)[1..] == t;
  }

  lemma ReadMember(t: string, name: string, afterName: string, v: Json, rest: string)
    requires ReadName(t) == Some((name, afterName)) && ReadValue(afterName) == Some((v, rest)) && rest != ""
    ensures rest[0] == '}' ==> ReadMembers(t) == Some((Member(name, v, NoMembers), rest[1..]))
    ensures rest[0] == ',' && ReadMembers(rest[1..]).Some? ==>
              ReadMembers(t) == Some((Member(name, v, ReadMembers(rest[1..]).value.0), ReadMembers(rest[1..]).value.1))
  {
    hide ReadName, ReadValue;
  }

  /** The reader recovers every value from its text, and nothing of what follows. */
  lemma {:induction false} RenderReadsBack(j: Json, rest: string)
    requires EndsNumber(rest)
    ensures ReadValue(Render(j) + rest) == Some((j, rest))
    decreases j
  {
    hide RenderMembers, Quoted, ReadString, ReadMembers, ReadNumber, IntText, Decimal;
    match j {
      case Num(n) =>
        NumberReadsBack(n, rest);
        assert (IntText(n) + rest)[0] == IntText(n)[0];
      case Str(s) =>
        QuotedReadsBack(s, rest);
      case Obj(ms) =>
        if ms == NoMembers {
          assert RenderMembers(ms) == "" by { RenderNoMembers(); }
          assert Render(j) + rest == "{}" + rest;
          assert ("{}" + rest)[2..] == rest;
        } else {
          MembersReadBack(ms, rest);
          MembersStart(ms);
          ReadObject(RenderMembers(ms) + "}" + rest, ms, rest);
          assert Render(j) + rest == "{" + (RenderMembers(ms) + "}" + rest);
        }
    }
  }

  lemma RenderNoMembers()
    ensures RenderMembers(NoMembers) == ""
  {}

  lemma {:induction false} MembersReadBack(ms: Members, rest: string)
    requires ms.Member?
    ensures ReadMembers(RenderMembers(ms) + "}" + rest) == Some((ms, rest))
    decreases ms
  {
    hide RenderMembers, Render, Quoted, ReadName, ReadValue, ReadMembers;
    MembersStart(ms);
    var more := if ms.others.Member? then "," + RenderMembers(ms.others) else "";
    var tail := more + "}" + rest;
    var t := RenderMembers(ms) + "}" + rest;
    RenderReadsBack(ms.value, tail);
    NameReadsBack(ms.name, Render(ms.value) + tail);
    assert t == Quoted(ms.name) + ":" + (Render(ms.value) + tail);
    ReadMember(t, ms.name, Render(ms.value) + tail, ms.value, tail);
    if ms.others.Member? {
      MembersReadBack(ms.others, rest);
      assert tail[1..] == RenderMembers(ms.others) + "}" + rest;
    } else {
      assert tail[1..] == rest;
    }
  }

  // ---- framing ------------------------------------------------------------

  predicate Printable(t: string) { forall i :: 0 <= i < |t| ==> t[i] >= ' ' }

  lemma QuotedIsPrintable(s: string)
    ensures Printable(Quoted(s))
  {
    EscapeIsStringBody(s);
  }

  lemma IntTextIsPrintable(n: int)
    ensures Printable(IntText(n))
  {
    DecimalDenotes(if n < 0 then -n else n);
  }

  /** No text of a value holds a control byte, so a line feed can end a record. */
  lemma {:induction false} RenderIsPrintable(j: Json)
    ensures Printable(Render(j))
    decreases j
  {
    match j {
      case Num(n) => IntTextIsPrintable(n);
      case Str(s) => QuotedIsPrintable(s);
      case Obj(ms) => MembersArePrintable(ms);
    }
  }

  lemma {:induction false} MembersArePrintable(ms: Members)
    ensures Printable(RenderMembers(ms))
    decreases ms
  {
    if ms.Member? {
      QuotedIsPrintable(ms.name);
      RenderIsPrintable(ms.value);
      MembersArePrintable(ms.others);
    }
  }

  // ---- looking a member up ------------------------------------------------

  function Lookup(ms: Members, name: string): Option<Json> {
    match ms
    case NoMembers => None
    case Member(n, v, others) => if n == name then Some(v) else Lookup(others, name)
  }

  type Pair = (string, Json)

  function ListOf(ps: seq<Pair>): Members {
    if ps == [] then NoMembers else Member(ps[0].0, ps[0].1, ListOf(ps[1..]))
  }

  predicate DistinctNames(ps: seq<Pair>) { forall i, j :: 0 <= i < j < |ps| ==> ps[i].0 != ps[j].0 }

  predicate HasName(ps: seq<Pair>, name: string) { exists i :: 0 <= i < |ps| && ps[i].0 == name }

  /** Without repeated names a lookup finds every member. */
  lemma {:induction false} LookupFinds(ps: seq<Pair>, i: nat)
    requires i < |ps| && DistinctNames(ps)
    ensures Lookup(ListOf(ps), ps[i].0) == Some(ps[i].1)
    decreases |ps|
  {
    if i > 0 {
      assert ps[0].0 != ps[i].0;
      LookupFinds(ps[1..], i - 1);
    }
  }

  lemma {:induction false} LookupMisses(ps: seq<Pair>, name: string)
    requires !HasName(ps, name)
    ensures Lookup(ListOf(ps), name) == None
    decreases |ps|
  {
    if ps != [] {
      assert ps[0].0 != name;
      assert !HasName(ps[1..], name);
      LookupMisses(ps[1..], name);
    }
  }

  // ---- printing member by member ------------------------------------------

  function PairText(p: Pair): string { Quoted(p.0) + ":" + Render(p.1) }

  /** The text of members printed so far, comma separated. */
  function Joined(ps: seq<Pair>): string
    decreases |ps|
  {
    if ps == [] then "" else
      var n := |ps| - 1;
      if n == 0 then PairText(ps[0]) else Joined(ps[..n]) + "," + PairText(ps[n])
  }

  lemma {:induction false} JoinedPrepend(p: Pair, ps: seq<Pair>)
    requires ps != []
    ensures Joined([p] + ps) == PairText(p) + "," + Joined(ps)
    decreases |ps|
  {
    hide PairText;
    var n := |ps| - 1;
    assert ([p] + ps)[..n + 1] == [p] + ps[..n];
    if n == 0 {
      assert [p] + ps[..0] == [p];
    } else {
      JoinedPrepend(p, ps[..n]);
      assert PairText(p) + "," + Joined(ps[..n]) + "," + PairText(ps[n])
          == PairText(p) + "," + (Joined(ps[..n]) + "," + PairText(ps[n]));
    }
  }

  /** Printing the members one after the other gives the text of the object. */
  lemma {:induction false} JoinedIsRendered(ps: seq<Pair>)
    ensures Joined(ps) == RenderMembers(ListOf(ps))
    decreases |ps|
  {
    if |ps| == 1 {
      assert ListOf(ps[1..]) == NoMembers;
    } else if |ps| > 1 {
      JoinedIsRendered(ps[1..]);
      JoinedPrepend(ps[0], ps[1..]);
      assert ps == [ps[0]] + ps[1..];
      assert ListOf(ps[1..]).Member?;
    }
  }
}
