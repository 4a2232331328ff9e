/**
 * Socket addresses read from user memory into a bounded endpoint snapshot
 * (bpf/event_logger_common.bpf.h). Bytes of a path are modelled as characters.
 */
module Sockaddr {
  import opened Primitives
  import opened EventSchema

  const NUL: char := '\0'

  // ---- C strings ----------------------------------------------------------

  /** The characters before the first NUL, or all of them. */
  function CString(s: string): string
    decreases |s|
  {
    if s == "" || s[0] == NUL then "" else [s[0]] + CString(s[1..])
  }

  /** `CString` is the one NUL-free prefix that is followed by a NUL or by nothing. */
  lemma {:induction false} CStringIsUnique(s: string, n: string)
    ensures n == CString(s) <==> n <= s && NUL !in n && (|n| == |s| || s[|n|] == NUL)
    decreases |s|
  {
    if s != "" && s[0] != NUL {
      CStringIsUnique(s[1..], CString(s[1..]));
      if n <= s && NUL !in n && (|n| == |s| || s[|n|] == NUL) {
        assert n != "";
        CStringIsUnique(s[1..], n[1..]);
        assert n == [n[0]] + n[1..];
      }
    }
  }

  lemma CStringFacts(s: string)
    ensures CString(s) <= s && NUL !in CString(s)
    ensures |CString(s)| < |s| ==> s[|CString(s)|] == NUL
  {
    CStringIsUnique(s, CString(s));
  }

  // ---- the UNIX path copier -----------------------------------------------

  type PathBuffer = s: string | |s| == UNIX_PATH_LEN witness seq(108, _ => '\0')

  /** The loops compare with `(__s32)path_len`, so a length of 2^31 or more admits nothing. */
  function LoopLimit(pathLen: u32): nat { if pathLen < TWO_31 then pathLen else 0 }

  /** The bytes at the indices from `lo` that are below both `hi` and the loop limit. */
  function Window(un: PathBuffer, lo: nat, hi: nat, pathLen: u32): string
    requires lo <= hi <= UNIX_PATH_LEN
  {
    var end := if LoopLimit(pathLen) < hi then LoopLimit(pathLen) else hi;
    if lo <= end then un[lo..end] else ""
  }

  predicate Unnamed(un: PathBuffer, pathLen: u32) {
    pathLen == 0 || (un[0] == NUL && forall c :: c in Window(un, 1, UNIX_PATH_LEN, pathLen) ==> c == NUL)
  }

  /** The text an address names: nothing, '@' and the abstract name, or the path. */
  function UnixName(un: PathBuffer, pathLen: u32): string {
    if Unnamed(un, pathLen) then ""
    else if un[0] == NUL then "@" + CString(Window(un, 1, UNIX_PATH_LEN - 1, pathLen))
    else CString(Window(un, 0, UNIX_PATH_LEN - 1, pathLen))
  }

  /** `front` written over the beginning of `was`. */
  function Overlay(was: PathBuffer, front: string): PathBuffer
    requires |front| <= UNIX_PATH_LEN
  {
    front + was[|front|..]
  }

  lemma WindowFacts(un: PathBuffer, lo: nat, hi: nat, pathLen: u32)
    requires lo <= hi <= UNIX_PATH_LEN
    ensures |Window(un, lo, hi, pathLen)| <= hi - lo
    ensures |CString(Window(un, lo, hi, pathLen))| <= hi - lo
  {
    CStringFacts(Window(un, lo, hi, pathLen));
  }

  /** Where the copier puts its own terminator after a path. */
  function PathEnd(pathLen: u32): nat { if pathLen < UNIX_PATH_LEN - 1 then pathLen else UNIX_PATH_LEN - 1 }

  /** The whole destination buffer after the copy. */
  function CopiedPath(un: PathBuffer, pathLen: u32, was: PathBuffer): PathBuffer {
    WindowFacts(un, 0, UNIX_PATH_LEN - 1, pathLen);
    WindowFacts(un, 1, UNIX_PATH_LEN - 1, pathLen);
    if Unnamed(un, pathLen) then was
    else if un[0] == NUL then Overlay(was, UnixName(un, pathLen) + [NUL])
    else
      var name := UnixName(un, pathLen);
      var met := |name| < |Window(un, 0, UNIX_PATH_LEN - 1, pathLen)|;
      Overlay(was, if met then name + [NUL] else name)[PathEnd(pathLen) := NUL]
  }

  /** A window is the source at its indices, ended by its bound or by the loop limit. */
  lemma WindowAt(un: PathBuffer, lo: nat, hi: nat, pathLen: u32)
    requires lo <= hi <= UNIX_PATH_LEN
    ensures var w := Window(un, lo, hi, pathLen);
            && |w| == (if ToS32(pathLen) <= lo then 0 else if ToS32(pathLen) < hi then ToS32(pathLen) - lo else hi - lo)
            && forall j :: 0 <= j < |w| ==> w[j] == un[lo + j]
  {}

  lemma CopiedPathUnnamed(un: PathBuffer, pathLen: u32, was: PathBuffer)
    requires Unnamed(un, pathLen)
    ensures CopiedPath(un, pathLen, was) == was
  {}

  lemma CopiedAbstractName(un: PathBuffer, pathLen: u32, was: PathBuffer, now: PathBuffer, n: nat)
    requires !Unnamed(un, pathLen) && un[0] == NUL
    requires var w := Window(un, 1, UNIX_PATH_LEN - 1, pathLen);
             && n <= |w| <= UNIX_PATH_LEN - 2 && CString(w) == w[..n]
             && now[0] == '@' && (forall j :: 1 <= j < n + 1 ==> now[j] == w[j - 1])
    requires now[n + 1] == NUL && forall j :: n + 2 <= j < UNIX_PATH_LEN ==> now[j] == was[j]
    ensures now == CopiedPath(un, pathLen, was)
  {
    hide CString, Window, Unnamed;
  }

  lemma CopiedPathname(un: PathBuffer, pathLen: u32, was: PathBuffer, now: PathBuffer, n: nat)
    requires !Unnamed(un, pathLen) && un[0] != NUL
    requires var w := Window(un, 0, UNIX_PATH_LEN - 1, pathLen);
             && n <= |w| <= UNIX_PATH_LEN - 1 && CString(w) == w[..n]
             && (forall j :: 0 <= j < n ==> now[j] == w[j])
             && (n < |w| ==> now[n] == NUL)
             && forall j :: (if n < |w| then n + 1 else n) <= j < UNIX_PATH_LEN && j != PathEnd(pathLen) ==> now[j] == was[j]
    requires now[PathEnd(pathLen)] == NUL
    ensures now == CopiedPath(un, pathLen, was)
  {
    hide CString, Window, Unnamed;
  }

  /** Over a reset field the buffer then spells exactly the name, within its 108 bytes. */
  lemma CopySpellsTheName(un: PathBuffer, pathLen: u32, was: PathBuffer)
    requires was[0] == NUL
    ensures CString(CopiedPath(un, pathLen, was)) == UnixName(un, pathLen)
    ensures |UnixName(un, pathLen)| < UNIX_PATH_LEN
  {
    var name := UnixName(un, pathLen);
    var r := CopiedPath(un, pathLen, was);
    var path, abstr := Window(un, 0, UNIX_PATH_LEN - 1, pathLen), Window(un, 1, UNIX_PATH_LEN - 1, pathLen);
    WindowFacts(un, 0, UNIX_PATH_LEN - 1, pathLen);
    WindowFacts(un, 1, UNIX_PATH_LEN - 1, pathLen);
    CStringFacts(path);
    CStringFacts(abstr);
    assert r[..|name|] == name;
    assert r[|name|] == NUL;
    CStringIsUnique(r, name);
  }

  /** Copying never leaves a terminated field unterminated. */
  lemma CopyKeepsTermination(un: PathBuffer, pathLen: u32, was: PathBuffer)
    requires NUL in was
    ensures NUL in CopiedPath(un, pathLen, was)
  {
    var r := CopiedPath(un, pathLen, was);
    WindowFacts(un, 1, UNIX_PATH_LEN - 1, pathLen);
    if !Unnamed(un, pathLen) {
      if un[0] == NUL {
        assert r[|UnixName(un, pathLen)|] == NUL;
      } else {
        assert r[PathEnd(pathLen)] == NUL;
      }
    }
  }

  // ---- which addresses are told apart -------------------------------------

  /** A UNIX address as a caller means it. */
  datatype UnixAddress = Pathname(path: string) | Abstract(name: string)

  /** Names the copier has room for, without inner NUL. */
  predicate Fits(a: UnixAddress) {
    match a
    case Pathname(p) => NUL !in p && 1 <= |p| <= UNIX_PATH_LEN - 1
    case Abstract(n) => NUL !in n && 1 <= |n| <= UNIX_PATH_LEN - 2
  }

  function AddressBytes(a: UnixAddress): string {
    match a case Pathname(p) => p case Abstract(n) => [NUL] + n
  }

  function Padded(s: string): PathBuffer
    requires |s| <= UNIX_PATH_LEN
  {
    s + seq(UNIX_PATH_LEN - |s|, _ => NUL)
  }

  function Shown(a: UnixAddress): string { match a case Pathname(p) => p case Abstract(n) => "@" + n }

  /** Cutting a window that is a name and perhaps its NUL gives the name. */
  lemma WindowSpells(w: string, name: string)
    requires NUL !in name && |name| <= |w| <= |name| + 1
    requires forall i :: 0 <= i < |name| ==> w[i] == name[i]
    requires |name| < |w| ==> w[|name|] == NUL
    ensures CString(w) == name
  {
    hide CString;
    assert w[..|name|] == name;
    CStringIsUnique(w, name);
  }

  function CountedLength(a: UnixAddress, counted: bool): nat {
    if counted then |AddressBytes(a)| + 1 else |AddressBytes(a)|
  }

  lemma PathnameIsShown(p: string, len: u32)
    requires Fits(Pathname(p)) && |p| <= len <= |p| + 1
    ensures UnixName(Padded(p), len) == p
  {
    hide CString, Window;
    var un := Padded(p);
    assert un[0] == p[0] && p[0] in p;
    WindowAt(un, 0, UNIX_PATH_LEN - 1, len);
    WindowSpells(Window(un, 0, UNIX_PATH_LEN - 1, len), p);
  }

  lemma AbstractIsShown(n: string, len: u32)
    requires Fits(Abstract(n)) && |n| + 1 <= len <= |n| + 2
    ensures UnixName(Padded([NUL] + n), len) == "@" + n
  {
    hide CString, Window;
    var un := Padded([NUL] + n);
    AbstractIsNamed(n, len);
    WindowAt(un, 1, UNIX_PATH_LEN - 1, len);
    WindowSpells(Window(un, 1, UNIX_PATH_LEN - 1, len), n);
  }

  lemma AbstractIsNamed(n: string, len: u32)
    requires Fits(Abstract(n)) && |n| + 1 <= len <= |n| + 2
    ensures !Unnamed(Padded([NUL] + n), len)
  {
    hide Window;
    var un := Padded([NUL] + n);
    WindowAt(un, 1, UNIX_PATH_LEN, len);
    var all := Window(un, 1, UNIX_PATH_LEN, len);
    assert all[0] == un[1] == n[0] && n[0] in n;
    assert all[0] in all;
  }

  /** An address that fits is shown in full, whether or not the caller counts the final NUL. */
  lemma FittingNamesAreShownInFull(a: UnixAddress, counted: bool)
    requires Fits(a)
    ensures UnixName(Padded(AddressBytes(a)), CountedLength(a, counted)) == Shown(a)
  {
    hide UnixName, Padded;
    match a {
      case Pathname(p) => PathnameIsShown(p, CountedLength(a, counted));
      case Abstract(n) => AbstractIsShown(n, CountedLength(a, counted));
    }
  }

  /** The only addresses a snapshot confuses: an abstract name and the pathname '@' plus that name. */
  lemma SnapshotsCoincideIff(a: UnixAddress, b: UnixAddress)
    requires Fits(a) && Fits(b)
    ensures UnixName(Padded(AddressBytes(a)), |AddressBytes(a)|) == UnixName(Padded(AddressBytes(b)), |AddressBytes(b)|)
            <==> a == b
                 || (a.Abstract? && b == Pathname("@" + a.name))
                 || (b.Abstract? && a == Pathname("@" + b.name))
  {
    hide UnixName, Padded;
    FittingNamesAreShownInFull(a, false);
    FittingNamesAreShownInFull(b, false);
    if a.Abstract? && b.Abstract? && Shown(a) == Shown(b) {
      assert a.name == Shown(a)[1..] == Shown(b)[1..] == b.name;
    }
  }

  // ---- parsing a whole address --------------------------------------------

  const AF_UNIX: u16 := 1
  const AF_INET: u16 := 2
  const AF_INET6: u16 := 10
  const SIZE_IN: nat := 8
  const SIZE_IN6: nat := 28
  const SIZE_UN: nat := 110

  /**
   * What the two reads of user memory return: the family, then the whole structure. They may
   * disagree, since the caller can rewrite its memory in between.
   */
  datatype AddressReads = AddressReads(pointer: bool, family: Option<u16>, body: Option<seq<byte>>)

  predicate BigEnough(m: AddressReads) { m.body.Some? ==> |m.body.value| >= SIZE_UN }

  /** `bpf_ntohs` of the two bytes at `at`. */
  function NetworkShort(b: seq<byte>, at: nat): u16
    requires at + 2 <= |b|
  {
    var high: int, low: int := b[at], b[at + 1];
    256 * high + low
  }

  function UnixBytes(b: seq<byte>, copyLen: nat): PathBuffer
    requires 2 <= copyLen <= SIZE_UN <= |b|
  {
    seq(UNIX_PATH_LEN, i requires 0 <= i < UNIX_PATH_LEN => if i + 2 < copyLen then b[i + 2] as char else NUL)
  }

  function CopyLen(len: u32): nat { if len > SIZE_UN then SIZE_UN else len }

  /** The snapshot an address is parsed into. */
  function ParsedSockaddr(m: AddressReads, len: u32): Endpoint
    requires BigEnough(m)
  {
    if !m.pointer || len < 2 || m.family.None? then NO_ENDPOINT
    else
      var fam := m.family.value;
      var e := NO_ENDPOINT.(family := fam);
      if m.body.None? then e
      else
        var b := m.body.value;
        if fam == AF_INET && len >= SIZE_IN then
          e.(port := NetworkShort(b, 2), addrLen := 4, addr := b[4..8] + seq(12, _ => 0))
        else if fam == AF_INET6 && len >= SIZE_IN6 then
          e.(port := NetworkShort(b, 2), addrLen := 16, addr := b[8..24])
        else if fam == AF_UNIX then
          e.(path := UnixName(UnixBytes(b, CopyLen(len)), CopyLen(len) - 2))
        else e
  }

  predicate WellFormed(e: Endpoint) {
    && |e.addr| == 16 && e.addrLen in {0, 4, 16}
    && (forall i :: e.addrLen <= i < 16 ==> e.addr[i] == 0)
    && |e.path| < UNIX_PATH_LEN && NUL !in e.path
    && (e.path != "" ==> e.family == AF_UNIX)
    && (e.addrLen != 0 ==> e.path == "" && e.family in {AF_INET, AF_INET6})
  }

  lemma UnixNameFits(un: PathBuffer, pathLen: u32)
    ensures |UnixName(un, pathLen)| < UNIX_PATH_LEN && NUL !in UnixName(un, pathLen)
  {
    hide CString, CopiedPath, UnixName;
    CopySpellsTheName(un, pathLen, Padded(""));
    CStringFacts(CopiedPath(un, pathLen, Padded("")));
  }

  lemma InternetIsWellFormed(fam: u16, port: u32, b: seq<byte>)
    ensures fam == AF_INET && |b| == 4 ==> WellFormed(Endpoint(fam, port, 4, b + seq(12, _ => 0), ""))
    ensures fam == AF_INET6 && |b| == 16 ==> WellFormed(Endpoint(fam, port, 16, b, ""))
  {}

  lemma OthersAreWellFormed(fam: u16, path: string)
    requires |path| < UNIX_PATH_LEN && NUL !in path && (path != "" ==> fam == AF_UNIX)
    ensures WellFormed(NO_ENDPOINT.(family := fam, path := path))
  {}

  /** Every snapshot is well formed: 16 address bytes of which only the counted ones can be set. */
  lemma SnapshotIsWellFormed(m: AddressReads, len: u32)
    requires BigEnough(m)
    ensures WellFormed(ParsedSockaddr(m, len))
  {
    hide WellFormed, UnixName, UnixBytes;
    OthersAreWellFormed(0, "");
    if m.pointer && len >= 2 && m.family.Some? {
      var fam := m.family.value;
      OthersAreWellFormed(fam, "");
      if m.body.Some? {
        var b := m.body.value;
        InternetIsWellFormed(fam, NetworkShort(b, 2), b[4..8]);
        InternetIsWellFormed(fam, NetworkShort(b, 2), b[8..24]);
        if fam == AF_UNIX {
          var un := UnixBytes(b, CopyLen(len));
          UnixNameFits(un, CopyLen(len) - 2);
          OthersAreWellFormed(fam, UnixName(un, CopyLen(len) - 2));
        }
      }
    }
  }

  lemma UnixNameIsBytes(un: PathBuffer, pathLen: u32)
    requires forall i :: 0 <= i < UNIX_PATH_LEN ==> un[i] < '\U{100}'
    ensures forall i :: 0 <= i < |UnixName(un, pathLen)| ==> UnixName(un, pathLen)[i] < '\U{100}'
  {
    hide CString, Window, Unnamed;
    WindowAt(un, 0, UNIX_PATH_LEN - 1, pathLen);
    WindowAt(un, 1, UNIX_PATH_LEN - 1, pathLen);
    CStringFacts(Window(un, 0, UNIX_PATH_LEN - 1, pathLen));
    CStringFacts(Window(un, 1, UNIX_PATH_LEN - 1, pathLen));
  }

  lemma SnapshotIsBytes(m: AddressReads, len: u32)
    requires BigEnough(m)
    ensures var p := ParsedSockaddr(m, len).path; forall i :: 0 <= i < |p| ==> p[i] < '\U{100}'
  {
    hide UnixName;
    if m.body.Some? && len >= 2 {
      UnixNameIsBytes(UnixBytes(m.body.value, CopyLen(len)), CopyLen(len) - 2);
    }
  }

  /** `struct sockaddr_in` and `struct sockaddr_in6` as user memory holds them. */
  function InetBytes(port: u16, addr: seq<byte>): seq<byte> { [2, 0, port / 256, port % 256] + addr }

  function Inet6Bytes(port: u16, flow: seq<byte>, addr: seq<byte>): seq<byte> {
    [10, 0, port / 256, port % 256] + flow + addr
  }

  /** Internet addresses survive the trip: the port in host order, the address byte for byte. */
  lemma InternetRoundTrip(port: u16, a4: seq<byte>, a6: seq<byte>, flow: seq<byte>, rest: seq<byte>, len: u32)
    requires |a4| == 4 && |a6| == 16 && |flow| == 4 && |rest| >= SIZE_UN
    ensures len >= 8 ==>
      ParsedSockaddr(AddressReads(true, Some(2), Some(InetBytes(port, a4) + rest)), len)
      == Endpoint(2, port, 4, a4 + seq(12, _ => 0), "")
    ensures len >= 28 ==>
      ParsedSockaddr(AddressReads(true, Some(10), Some(Inet6Bytes(port, flow, a6) + rest)), len)
      == Endpoint(10, port, 16, a6, "")
  {
    assert (InetBytes(port, a4) + rest)[4..8] == a4;
    assert (Inet6Bytes(port, flow, a6) + rest)[8..24] == a6;
  }

  /** The bytes of a text whose characters stand for bytes. */
  function TextBytes(s: string): seq<byte>
    requires IsBytes(s)
  {
    seq(|s|, i requires 0 <= i < |s| => s[i] as int)
  }

  predicate IsBytes(s: string) { forall i :: 0 <= i < |s| ==> s[i] < '\U{100}' }

  /** `struct sockaddr_un` as user memory holds it: the family, the name, a NUL and whatever comes after. */
  function UnixMemory(name: string, rest: seq<byte>): seq<byte>
    requires IsBytes(name)
  {
    [1, 0] + TextBytes(name) + [0] + rest
  }

  /** The path starts at the third byte, and what the length leaves out reads as NUL. */
  lemma UnixMemoryIsPadded(name: string, rest: seq<byte>, len: u32)
    requires IsBytes(name) && |name| <= UNIX_PATH_LEN && |UnixMemory(name, rest)| >= SIZE_UN
    requires |name| + 2 <= len <= |name| + 3
    ensures CopyLen(len) >= 2 && UnixBytes(UnixMemory(name, rest), CopyLen(len)) == Padded(name)
  {
    var b := UnixMemory(name, rest);
    var un := UnixBytes(b, CopyLen(len));
    assert forall i :: 0 <= i < |name| ==> b[i + 2] == TextBytes(name)[i];
    assert forall i :: 0 <= i < |name| ==> un[i] == name[i];
    assert b[|name| + 2] == 0;
    assert forall i :: |name| <= i < UNIX_PATH_LEN ==> un[i] == NUL;
  }

  /** UNIX addresses survive the trip: family and shown name, nothing else, with or without the NUL counted. */
  lemma UnixRoundTrip(a: UnixAddress, counted: bool, rest: seq<byte>)
    requires Fits(a) && IsBytes(AddressBytes(a)) && |rest| >= SIZE_UN
    ensures ParsedSockaddr(AddressReads(true, Some(1), Some(UnixMemory(AddressBytes(a), rest))), 2 + CountedLength(a, counted))
            == Endpoint(1, 0, 0, seq(16, _ => 0), Shown(a))
  {
    hide UnixName, UnixBytes, Padded, UnixMemory;
    var name, len := AddressBytes(a), 2 + CountedLength(a, counted);
    assert |UnixMemory(name, rest)| >= SIZE_UN by { UnixMemoryIsLong(name, rest); }
    UnixMemoryIsPadded(name, rest, len);
    FittingNamesAreShownInFull(a, counted);
  }

  lemma UnixMemoryIsLong(name: string, rest: seq<byte>)
    requires IsBytes(name)
    ensures |UnixMemory(name, rest)| >= |rest|
  {}

  /** A path that fills the field loses what does not leave room for the NUL, however long the caller says it is. */
  lemma LongPathsAreCut(p: string, len: u32, rest: seq<byte>)
    requires NUL !in p && IsBytes(p) && |p| >= 107 && |rest| >= SIZE_UN && len >= 109
    ensures ParsedSockaddr(AddressReads(true, Some(1), Some(UnixMemory(p, rest))), len).path == p[..107]
  {
    hide CString, Window, UnixMemory, UnixBytes;
    assert |UnixMemory(p, rest)| >= SIZE_UN by { UnixMemoryIsLong(p, rest); }
    var un, n := UnixBytes(UnixMemory(p, rest), CopyLen(len)), CopyLen(len) - 2;
    UnixMemoryBegins(p, rest, len);
    assert p[0] in p;
    WindowAt(un, 0, UNIX_PATH_LEN - 1, n);
    WindowSpells(Window(un, 0, UNIX_PATH_LEN - 1, n), p[..107]);
  }

  lemma UnixMemoryBegins(p: string, rest: seq<byte>, len: u32)
    requires IsBytes(p) && |p| >= 107 && |UnixMemory(p, rest)| >= SIZE_UN && len >= 109
    ensures CopyLen(len) >= 109
    ensures forall i :: 0 <= i < 107 ==> UnixBytes(UnixMemory(p, rest), CopyLen(len))[i] == p[i]
  {
    var b := UnixMemory(p, rest);
    assert forall i :: 0 <= i < 107 ==> b[i + 2] == TextBytes(p)[i];
  }

  /** What cannot be read is not shown: no pointer, a length without a family, a failed read, a short structure. */
  lemma UnreadableAddresses(m: AddressReads, len: u32)
    requires BigEnough(m)
    ensures var e := ParsedSockaddr(m, len);
            && (!m.pointer || len < 2 || m.family.None? ==> e == NO_ENDPOINT)
            && (m.pointer && len >= 2 && m.family.Some? ==>
                  var fam := m.family.value;
                  e.family == fam
                  && (m.body.None? || (fam == 2 && len < 8) || (fam == 10 && len < 28) || fam !in {1, 2, 10} || (fam == 1 && len == 2)
                      ==> e == NO_ENDPOINT.(family := fam)))
  {
    hide UnixBytes;
  }

  // ---- the snapshot in memory ---------------------------------------------

  class NetworkEndpoint {
    var family: u32
    var port: u32
    var addrLen: u32
    const addr: array<byte>
    const path: array<char>

    ghost predicate Valid()
      reads this
    {
      addr.Length == 16 && path.Length == UNIX_PATH_LEN
    }

    /** The record fields a reader sees: the path is a C string. */
    ghost function Value(): Endpoint
      reads this, addr, path
      requires Valid()
    {
      Endpoint(family, port, addrLen, addr[..], CString(path[..]))
    }

    constructor ()
      ensures Valid() && fresh(addr) && fresh(path)
      ensures Value() == NO_ENDPOINT
    {
      family, port, addrLen := 0, 0, 0;
      addr := new byte[16](_ => 0);
      path := new char[UNIX_PATH_LEN](_ => NUL);
      new;
      assert addr[..] == NO_ENDPOINT.addr;
    }

    method Reset()
      requires Valid()
      modifies this, addr, path
      ensures Valid() && Value() == NO_ENDPOINT
      ensures path[..] == old(path[..])[0 := NUL]
    {
      family, port, addrLen := 0, 0, 0;
      path[0] := NUL;
      for i := 0 to 16
        invariant family == port == addrLen == 0
        invariant forall j :: 0 <= j < i ==> addr[j] == 0
        invariant path[..] == old(path[..])[0 := NUL]
      {
        addr[i] := 0;
      }
      assert addr[..] == NO_ENDPOINT.addr;
    }

    /** Copy the pathname or the abstract name of a UNIX-domain address. */
    method CopyUnixSockaddrPath(un: PathBuffer, pathLen: u32)
      requires Valid()
      modifies path
      ensures path[..] == CopiedPath(un, pathLen, old(path[..]))
    {
      if pathLen == 0 {
        return;
      }
      if un[0] == NUL {
        CopyAbstractName(un, pathLen);
      } else {
        CopyPathname(un, pathLen);
      }
    }

    /** Whether an abstract address has any character to show. */
    method HasAbstractName(un: PathBuffer, pathLen: u32) returns (has: bool)
      requires pathLen != 0 && un[0] == NUL
      ensures has == !Unnamed(un, pathLen)
    {
      hide Window;
      ghost var all := Window(un, 1, UNIX_PATH_LEN, pathLen);
      WindowAt(un, 1, UNIX_PATH_LEN, pathLen);
      has := false;
      for i := 1 to UNIX_PATH_LEN
        invariant !has && i - 1 <= |all|
        invariant forall j :: 0 <= j < i - 1 ==> all[j] == NUL
      {
        if i >= ToS32(pathLen) {
          break;
        }
        if un[i] != NUL {
          has := true;
          assert all[i - 1] in all;
          break;
        }
      }
    }

    method CopyAbstractName(un: PathBuffer, pathLen: u32)
      requires Valid() && pathLen != 0 && un[0] == NUL
      modifies path
      ensures path[..] == CopiedPath(un, pathLen, old(path[..]))
    {
      hide CString, CopiedPath, Window, UnixName, Unnamed, Overlay;
      var hasName := HasAbstractName(un, pathLen);
      if !hasName {
        CopiedPathUnnamed(un, pathLen, path[..]);
        return;
      }
      ghost var w := Window(un, 1, UNIX_PATH_LEN - 1, pathLen);
      ghost var was := path[..];
      WindowAt(un, 1, UNIX_PATH_LEN - 1, pathLen);
      path[0] := '@';
      var out := 1;
      for i := 1 to UNIX_PATH_LEN - 1
        invariant out == i && i - 1 <= |w|
        invariant forall j :: 0 <= j < i - 1 ==> w[j] != NUL
        invariant path[0] == '@' && forall j :: 1 <= j < i ==> path[j] == w[j - 1]
        invariant forall j :: i <= j < UNIX_PATH_LEN ==> path[j] == was[j]
      {
        if i >= ToS32(pathLen) {
          break;
        }
        var c := un[i];
        if c == NUL {
          break;
        }
        path[out] := c;
        out := out + 1;
      }
      path[out] := NUL;
      CStringIsUnique(w, w[..out - 1]);
      CopiedAbstractName(un, pathLen, was, path[..], out - 1);
    }

    method CopyPathname(un: PathBuffer, pathLen: u32)
      requires Valid() && pathLen != 0 && un[0] != NUL
      modifies path
      ensures path[..] == CopiedPath(un, pathLen, old(path[..]))
    {
      hide CString, CopiedPath, Window, UnixName, Overlay;
      ghost var w := Window(un, 0, UNIX_PATH_LEN - 1, pathLen);
      ghost var was := path[..];
      WindowAt(un, 0, UNIX_PATH_LEN - 1, pathLen);
      ghost var n: nat := 0;
      ghost var met := false;
      for i := 0 to UNIX_PATH_LEN - 1
        invariant n == i <= |w| && !met
        invariant forall j :: 0 <= j < i ==> w[j] != NUL && path[j] == w[j]
        invariant forall j :: i <= j < UNIX_PATH_LEN ==> path[j] == was[j]
      {
        if i >= ToS32(pathLen) {
          break;
        }
        var c := un[i];
        path[i] := c;
        if c == NUL {
          met := true;
          break;
        }
        n := n + 1;
      }
      if pathLen >= UNIX_PATH_LEN - 1 {
        path[UNIX_PATH_LEN - 1] := NUL;
      } else {
        path[pathLen] := NUL;
      }
      CStringIsUnique(w, w[..n]);
      CopiedPathname(un, pathLen, was, path[..], n);
    }

    /** Parse the address of `len` bytes that user memory shows as `m`. */
    method ParseSockaddrUser(m: AddressReads, len: u32)
      requires Valid() && BigEnough(m)
      modifies this, addr, path
      ensures Valid() && Value() == ParsedSockaddr(m, len)
    {
      hide CString, CopiedPath, UnixName, UnixBytes;
      Reset();
      if !m.pointer || len < 2 {
        return;
      }
      if m.family.None? {
        return;
      }
      var fam := m.family.value;
      family := fam;
      if fam == AF_INET && len >= SIZE_IN {
        if m.body.Some? {
          port := NetworkShort(m.body.value, 2);
          addrLen := 4;
          CopyAddress(m.body.value[4..8]);
        }
        return;
      }
      if fam == AF_INET6 && len >= SIZE_IN6 {
        if m.body.Some? {
          port := NetworkShort(m.body.value, 2);
          addrLen := 16;
          CopyAddress(m.body.value[8..24]);
        }
        return;
      }
      if fam == AF_UNIX {
        var copyLen := CopyLen(len);
        if copyLen >= 2 && m.body.Some? {
          var un := UnixBytes(m.body.value, copyLen);
          CopySpellsTheName(un, copyLen - 2, path[..]);
          CopyUnixSockaddrPath(un, copyLen - 2);
        }
      }
    }

    /** `memcpy` into the start of the address bytes. */
    method CopyAddress(b: seq<byte>)
      requires Valid() && |b| <= 16
      modifies addr
      ensures addr[..] == b + old(addr[..])[|b|..]
    {
      for i := 0 to |b|
        invariant forall j :: 0 <= j < i ==> addr[j] == b[j]
        invariant forall j :: i <= j < 16 ==> addr[j] == old(addr[j])
      {
        addr[i] := b[i];
      }
    }
  }
}
