/**
 * The binary records the kernel side and the decoder share: C struct layout, little endian
 * (include/event_schema.h).
 */
module WireFormat {
  import opened Primitives
  import opened Sockaddr

  type Bytes = seq<byte>

  // ---- integers -----------------------------------------------------------

  function Pow256(w: nat): nat { if w == 0 then 1 else 256 * Pow256(w - 1) }

  function LittleEndian(n: nat, w: nat): (b: Bytes)
    ensures |b| == w
    decreases w
  {
    if w == 0 then [] else [n % 256] + LittleEndian(n / 256, w - 1)
  }

  function FromLittleEndian(b: Bytes): nat {
    if b == [] then 0 else
      var low: int := b[0];
      low + 256 * FromLittleEndian(b[1..])
  }

  lemma {:induction false} IntegerReadsBack(n: nat, w: nat)
    requires n < Pow256(w)
    ensures FromLittleEndian(LittleEndian(n, w)) == n
    decreases w
  {
    if w > 0 {
      IntegerReadsBack(n / 256, w - 1);
      assert LittleEndian(n, w)[1..] == LittleEndian(n / 256, w - 1);
    }
  }

  lemma {:induction false} ReadIsBounded(b: Bytes)
    ensures FromLittleEndian(b) < Pow256(|b|)
    decreases |b|
  {
    if b != [] {
      ReadIsBounded(b[1..]);
    }
  }

  lemma WidthsOfIntegers()
    ensures Pow256(4) == TWO_32 && Pow256(8) == TWO_64
  {
    assert Pow256(2) == 0x1_0000;
    assert Pow256(4) == 256 * (256 * Pow256(2));
    assert Pow256(6) == 256 * (256 * Pow256(4));
    assert Pow256(8) == 256 * (256 * Pow256(6));
  }

  function U32Bytes(n: u32): (b: Bytes) ensures |b| == 4 { LittleEndian(n, 4) }

  function U64Bytes(n: u64): (b: Bytes) ensures |b| == 8 { LittleEndian(n, 8) }

  function S32Bytes(n: s32): (b: Bytes) ensures |b| == 4 { U32Bytes(ToU32(n)) }

  function S64Bytes(n: s64): (b: Bytes) ensures |b| == 8 { U64Bytes(ToU64(n)) }

  function U32Of(b: Bytes): u32 requires |b| == 4 { ToU32(FromLittleEndian(b)) }

  function U64Of(b: Bytes): u64 requires |b| == 8 { ToU64(FromLittleEndian(b)) }

  function S32Of(b: Bytes): s32 requires |b| == 4 { ToS32(FromLittleEndian(b)) }

  function S64Of(b: Bytes): s64 requires |b| == 8 { ToS64(FromLittleEndian(b)) }

  lemma U32ReadsBack(n: u32)
    ensures U32Of(U32Bytes(n)) == n
  {
    WidthsOfIntegers();
    IntegerReadsBack(n, 4);
  }

  lemma U64ReadsBack(n: u64)
    ensures U64Of(U64Bytes(n)) == n
  {
    WidthsOfIntegers();
    IntegerReadsBack(n, 8);
  }

  lemma ShortCastsCancel(n: s32)
    ensures ToS32(ToU32(n)) == n
  {}

  lemma ShortCastOfCast(m: nat)
    ensures ToS32(ToU32(m)) == ToS32(m)
  {}

  lemma S32ReadsBack(n: s32)
    ensures S32Of(S32Bytes(n)) == n
  {
    U32ReadsBack(ToU32(n));
    hide LittleEndian, FromLittleEndian;
    var m := FromLittleEndian(U32Bytes(ToU32(n)));
    ShortCastsCancel(n);
    ShortCastOfCast(m);
  }

  lemma CastsCancel(n: s64)
    ensures ToS64(ToU64(n)) == n
  {}

  lemma CastOfCast(m: nat)
    ensures ToS64(ToU64(m)) == ToS64(m)
  {}

  lemma S64ReadsBack(n: s64)
    ensures S64Of(S64Bytes(n)) == n
  {
    U64ReadsBack(ToU64(n));
    hide LittleEndian, FromLittleEndian;
    CastsCancel(n);
    var m := FromLittleEndian(U64Bytes(ToU64(n)));
    CastOfCast(m);
  }

  // ---- character arrays ---------------------------------------------------

  /** A C string that leaves room for its NUL in an array of `n`. */
  predicate FitsArray(s: string, n: nat) {
    |s| < n && forall i :: 0 <= i < |s| ==> s[i] != NUL && s[i] < '\U{100}'
  }

  /** The characters and their NUL. */
  function CStringBytes(s: string): (b: Bytes)
    ensures |b| == |s| + 1
  {
    seq(|s| + 1, i requires 0 <= i < |s| + 1 => if i < |s| && s[i] < '\U{100}' then s[i] as int else 0)
  }

  function TextOf(b: Bytes): string {
    CString(seq(|b|, i requires 0 <= i < |b| => b[i] as char))
  }

  /** An array that begins with a C string reads as that string, whatever comes after its NUL. */
  lemma TextReadsBack(s: string, b: Bytes)
    requires FitsArray(s, |b|) && b[..|s| + 1] == CStringBytes(s)
    ensures TextOf(b) == s
  {
    var chars := seq(|b|, i requires 0 <= i < |b| => b[i] as char);
    assert forall i :: 0 <= i < |s| + 1 ==> b[i] == CStringBytes(s)[i];
    assert chars[..|s|] == s;
    CStringIsUnique(chars, s);
  }

  // ---- struct layout ------------------------------------------------------

  /** A field: its offset, the alignment and size of its type, and the bytes written to it, all or the first ones. */
  datatype Slot = Slot(offset: nat, alignment: nat, width: nat, bytes: Bytes)

  function EndOf(s: Slot): nat { s.offset + s.width }

  function WrittenTo(s: Slot): nat { s.offset + |s.bytes| }

  /** C layout: the first offset from the end of the field before, or `start`, that the alignment allows. */
  predicate Placed(s: Slot, before: nat) {
    s.alignment > 0 && before <= s.offset < before + s.alignment && s.offset % s.alignment == 0
  }

  function Before(slots: seq<Slot>, start: nat, i: nat): nat
    requires i < |slots|
  {
    if i == 0 then start else EndOf(slots[i - 1])
  }

  predicate Laid(slots: seq<Slot>, start: nat) {
    forall i: nat :: i < |slots| ==> Placed(slots[i], Before(slots, start, i))
  }

  function EndOfAll(slots: seq<Slot>, start: nat): nat { if slots == [] then start else EndOf(slots[|slots| - 1]) }

  lemma LaidAppend(a: seq<Slot>, b: seq<Slot>, start: nat)
    requires Laid(a, start) && Laid(b, EndOfAll(a, start))
    ensures Laid(a + b, start) && EndOfAll(a + b, start) == EndOfAll(b, EndOfAll(a, start))
  {
    hide Placed;
    var c := a + b;
    forall i: nat | i < |c|
      ensures Placed(c[i], Before(c, start, i))
    {
      if i < |a| {
        assert c[i] == a[i] && Before(c, start, i) == Before(a, start, i);
      } else {
        assert c[i] == b[i - |a|];
        assert Before(c, start, i) == Before(b, EndOfAll(a, start), i - |a|);
      }
    }
  }

  lemma SlotStartsAfterPrevious(slots: seq<Slot>, start: nat, j: nat)
    requires Laid(slots, start) && 0 < j < |slots|
    ensures EndOf(slots[j - 1]) <= slots[j].offset
  {
    assert Placed(slots[j], Before(slots, start, j));
  }

  lemma {:induction false} LaterSlotsStartLater(slots: seq<Slot>, start: nat, i: nat, j: nat)
    requires Laid(slots, start) && i < j < |slots|
    ensures EndOf(slots[i]) <= slots[j].offset
    decreases j
  {
    hide Laid;
    SlotStartsAfterPrevious(slots, start, j);
    if i < j - 1 {
      LaterSlotsStartLater(slots, start, i, j - 1);
    }
  }

  /** Write a field's bytes. */
  function Put(b: Bytes, s: Slot): (r: Bytes)
    requires WrittenTo(s) <= |b|
    ensures |r| == |b|
  {
    b[..s.offset] + s.bytes + b[WrittenTo(s)..]
  }

  predicate NoneOverflows(slots: seq<Slot>) { forall i :: 0 <= i < |slots| ==> |slots[i].bytes| <= slots[i].width }

  predicate Within(slots: seq<Slot>, size: nat) {
    NoneOverflows(slots) && forall i :: 0 <= i < |slots| ==> EndOf(slots[i]) <= size
  }

  /** Memory in which the fields were filled in one after the other; what it held shows in between. */
  function Image(slots: seq<Slot>, memory: Bytes): (b: Bytes)
    requires Within(slots, |memory|)
    ensures |b| == |memory|
    decreases |slots|
  {
    if slots == [] then memory
    else Put(Image(slots[..|slots| - 1], memory), slots[|slots| - 1])
  }

  /** What was written to every field of `slots` is at its place in `b`. */
  predicate Holds(b: Bytes, slots: seq<Slot>) {
    forall i :: 0 <= i < |slots| ==>
      WrittenTo(slots[i]) <= |b| && b[slots[i].offset..WrittenTo(slots[i])] == slots[i].bytes
  }

  lemma {:induction false} ImageHolds(slots: seq<Slot>, start: nat, memory: Bytes)
    requires Laid(slots, start) && Within(slots, |memory|)
    ensures Holds(Image(slots, memory), slots)
    decreases |slots|
  {
    if slots != [] {
      var n := |slots| - 1;
      LaidPrefix(slots, start, n);
      ImageHolds(slots[..n], start, memory);
      hide Laid, Image;
      PutHolds(slots, start, Image(slots[..n], memory));
      assert Image(slots, memory) == Put(Image(slots[..n], memory), slots[n]) by { ImageStep(slots, memory); }
    }
  }

  lemma LaidPrefix(slots: seq<Slot>, start: nat, n: nat)
    requires Laid(slots, start) && n <= |slots|
    ensures Laid(slots[..n], start)
  {
    hide Placed;
    assert forall i: nat :: i < n ==> slots[..n][i] == slots[i] && Before(slots[..n], start, i) == Before(slots, start, i);
  }

  lemma ImageStep(slots: seq<Slot>, memory: Bytes)
    requires slots != [] && Within(slots, |memory|)
    ensures Within(slots[..|slots| - 1], |memory|)
    ensures Image(slots, memory) == Put(Image(slots[..|slots| - 1], memory), slots[|slots| - 1])
  {}

  /** Writing the last field leaves the earlier ones where they are. */
  lemma PutHolds(slots: seq<Slot>, start: nat, b: Bytes)
    requires slots != [] && Laid(slots, start) && Within(slots, |b|) && Holds(b, slots[..|slots| - 1])
    ensures Holds(Put(b, slots[|slots| - 1]), slots)
  {
    hide Laid, Put;
    var n := |slots| - 1;
    forall i | 0 <= i < |slots|
      ensures Put(b, slots[n])[slots[i].offset..WrittenTo(slots[i])] == slots[i].bytes
    {
      if i < n {
        LaterSlotsStartLater(slots, start, i, n);
        PutKeepsEarlier(b, slots[n], slots[i].offset, WrittenTo(slots[i]));
        assert slots[..n][i] == slots[i];
      } else {
        PutIsThere(b, slots[n]);
      }
    }
  }

  lemma PutIsThere(b: Bytes, s: Slot)
    requires WrittenTo(s) <= |b|
    ensures Put(b, s)[s.offset..WrittenTo(s)] == s.bytes
  {}

  lemma PutKeepsEarlier(b: Bytes, s: Slot, lo: nat, hi: nat)
    requires lo <= hi <= s.offset && WrittenTo(s) <= |b|
    ensures Put(b, s)[lo..hi] == b[lo..hi]
  {}

  lemma HoldsParts(b: Bytes, x: seq<Slot>, y: seq<Slot>)
    requires Holds(b, x + y)
    ensures Holds(b, x) && Holds(b, y)
  {
    forall i | 0 <= i < |x|
      ensures WrittenTo(x[i]) <= |b| && b[x[i].offset..WrittenTo(x[i])] == x[i].bytes
    {
      assert (x + y)[i] == x[i];
    }
    forall i | 0 <= i < |y|
      ensures WrittenTo(y[i]) <= |b| && b[y[i].offset..WrittenTo(y[i])] == y[i].bytes
    {
      assert (x + y)[|x| + i] == y[i];
    }
  }

  lemma HoldsInLonger(b: Bytes, rest: Bytes, slots: seq<Slot>)
    requires Holds(b, slots)
    ensures Holds(b + rest, slots)
  {
    forall i | 0 <= i < |slots|
      ensures (b + rest)[slots[i].offset..WrittenTo(slots[i])] == slots[i].bytes
    {
      assert (b + rest)[slots[i].offset..WrittenTo(slots[i])] == b[slots[i].offset..WrittenTo(slots[i])];
    }
  }

  lemma {:induction false} LaidIsWithin(slots: seq<Slot>, start: nat, size: nat)
    requires Laid(slots, start) && EndOfAll(slots, start) == size && NoneOverflows(slots)
    ensures Within(slots, size)
  {
    hide Laid;
    forall i | 0 <= i < |slots|
      ensures EndOf(slots[i]) <= size
    {
      if i < |slots| - 1 {
        LaterSlotsStartLater(slots, start, i, |slots| - 1);
      }
    }
  }
}
