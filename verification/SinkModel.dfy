/**
 * The file sink's rotation and flushing as functions on values (src/sinks/json_sink.cpp).
 * `file` is what has been written to the current file; `durable` says how much of it was flushed.
 * Clock readings and the success of opening and removing files are inputs of each step; writing
 * and flushing an open stream succeed.
 */
module SinkModel {
  import opened Primitives
  import opened JsonRecord
  import opened Sockaddr

  const FLUSH_EVERY_RECORDS: nat := 256
  const FLUSH_INTERVAL_NS: u64 := 250000000

  /** `base`, `kept`, `accepted`, `untracked` and `durable` are history the program does not have. */
  datatype Sink = Sink(
    limit: u64, isOpen: bool, ready: bool, size: u64, pending: nat, lastFlushNs: u64,
    file: string,          // the current file
    durable: nat,          // how many of its bytes were flushed
    base: string,          // what it held before this sink's first record in it
    kept: seq<string>,     // the records it holds
    accepted: seq<string>, // every record ever written
    untracked: nat         // bytes of the file the size counter does not know of
  )

  datatype OpenEnv = OpenEnv(nowNs: u64, sizeRead: bool, canOpen: bool)

  datatype WriteEnv = WriteEnv(removed: bool, truncated: bool, reopened: bool, rotateNs: u64, nowNs: u64)

  /** The constructor over a file that holds `original`. */
  function Open(original: string, limit: u64, env: OpenEnv): Sink {
    Sink(limit, env.canOpen, env.canOpen, if env.sizeRead then ToU64(|original|) else 0, 0, env.nowNs,
         original, |original|, original, [], [], if env.sizeRead then 0 else |original|)
  }

  function Flushed(s: Sink, nowNs: u64): Sink { s.(pending := 0, lastFlushNs := nowNs, durable := |s.file|) }

  function ForceFlush(s: Sink, nowNs: u64): Sink { if s.isOpen then Flushed(s, nowNs) else s }

  function MaybeFlush(s: Sink, nowNs: u64): Sink {
    if !s.isOpen || (s.pending < FLUSH_EVERY_RECORDS && Sub64(nowNs, s.lastFlushNs) < FLUSH_INTERVAL_NS) then s
    else Flushed(s, nowNs)
  }

  /** Whether the next record would exceed the limit. */
  predicate MustRotate(s: Sink, bytes: nat) { s.limit != 0 && ToU64(s.size + bytes) > s.limit }

  /** The file after `remove` and the truncating open. */
  function Emptied(s: Sink, env: WriteEnv): Sink {
    if env.removed || env.truncated
    then s.(file := "", durable := 0, base := "", kept := [], size := 0, untracked := 0)
    else s.(size := 0, untracked := |s.file|)
  }

  function RotateIfNeeded(s: Sink, bytes: nat, env: WriteEnv): Sink {
    if !MustRotate(s, bytes) then s
    else Emptied(ForceFlush(s, env.rotateNs), env).(isOpen := env.truncated && env.reopened)
  }

  function Append(s: Sink, line: string): Sink {
    s.(file := s.file + line, size := ToU64(s.size + |line|), pending := s.pending + 1,
       kept := s.kept + [line], accepted := s.accepted + [line])
  }

  function WriteLine(s: Sink, line: string, env: WriteEnv): Sink {
    var r := RotateIfNeeded(s, |line|, env);
    if MustRotate(s, |line|) && !r.isOpen then r.(ready := false)
    else MaybeFlush(Append(r, line), env.nowNs)
  }

  function Write(s: Sink, c: CanonicalEvent, env: WriteEnv): Sink {
    if !s.ready || c.raw.None? then s else WriteLine(s, Line(c), env)
  }

  // ---- what every write keeps ---------------------------------------------

  function Concat(rs: seq<string>): string {
    if rs == [] then "" else rs[0] + Concat(rs[1..])
  }

  lemma {:induction false} ConcatAppend(a: seq<string>, b: seq<string>)
    ensures Concat(a + b) == Concat(a) + Concat(b)
    decreases |a|
  {
    if a == [] {
      assert a + b == b;
    } else {
      ConcatAppend(a[1..], b);
      assert (a + b)[1..] == a[1..] + b;
    }
  }

  /** A record ends in its only line feed. */
  predicate Framed(r: string) { r != "" && r[|r| - 1] == '\n' && '\n' !in r[..|r| - 1] }

  predicate IsSuffix<T(==)>(a: seq<T>, b: seq<T>) { |a| <= |b| && b[|b| - |a|..] == a }

  /** The unflushed end of the file is exactly the last `pending` records. */
  predicate PendingExact(file: string, durable: nat, kept: seq<string>, pending: nat) {
    && durable <= |file|
    && pending <= |kept|
    && file[durable..] == Concat(kept[|kept| - pending..])
  }

  /** The file is what it started with, or nothing, and then whole records up to the last one written. */
  predicate Framing(s: Sink, original: string) {
    && s.file == s.base + Concat(s.kept)
    && IsSuffix(s.kept, s.accepted)
    && (s.base == "" || (s.base == original && s.kept == s.accepted))
  }

  predicate AllFramed(rs: seq<string>) { forall i :: 0 <= i < |rs| ==> Framed(rs[i]) }

  /** The size counter is the file's length, up to the bytes it never learnt of and 64-bit wrap. */
  predicate SizeExact(s: Sink) { (s.size + s.untracked) % TWO_64 == |s.file| % TWO_64 }

  predicate Good(s: Sink, original: string) {
    && Framing(s, original)
    && AllFramed(s.accepted)
    && SizeExact(s)
    && PendingExact(s.file, s.durable, s.kept, s.pending)
    && (s.ready ==> s.isOpen && s.pending < FLUSH_EVERY_RECORDS)
  }

  lemma FlushIsExact(file: string, kept: seq<string>)
    ensures PendingExact(file, |file|, kept, 0)
  {
    assert kept[|kept|..] == [];
    assert file[|file|..] == "";
  }

  lemma OpenIsGood(original: string, limit: u64, env: OpenEnv)
    ensures Good(Open(original, limit, env), original)
  {
    FlushIsExact(original, []);
    assert original + Concat([]) == original;
  }

  lemma AppendIsExact(file: string, durable: nat, kept: seq<string>, pending: nat, line: string)
    requires PendingExact(file, durable, kept, pending)
    ensures PendingExact(file + line, durable, kept + [line], pending + 1)
  {
    var last := kept[|kept| - pending..];
    assert (kept + [line])[|kept| - pending..] == last + [line];
    ConcatAppend(last, [line]);
    assert Concat([line]) == line + Concat([]);
    assert (file + line)[durable..] == file[durable..] + line;
  }

  lemma AppendKeepsFraming(s: Sink, original: string, line: string)
    requires Framing(s, original)
    ensures Framing(Append(s, line), original)
  {
    ConcatAppend(s.kept, [line]);
    assert Concat([line]) == line + Concat([]) == line;
    assert s.base + (Concat(s.kept) + line) == s.base + Concat(s.kept) + line;
    var n := |s.accepted| - |s.kept|;
    assert (s.accepted + [line])[n..] == s.accepted[n..] + [line];
  }

  lemma AppendKeepsSize(s: Sink, line: string)
    requires SizeExact(s)
    ensures SizeExact(Append(s, line))
  {
    AddModulo(s.size + s.untracked, |s.file|, |line|);
    AddModulo(s.size + |line|, ToU64(s.size + |line|), s.untracked);
  }

  lemma AddModulo(a: int, b: int, c: int)
    requires a % TWO_64 == b % TWO_64
    ensures (a + c) % TWO_64 == (b + c) % TWO_64
  {
    var k := a / TWO_64 - b / TWO_64;
    assert a + c == (b + c) + k * TWO_64;
    ModuloOfSum(b + c, k);
  }

  lemma ModuloOfSum(x: int, k: int)
    ensures (x + k * TWO_64) % TWO_64 == x % TWO_64
  {
    var q := x / TWO_64;
    assert x + k * TWO_64 == (q + k) * TWO_64 + x % TWO_64;
  }

  /** What rotation keeps; `EmptiedOr` is the file before it or an empty one. */
  lemma RotateKeeps(s: Sink, original: string, bytes: nat, env: WriteEnv)
    requires Good(s, original) && s.isOpen
    ensures var r := RotateIfNeeded(s, bytes, env);
            && Framing(r, original) && SizeExact(r) && PendingExact(r.file, r.durable, r.kept, r.pending)
            && r.accepted == s.accepted && r.ready == s.ready && r.limit == s.limit && r.pending <= s.pending
            && (r == s || MustRotate(s, bytes))
  {
    hide PendingExact;
    FlushIsExact(s.file, s.kept);
    FlushIsExact("", []);
    assert "" == "" + Concat([]);
    assert s.accepted[|s.accepted|..] == [];
  }

  lemma MaybeFlushIsGood(t: Sink, original: string, nowNs: u64)
    requires Framing(t, original) && SizeExact(t) && AllFramed(t.accepted) && t.isOpen
    requires PendingExact(t.file, t.durable, t.kept, t.pending)
    ensures Good(MaybeFlush(t, nowNs), original)
  {
    FlushIsExact(t.file, t.kept);
    hide PendingExact, AllFramed, IsSuffix, Concat;
  }

  lemma AppendedIsGood(r: Sink, original: string, line: string, nowNs: u64)
    requires Framing(r, original) && SizeExact(r) && AllFramed(r.accepted) && r.isOpen
    requires PendingExact(r.file, r.durable, r.kept, r.pending) && Framed(line)
    ensures Good(MaybeFlush(Append(r, line), nowNs), original)
  {
    var t := Append(r, line);
    AppendKeepsFraming(r, original, line);
    AppendKeepsSize(r, line);
    AppendIsExact(r.file, r.durable, r.kept, r.pending, line);
    assert AllFramed(t.accepted);
    hide PendingExact, Framing, SizeExact, AllFramed, MaybeFlush, Good;
    MaybeFlushIsGood(t, original, nowNs);
  }

  lemma StoppedIsGood(r: Sink, original: string)
    requires Framing(r, original) && SizeExact(r) && AllFramed(r.accepted)
    requires PendingExact(r.file, r.durable, r.kept, r.pending)
    ensures Good(r.(ready := false), original)
  {
    hide PendingExact, AllFramed, IsSuffix, Concat;
  }

  /** Every write keeps the file, the counters and the history in agreement. */
  lemma WriteKeepsGood(s: Sink, original: string, line: string, env: WriteEnv)
    requires Good(s, original) && s.ready && Framed(line)
    ensures Good(WriteLine(s, line, env), original)
  {
    hide PendingExact, Framed, Framing, SizeExact, MustRotate, RotateIfNeeded, MaybeFlush, Append, AllFramed;
    var r := RotateIfNeeded(s, |line|, env);
    RotateKeeps(s, original, |line|, env);
    if MustRotate(s, |line|) && !r.isOpen {
      StoppedIsGood(r, original);
    } else {
      hide Good;
      AppendedIsGood(r, original, line, env.nowNs);
    }
  }

  /** A rotation happens exactly when the record would take a tracked file past a nonzero limit. */
  lemma RotatesIff(s: Sink, original: string, bytes: nat)
    requires Good(s, original) && s.untracked == 0 && |s.file| + bytes < TWO_64
    ensures MustRotate(s, bytes) <==> s.limit != 0 && |s.file| + bytes > s.limit
  {
    SmallModulo(|s.file|);
    SmallModulo(s.size);
    SmallModulo(|s.file| + bytes);
  }

  lemma SmallModulo(x: nat)
    requires x < TWO_64
    ensures x % TWO_64 == x
  {}

  /** With a limit, a file of known size ends up within it, or holds the one record that is longer. */
  lemma SizeIsBounded(s: Sink, original: string, line: string, env: WriteEnv)
    requires Good(s, original) && s.ready && s.untracked == 0 && |s.file| + |line| < TWO_64
    ensures var t := WriteLine(s, line, env);
            && (t.untracked == 0 || !t.ready)
            && (t.ready && s.limit != 0 ==> |t.file| <= if |line| < s.limit then s.limit else |line|)
            && (t.ready && MustRotate(s, |line|) ==> t.file == line && t.base == "")
            && (!MustRotate(s, |line|) ==> t.file == s.file + line)
  {
    hide Framing, AllFramed, PendingExact, Concat;
    RotatesIff(s, original, |line|);
  }

  /** Writing goes on unless a restart was due and the file could not be emptied and opened again. */
  lemma StaysReadyIff(s: Sink, original: string, line: string, env: WriteEnv)
    requires Good(s, original) && s.ready && s.untracked == 0 && |s.file| + |line| < TWO_64
    ensures var t := WriteLine(s, line, env);
            && (t.ready <==> (s.limit != 0 && |s.file| + |line| > s.limit ==> env.truncated && env.reopened))
            && (!t.ready ==> t.accepted == s.accepted)
  {
    hide Framing, AllFramed, PendingExact, Concat, MustRotate;
    RotatesIff(s, original, |line|);
  }

  /** A sink that gave up writes nothing more, and an event without payload is not written. */
  lemma NothingWritten(s: Sink, c: CanonicalEvent, env: WriteEnv)
    ensures !s.ready || c.raw.None? ==> Write(s, c, env) == s
  {}

  /** A flush happens exactly at 256 pending records or after 250 ms, and then leaves nothing pending. */
  lemma FlushesIff(s: Sink, nowNs: u64)
    requires s.isOpen
    ensures var t, due := MaybeFlush(s, nowNs), s.pending >= 256 || Sub64(nowNs, s.lastFlushNs) >= 250_000_000;
            if due then t == s.(pending := 0, lastFlushNs := nowNs, durable := |s.file|) else t == s
  {}

  /** After a write the last flush is recent, on a clock that subtracts modulo 2^64. */
  lemma FlushIsRecent(s: Sink, line: string, env: WriteEnv)
    requires WriteLine(s, line, env).ready && s.isOpen
    ensures var t := WriteLine(s, line, env);
            && t.pending < 256
            && (t.lastFlushNs == env.nowNs || Sub64(env.nowNs, t.lastFlushNs) < 250_000_000)
  {
    hide MustRotate;
  }
}
