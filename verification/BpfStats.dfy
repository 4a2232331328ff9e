/**
 * The per-CPU counters and the ring buffer's books (bpf/event_logger_common.bpf.h:302-307), and
 * how userspace totals them (src/collector/collector_libbpf.cpp:521-542).
 */
module BpfStats {
  import opened Primitives
  import opened KernelModel
  import opened KernelConservation

  /** `a + b` and `a + 1` on `uint64_t`. */
  function Add64(a: u64, b: u64): u64 { if a + b < TWO_64 then a + b else a + b - TWO_64 }

  function Inc64(x: u64): u64 { if x + 1 == TWO_64 then 0 else x + 1 }

  lemma WrapBump(n: nat)
    ensures ToU64(n + 1) == Inc64(ToU64(n))
  {}

  function SumMod(slots: seq<u64>): u64
    decreases |slots|
  {
    if slots == [] then 0 else Add64(SumMod(slots[..|slots| - 1]), slots[|slots| - 1])
  }

  /** `(*cnt)++` on one CPU's slot. */
  function BumpSlot(slots: seq<u64>, cpu: nat): seq<u64>
    requires cpu < |slots|
  {
    slots[cpu := Inc64(slots[cpu])]
  }

  /** One increment on any CPU raises the total by one. */
  lemma {:induction false} SumModBump(slots: seq<u64>, cpu: nat)
    requires cpu < |slots|
    ensures SumMod(BumpSlot(slots, cpu)) == Inc64(SumMod(slots))
    decreases |slots|
  {
    var n := |slots| - 1;
    var bumped := BumpSlot(slots, cpu);
    if cpu < n {
      SumModBump(slots[..n], cpu);
      assert bumped[..n] == BumpSlot(slots[..n], cpu);
    } else {
      assert bumped[..n] == slots[..n];
    }
  }

  /** The values after increments on the CPUs listed in `hits`, from all zero. */
  function AfterHits(cpus: nat, hits: seq<nat>): seq<u64>
    requires forall i :: 0 <= i < |hits| ==> hits[i] < cpus
    ensures |AfterHits(cpus, hits)| == cpus
    decreases |hits|
  {
    if hits == [] then seq(cpus, _ => 0)
    else BumpSlot(AfterHits(cpus, hits[..|hits| - 1]), hits[|hits| - 1])
  }

  lemma {:induction false} ZeroSlots(cpus: nat)
    ensures SumMod(seq(cpus, _ => 0)) == 0
  {
    if cpus > 0 {
      ZeroSlots(cpus - 1);
      assert seq(cpus, _ => 0)[..cpus - 1] == seq(cpus - 1, _ => 0);
    }
  }

  /** However the calls are spread over CPUs, the reported total is their number modulo 2^64. */
  lemma {:induction false} TotalIsExact(cpus: nat, hits: seq<nat>)
    requires forall i :: 0 <= i < |hits| ==> hits[i] < cpus
    ensures SumMod(AfterHits(cpus, hits)) == ToU64(|hits|)
    decreases |hits|
  {
    if hits == [] { ZeroSlots(cpus); } else {
      TotalIsExact(cpus, hits[..|hits| - 1]);
      SumModBump(AfterHits(cpus, hits[..|hits| - 1]), hits[|hits| - 1]);
      WrapBump(|hits| - 1);
    }
  }

  /** The user half of `ReadPerCpuCounter`: add up what the map lookup returned for each CPU. */
  method AddUp(values: seq<u64>) returns (total: u64)
    ensures total == SumMod(values)
  {
    total := 0;
    for i := 0 to |values|
      invariant total == SumMod(values[..i])
    {
      assert values[..i + 1][..i] == values[..i];
      total := Add64(total, values[i]);
    }
    assert values[..|values|] == values;
  }

  // ---- what userspace reports ---------------------------------------------

  datatype FamilyStats = FamilyStats(saveFail: u64, collision: u64, miss: u64)

  /** `struct KernelBpfStats` */
  datatype KernelBpfStats = KernelBpfStats(ringbufReserveFail: u64, fileState: FamilyStats, syscallState: FamilyStats,
                                           networkState: FamilyStats)

  /** The handler outcomes that each reported field stands for, modulo 2^64. */
  function FamilyReport(trace: seq<Obs>, f: Family): FamilyStats {
    FamilyStats(ToU64(Count(trace, EnterTally(f, StoreFailed))), ToU64(Count(trace, EnterTally(f, Collided))),
                ToU64(Count(trace, MissedTally(f))))
  }

  function FailedReservations(trace: seq<Obs>): nat {
    RingFailures(trace, FileFamily) + RingFailures(trace, SyscallFamily) + RingFailures(trace, NetworkFamily)
    + Count(trace, ProcessTally(false))
  }

  function Report(trace: seq<Obs>): KernelBpfStats {
    KernelBpfStats(ToU64(FailedReservations(trace)), FamilyReport(trace, FileFamily), FamilyReport(trace, SyscallFamily),
                   FamilyReport(trace, NetworkFamily))
  }

  /** Reading the ten keys in order gives the report. */
  lemma ReportReadsKeys(trace: seq<Obs>)
    ensures Report(trace) ==
            KernelBpfStats(ToU64(StatCount(trace, 0)),
                           FamilyStats(ToU64(StatCount(trace, 1)), ToU64(StatCount(trace, 2)), ToU64(StatCount(trace, 3))),
                           FamilyStats(ToU64(StatCount(trace, 4)), ToU64(StatCount(trace, 5)), ToU64(StatCount(trace, 6))),
                           FamilyStats(ToU64(StatCount(trace, 7)), ToU64(StatCount(trace, 8)), ToU64(StatCount(trace, 9))))
  {
    hide StatCount, Count, RingFailures, ToU64;
    RingCounterMeans(trace);
    FamilyCountersMean(trace, FileFamily);
    FamilyCountersMean(trace, SyscallFamily);
    FamilyCountersMean(trace, NetworkFamily);
  }

  /** The field a key is read into. */
  function WithStat(r: KernelBpfStats, key: nat, total: u64): KernelBpfStats {
    if key == 0 then r.(ringbufReserveFail := total)
    else if key < 4 then r.(fileState := WithFamilyStat(r.fileState, key - 1, total))
    else if key < 7 then r.(syscallState := WithFamilyStat(r.syscallState, key - 4, total))
    else r.(networkState := WithFamilyStat(r.networkState, key - 7, total))
  }

  function WithFamilyStat(f: FamilyStats, i: nat, total: u64): FamilyStats {
    if i == 0 then f.(saveFail := total) else if i == 1 then f.(collision := total) else f.(miss := total)
  }

  function OverwrittenFamily(prior: FamilyStats, now: FamilyStats, first: nat, n: nat): FamilyStats {
    FamilyStats(if n > first then now.saveFail else prior.saveFail,
                if n > first + 1 then now.collision else prior.collision,
                if n > first + 2 then now.miss else prior.miss)
  }

  /** A struct of which the fields of the first `n` keys were overwritten. */
  function Overwritten(prior: KernelBpfStats, now: KernelBpfStats, n: nat): KernelBpfStats {
    KernelBpfStats(if n > 0 then now.ringbufReserveFail else prior.ringbufReserveFail,
                   OverwrittenFamily(prior.fileState, now.fileState, 1, n),
                   OverwrittenFamily(prior.syscallState, now.syscallState, 4, n),
                   OverwrittenFamily(prior.networkState, now.networkState, 7, n))
  }

  /** The first key from `key` on whose lookup fails, or the number of keys. */
  function FirstUnread(readable: set<nat>, key: nat): nat
    requires key <= STAT_MAX
    decreases STAT_MAX - key
  {
    if key == STAT_MAX || key !in readable then key else FirstUnread(readable, key + 1)
  }

  lemma OverwrittenNone(prior: KernelBpfStats, now: KernelBpfStats)
    ensures Overwritten(prior, now, 0) == prior
    ensures Overwritten(prior, now, STAT_MAX) == now
  {}

  /** Reading one more key overwrites its own field with the count it stands for. */
  lemma OverwrittenOne(prior: KernelBpfStats, trace: seq<Obs>, key: nat)
    requires key < STAT_MAX
    ensures Overwritten(prior, Report(trace), key + 1)
            == WithStat(Overwritten(prior, Report(trace), key), key, ToU64(StatCount(trace, key)))
  {
    ReportReadsKeys(trace);
    hide Report, StatCount, ToU64;
  }

  function ReportOf(r: KernelBpfStats, f: Family): FamilyStats {
    match f case FileFamily => r.fileState case SyscallFamily => r.syscallState case NetworkFamily => r.networkState
  }

  /** Below 2^64 the reported misses close the books of each family. */
  lemma ReportedBooksClose(g: Gates, steps: seq<Step>, f: Family)
    requires Count(Run(g, steps).trace, MissedTally(f)) < TWO_64
    ensures var k := Run(g, steps);
            Count(k.trace, EnterTally(f, Saved)) + ReportOf(Report(k.trace), f).miss ==
            |PendingKeys(k.pending, f)| + Count(k.trace, EvictedTally(f)) + ExitsSeen(k.trace, f)
  {
    hide Run, PendingKeys, Count, StatCount, ExitsSeen;
    BooksClose(g, steps, f);
    FamilyCountersMean(Run(g, steps).trace, f);
  }

  // ---- the books ----------------------------------------------------------

  /** Counters, the ring records held right now, and what became of the others. */
  datatype Books = Books(stats: map<nat, seq<u64>>, open: set<nat>, reserved: nat, discarded: nat,
                         stream: seq<Record>)

  ghost predicate StatFits(stats: map<nat, seq<u64>>, cpus: nat, trace: seq<Obs>, stat: nat) {
    stat in stats && |stats[stat]| == cpus && SumMod(stats[stat]) == ToU64(StatCount(trace, stat))
  }

  /**
   * Between handlers no ring record is held, every one obtained was submitted or discarded, and
   * each counter totals the handler runs it is meant to count.
   */
  ghost predicate BooksFit(b: Books, cpus: nat, trace: seq<Obs>) {
    && b.open == {} && b.stream == Stream(trace)
    && b.discarded == Discarded(trace) && b.reserved == Reserved(trace)
    && forall stat :: 0 <= stat < STAT_MAX ==> StatFits(b.stats, cpus, trace, stat)
  }

  function Bumped(stats: map<nat, seq<u64>>, stat: nat, cpu: nat): map<nat, seq<u64>> {
    if stat in stats && cpu < |stats[stat]| then stats[stat := BumpSlot(stats[stat], cpu)] else stats
  }

  /** The counters after the handler run `o` on `cpu`. */
  function StatsAfter(stats: map<nat, seq<u64>>, o: Obs, cpu: nat): map<nat, seq<u64>> {
    match StatOf(o) case Some(stat) => Bumped(stats, stat, cpu) case None => stats
  }

  function BooksAfter(b: Books, o: Obs, cpu: nat): Books {
    Books(StatsAfter(b.stats, o, cpu), {},
          b.reserved + (if Reserves(o) then 1 else 0), b.discarded + (if Discards(o) then 1 else 0),
          match Emitted(o) case Some(rec) => b.stream + [rec] case None => b.stream)
  }

  lemma StatFitsAfter(stats: map<nat, seq<u64>>, cpus: nat, trace: seq<Obs>, o: Obs, cpu: nat, stat: nat)
    requires StatFits(stats, cpus, trace, stat) && cpu < cpus
    ensures StatFits(StatsAfter(stats, o, cpu), cpus, trace + [o], stat)
  {
    hide StatOf, ToU64, SumMod, StatCount, Inc64;
    StatCountSnoc(trace, o, stat);
    SumModBump(stats[stat], cpu);
    WrapBump(StatCount(trace, stat));
  }

  /** A handler that enters its run in the books leaves them right. */
  lemma BooksStayRight(b: Books, cpus: nat, trace: seq<Obs>, o: Obs, cpu: nat)
    requires BooksFit(b, cpus, trace) && cpu < cpus
    ensures BooksFit(BooksAfter(b, o, cpu), cpus, trace + [o])
  {
    hide StatFits, StatsAfter, Emitted, Reserves, Discards;
    assert (trace + [o])[..|trace|] == trace;
    forall stat | 0 <= stat < STAT_MAX ensures StatFits(StatsAfter(b.stats, o, cpu), cpus, trace + [o], stat) {
      StatFitsAfter(b.stats, cpus, trace, o, cpu, stat);
    }
  }
}
