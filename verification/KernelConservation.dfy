/** Nothing is lost uncounted: balances of enters, exits, ring records and statistics. */
module KernelConservation {
  import opened Primitives
  import opened EventSchema
  import opened KernelModel

  /** What one handler run amounted to. */
  datatype Tally =
    | EnterTally(family: Family, enterFate: EnterFate)
    | SubmittedTally(family: Family)
    | MissedTally(family: Family)
    | ExitNoRingTally(family: Family)
    | EvictedTally(family: Family)
    | ProcessTally(submitted: bool)

  function TallyOf(o: Obs): Tally {
    match o
    case Entered(key, _, fate) => EnterTally(FamilyOf(key), fate)
    case Exited(key, _, _, Missed) => MissedTally(FamilyOf(key))
    case Exited(key, _, _, ExitNoRing) => ExitNoRingTally(FamilyOf(key))
    case Exited(key, _, _, Submitted(_)) => SubmittedTally(FamilyOf(key))
    case LruEvicted(key) => EvictedTally(FamilyOf(key))
    case ProcessSeen(_, submitted) => ProcessTally(submitted)
  }

  function Count(trace: seq<Obs>, t: Tally): nat
    decreases |trace|
  {
    if trace == [] then 0
    else Count(trace[..|trace| - 1], t) + if TallyOf(trace[|trace| - 1]) == t then 1 else 0
  }

  lemma CountSnoc(trace: seq<Obs>, o: Obs, t: Tally)
    ensures Count(trace + [o], t) == Count(trace, t) + if TallyOf(o) == t then 1 else 0
  {
    assert (trace + [o])[..|trace|] == trace;
  }

  /** The exits of one family that got past the gates. */
  function ExitsSeen(trace: seq<Obs>, f: Family): nat
    decreases |trace|
  {
    if trace == [] then 0 else
      var o := trace[|trace| - 1];
      ExitsSeen(trace[..|trace| - 1], f) + if o.Exited? && FamilyOf(o.key) == f then 1 else 0
  }

  function PendingKeys(pending: map<Key, Payload>, f: Family): set<Key> {
    set key | key in pending && FamilyOf(key) == f
  }

  // ---- saved enters -------------------------------------------------------

  /** Saved enters are still pending, submitted, dropped for want of ring space, or evicted. */
  ghost predicate Balanced(k: Kernel, f: Family) {
    Count(k.trace, EnterTally(f, Saved)) ==
    |PendingKeys(k.pending, f)| + Count(k.trace, SubmittedTally(f))
    + Count(k.trace, ExitNoRingTally(f)) + Count(k.trace, EvictedTally(f))
  }

  lemma PendingKeysAdd(pending: map<Key, Payload>, key: Key, p: Payload, f: Family)
    requires key !in pending
    ensures |PendingKeys(pending[key := p], f)| == |PendingKeys(pending, f)| + if FamilyOf(key) == f then 1 else 0
  {
    if FamilyOf(key) == f {
      assert PendingKeys(pending[key := p], f) == PendingKeys(pending, f) + {key};
    } else {
      assert PendingKeys(pending[key := p], f) == PendingKeys(pending, f);
    }
  }

  lemma PendingKeysRemove(pending: map<Key, Payload>, key: Key, f: Family)
    ensures |PendingKeys(pending - {key}, f)| ==
            |PendingKeys(pending, f)| - if key in pending && FamilyOf(key) == f then 1 else 0
  {
    if key in pending && FamilyOf(key) == f {
      assert PendingKeys(pending - {key}, f) == PendingKeys(pending, f) - {key};
    } else {
      assert PendingKeys(pending - {key}, f) == PendingKeys(pending, f);
    }
  }

  lemma CountsSnoc(trace: seq<Obs>, o: Obs, f: Family)
    ensures forall t :: t in {EnterTally(f, Saved), SubmittedTally(f), ExitNoRingTally(f), EvictedTally(f)} ==>
              Count(trace + [o], t) == Count(trace, t) + if TallyOf(o) == t then 1 else 0
  {
    CountSnoc(trace, o, EnterTally(f, Saved));
    CountSnoc(trace, o, SubmittedTally(f));
    CountSnoc(trace, o, ExitNoRingTally(f));
    CountSnoc(trace, o, EvictedTally(f));
  }

  lemma EnterBalances(k: Kernel, key: Key, p: Payload, env: EnterEnv, f: Family)
    requires Balanced(k, f)
    ensures Balanced(OnEnter(k, key, p, env), f)
  {
    hide PendingKeys, Count, FateOfEnter;
    var fate := FateOfEnter(k, key, env);
    CountsSnoc(k.trace, Entered(key, p, fate), f);
    if fate.Saved? {
      SavedIsNew(k, key, env);
      PendingKeysAdd(k.pending, key, p, f);
    }
  }

  lemma SavedIsNew(k: Kernel, key: Key, env: EnterEnv)
    ensures FateOfEnter(k, key, env).Saved? ==> key !in k.pending
  {}

  lemma ExitBalances(k: Kernel, key: Key, ret: s64, env: ExitEnv, f: Family)
    requires Balanced(k, f)
    ensures Balanced(OnExit(k, key, ret, env), f)
  {
    hide PendingKeys, Finish, FdsAfterExit, Count;
    CountsSnoc(k.trace, Exited(key, ret, env, FateOfExit(k, key, ret, env)), f);
    PendingKeysRemove(k.pending, key, f);
  }

  lemma EvictBalances(k: Kernel, key: Key, f: Family)
    requires Balanced(k, f) && key in k.pending
    ensures Balanced(k.(pending := k.pending - {key}, trace := k.trace + [LruEvicted(key)]), f)
  {
    hide PendingKeys, Count;
    CountsSnoc(k.trace, LruEvicted(key), f);
    PendingKeysRemove(k.pending, key, f);
  }

  lemma ProcessBalances(k: Kernel, ev: ProcessEvent, ring: bool, f: Family)
    requires Balanced(k, f)
    ensures Balanced(k.(trace := k.trace + [ProcessSeen(ev, ring)]), f)
  {
    hide PendingKeys, Count;
    CountsSnoc(k.trace, ProcessSeen(ev, ring), f);
  }

  lemma NextBalances(g: Gates, k: Kernel, s: Step, f: Family)
    requires Balanced(k, f)
    ensures Balanced(Next(g, k, s), f)
  {
    hide Balanced, OnEnter, OnExit, GateOpen, FdGateOpen;
    match s
    case Enter(key, p, env) => EnterBalances(k, key, p, env, f);
    case Exit(key, ret, env) => ExitBalances(k, key, ret, env, f);
    case LruEvict(key) => if key in k.pending { EvictBalances(k, key, f); }
    case ProcessHit(ev, ring) => ProcessBalances(k, ev, ring, f);
  }

  /** Conservation of saved enters, per family, in every reachable state. */
  lemma {:induction false} SavedEntersAreAccountedFor(g: Gates, steps: seq<Step>, f: Family)
    ensures Balanced(Run(g, steps), f)
    decreases |steps|
  {
    hide Next, Balanced;
    if steps == [] { BootBalances(f); } else {
      SavedEntersAreAccountedFor(g, steps[..|steps| - 1], f);
      NextBalances(g, Run(g, steps[..|steps| - 1]), steps[|steps| - 1], f);
    }
  }

  lemma BootBalances(f: Family)
    ensures Balanced(BOOT, f)
  {
    assert PendingKeys(BOOT.pending, f) == {};
  }

  /** Every gated exit is submitted, counted as a miss, or counted as a failed reservation. */
  lemma {:induction false} ExitsAreAccountedFor(trace: seq<Obs>, f: Family)
    ensures ExitsSeen(trace, f) ==
            Count(trace, SubmittedTally(f)) + Count(trace, MissedTally(f)) + Count(trace, ExitNoRingTally(f))
    decreases |trace|
  {
    if trace != [] { ExitsAreAccountedFor(trace[..|trace| - 1], f); }
  }

  // ---- ring-buffer records ------------------------------------------------

  /** The handler run obtained a ring record. */
  predicate Reserves(o: Obs) {
    match o
    case Entered(_, _, fate) => fate != EnterNoRing
    case Exited(_, _, _, fate) => fate.Submitted?
    case LruEvicted(_) => false
    case ProcessSeen(_, submitted) => submitted
  }

  /** The handler run gave its ring record back unused: every enter that got one does. */
  predicate Discards(o: Obs) { o.Entered? && o.enterFate != EnterNoRing }

  function Reserved(trace: seq<Obs>): nat
    decreases |trace|
  {
    if trace == [] then 0 else Reserved(trace[..|trace| - 1]) + if Reserves(trace[|trace| - 1]) then 1 else 0
  }

  function Discarded(trace: seq<Obs>): nat
    decreases |trace|
  {
    if trace == [] then 0 else Discarded(trace[..|trace| - 1]) + if Discards(trace[|trace| - 1]) then 1 else 0
  }

  /** Ring records obtained are records submitted plus records discarded. */
  lemma {:induction false} RingRecordsBalance(trace: seq<Obs>)
    ensures Reserved(trace) == |Stream(trace)| + Discarded(trace)
    decreases |trace|
  {
    if trace != [] { RingRecordsBalance(trace[..|trace| - 1]); }
  }

  // ---- statistics ---------------------------------------------------------

  const STAT_MAX: nat := 10

  /** The counter one handler run bumps, if any (`enum bpf_stat_key`). */
  function StatOf(o: Obs): Option<nat> {
    match TallyOf(o)
    case EnterTally(_, EnterNoRing) => Some(0)
    case ExitNoRingTally(_) => Some(0)
    case ProcessTally(false) => Some(0)
    case EnterTally(f, StoreFailed) => Some(FirstStat(f))
    case EnterTally(f, Collided) => Some(FirstStat(f) + 1)
    case MissedTally(f) => Some(FirstStat(f) + 2)
    case _ => None
  }

  /** The save-fail key of a family; collision and miss follow it. */
  function FirstStat(f: Family): nat {
    match f case FileFamily => 1 case SyscallFamily => 4 case NetworkFamily => 7
  }

  function StatCount(trace: seq<Obs>, stat: nat): nat
    decreases |trace|
  {
    if trace == [] then 0
    else StatCount(trace[..|trace| - 1], stat) + if StatOf(trace[|trace| - 1]) == Some(stat) then 1 else 0
  }

  lemma StatCountSnoc(trace: seq<Obs>, o: Obs, stat: nat)
    ensures StatCount(trace + [o], stat) == StatCount(trace, stat) + if StatOf(o) == Some(stat) then 1 else 0
  {
    assert (trace + [o])[..|trace|] == trace;
  }

  /** What a family's three counters mean: which handler outcomes each of them adds up. */
  lemma {:induction false} FamilyCountersMean(trace: seq<Obs>, f: Family)
    ensures StatCount(trace, FirstStat(f)) == Count(trace, EnterTally(f, StoreFailed))
    ensures StatCount(trace, FirstStat(f) + 1) == Count(trace, EnterTally(f, Collided))
    ensures StatCount(trace, FirstStat(f) + 2) == Count(trace, MissedTally(f))
    decreases |trace|
  {
    if trace != [] { FamilyCountersMean(trace[..|trace| - 1], f); }
  }

  function RingFailures(trace: seq<Obs>, f: Family): nat {
    Count(trace, EnterTally(f, EnterNoRing)) + Count(trace, ExitNoRingTally(f))
  }

  /** The shared counter adds up the failed reservations of every handler. */
  lemma {:induction false} RingCounterMeans(trace: seq<Obs>)
    ensures StatCount(trace, 0) == RingFailures(trace, FileFamily) + RingFailures(trace, SyscallFamily)
                                   + RingFailures(trace, NetworkFamily) + Count(trace, ProcessTally(false))
    decreases |trace|
  {
    if trace != [] {
      var before, o := trace[..|trace| - 1], trace[|trace| - 1];
      RingCounterMeans(before);
      RingFailuresStep(trace, FileFamily);
      RingFailuresStep(trace, SyscallFamily);
      RingFailuresStep(trace, NetworkFamily);
      hide RingFailures, StatCount, Count;
      RingStatStep(trace);
    }
  }

  lemma RingFailuresStep(trace: seq<Obs>, f: Family)
    requires trace != []
    ensures RingFailures(trace, f) == RingFailures(trace[..|trace| - 1], f)
            + if TallyOf(trace[|trace| - 1]) in {EnterTally(f, EnterNoRing), ExitNoRingTally(f)} then 1 else 0
  {}

  lemma RingStatStep(trace: seq<Obs>)
    requires trace != []
    ensures var before, o := trace[..|trace| - 1], trace[|trace| - 1];
            && StatCount(trace, 0) == StatCount(before, 0) + (if StatOf(o) == Some(0) then 1 else 0)
            && Count(trace, ProcessTally(false)) ==
               Count(before, ProcessTally(false)) + (if TallyOf(o) == ProcessTally(false) then 1 else 0)
  {}

  /**
   * The books of one family close: saved enters are pending, evicted, or met by an exit, and
   * the exits that met none are the reported misses.
   */
  lemma BooksClose(g: Gates, steps: seq<Step>, f: Family)
    ensures var k := Run(g, steps);
            Count(k.trace, EnterTally(f, Saved)) + StatCount(k.trace, FirstStat(f) + 2) ==
            |PendingKeys(k.pending, f)| + Count(k.trace, EvictedTally(f)) + ExitsSeen(k.trace, f)
  {
    hide Run, PendingKeys, Count, StatCount, ExitsSeen;
    SavedEntersAreAccountedFor(g, steps, f);
    ExitsAreAccountedFor(Run(g, steps).trace, f);
    FamilyCountersMean(Run(g, steps).trace, f);
  }
}
