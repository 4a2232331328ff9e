/** What holds over every run of `Ingest`: identity, frozen history, bounds, lineage, throttling. */
module RegistryRuns {
  import opened Primitives
  import opened RegistryModel
  import opened RegistryInvariants

  lemma {:induction false} RunIsGood(steps: seq<Step>)
    ensures Good(Run(steps))
    decreases |steps|
  {
    if steps == [] { EmptyIsGood(); } else {
      RunIsGood(steps[..|steps| - 1]);
      IngestKeepsGood(Run(steps[..|steps| - 1]), steps[|steps| - 1]);
    }
  }

  /**
   * In every reachable registry the index maps a key to an id exactly when that id is retained,
   * not exited and known under the key; so a key has at most one live entity, and
   * the branch for a dangling index entry is never taken.
   */
  lemma IndexIsExact(steps: seq<Step>, key: u32, id: nat)
    ensures var r := Run(steps);
            && (Indexed(r, key, id) <==> LiveAs(r, key, id))
            && (forall other: nat :: LiveAs(r, key, id) && LiveAs(r, key, other) ==> id == other)
            && (key in r.tgidIndex ==> r.tgidIndex[key] in r.processes)
  {
    RunIsGood(steps);
    var r := Run(steps);
    if key in r.tgidIndex { assert Indexed(r, key, r.tgidIndex[key]); }
    forall other: nat | LiveAs(r, key, id) && LiveAs(r, key, other) ensures id == other {
      assert Indexed(r, key, id) && Indexed(r, key, other);
    }
  }

  // ---- frozen history -----------------------------------------------------

  /** What may become of one entity: key and birth fixed, start and parent written once, exit final. */
  predicate FieldsEvolve(e: ProcessEntity, f: ProcessEntity) {
    && f.id == e.id && EntityKey(f) == EntityKey(e) && f.firstSeenNs == e.firstSeenNs
    && (e.startTimeTicks != 0 ==> f.startTimeTicks == e.startTimeTicks)
    && (e.parentId != 0 ==> f.parentId == e.parentId)
    && (e.exited ==> f == e)
  }

  /** `s` comes later in a run than `r`: no id returns once gone, and each entity evolves. */
  ghost predicate Evolves(r: Registry, s: Registry) {
    && r.nextId <= s.nextId && r.notes <= s.notes
    && (forall id :: id in r.processes && id in s.processes ==> FieldsEvolve(r.processes[id], s.processes[id]))
    && (forall id :: id in s.processes && id < r.nextId ==> id in r.processes)
  }

  lemma EvolvesChain(r: Registry, s: Registry, t: Registry)
    requires WellNumbered(r) && Evolves(r, s) && Evolves(s, t)
    ensures Evolves(r, t)
  {}

  /** The two ways a nonzero key resolves, without the details of either. */
  lemma ResolveShape(r: Registry, a: Actor, nowNs: u64, refresh: bool, view: ProcView, victim: nat)
    ensures var key := ActorKey(a);
            ResolveProcess(r, a, nowNs, refresh, view, victim) ==
            if key == 0 then (r, 0)
            else if Hits(r, key, nowNs, view)
            then (Touch(r, key, a, nowNs, refresh, view.refresh), r.tgidIndex[key])
            else (EvictIfNeeded(Insert(Cleared(r, key, nowNs), key, a, nowNs, view.refresh), victim), r.nextId)
  {
    hide Touch, EvictIfNeeded, Insert, Cleared, ActorKey;
  }

  lemma TouchEvolves(r: Registry, key: u32, a: Actor, nowNs: u64, refresh: bool, t: ProcFacts)
    requires Good(r) && key == ActorKey(a) != 0
    requires key in r.tgidIndex && r.tgidIndex[key] in r.processes
    ensures Evolves(r, Touch(r, key, a, nowNs, refresh, t))
  {
    assert Indexed(r, key, r.tgidIndex[key]) && LiveAs(r, key, r.tgidIndex[key]);
  }

  lemma ClearedEvolves(r: Registry, key: u32, nowNs: u64)
    requires Good(r)
    ensures Evolves(r, Cleared(r, key, nowNs)) && Cleared(r, key, nowNs).nextId == r.nextId
  {
    if key in r.tgidIndex {
      assert Indexed(r, key, r.tgidIndex[key]) && LiveAs(r, key, r.tgidIndex[key]);
    }
  }

  lemma InsertEvolves(r: Registry, key: u32, a: Actor, nowNs: u64, t: ProcFacts)
    requires Good(r)
    ensures Evolves(r, Insert(r, key, a, nowNs, t))
  {}

  /** Resolution evolves the registry and yields an id that is live if it is retained at all. */
  lemma ResolveEvolves(r: Registry, a: Actor, nowNs: u64, refresh: bool, view: ProcView, victim: nat)
    requires Good(r)
    ensures var (s, id) := ResolveProcess(r, a, nowNs, refresh, view, victim);
            && Evolves(r, s) && Good(s)
            && id < s.nextId
            && (id in s.processes ==> LiveAs(s, ActorKey(a), id))
            && (id in r.processes ==> Live(r, id))
  {
    hide ResolveProcess, Touch, Insert, Cleared;
    ResolveShape(r, a, nowNs, refresh, view, victim);
    ResolveKeepsGood(r, a, nowNs, refresh, view, victim);
    var key := ActorKey(a);
    if key != 0 {
      if Hits(r, key, nowNs, view) {
        assert Indexed(r, key, r.tgidIndex[key]) && LiveAs(r, key, r.tgidIndex[key]);
        TouchEvolves(r, key, a, nowNs, refresh, view.refresh);
        TouchKeepsGood(r, key, a, nowNs, refresh, view.refresh);
      } else {
        var cleared := Cleared(r, key, nowNs);
        ClearedEvolves(r, key, nowNs);
        ClearedKeepsGood(r, key, nowNs);
        InsertEvolves(cleared, key, a, nowNs, view.refresh);
        InsertKeepsGood(cleared, key, a, nowNs, view.refresh);
        var full := Insert(cleared, key, a, nowNs, view.refresh);
        EvolvesChain(r, cleared, full);
        assert Evolves(full, EvictIfNeeded(full, victim));
        EvolvesChain(r, full, EvictIfNeeded(full, victim));
      }
    }
  }

  lemma AfterActionEvolves(r: Registry, s: Step)
    requires Good(r)
    ensures Evolves(r, AfterAction(r, s).0)
  {
    hide ResolveProcess, ChildActor;
    ResolveEvolves(r, s.ev.actor, s.ev.tsNs, s.ev.action.ProcessExeced?, s.subjectView, s.subjectVictim);
    var (r1, subject) := ResolveSubject(r, s);
    if s.ev.action.ProcessExited? {
      EvolvesChain(r, r1, AfterAction(r, s).0);
    } else if StartsChild(s.ev) {
      var child := ChildActor(s.ev.childPid, s.ev.actor);
      ResolveEvolves(r1, child, s.ev.tsNs, true, s.childView, s.childVictim);
      var (r2, id) := ResolveProcess(r1, child, s.ev.tsNs, true, s.childView, s.childVictim);
      assert Evolves(r2, AdoptChild(r2, id, subject));
      EvolvesChain(r1, r2, AdoptChild(r2, id, subject));
      EvolvesChain(r, r1, AdoptChild(r2, id, subject));
    }
  }

  lemma IngestEvolves(r: Registry, s: Step)
    requires Good(r)
    ensures Evolves(r, Ingest(r, s).0)
  {
    AfterActionEvolves(r, s);
    ResolveEvolves(r, s.ev.actor, s.ev.tsNs, s.ev.action.ProcessExeced?, s.subjectView, s.subjectVictim);
  }

  /**
   * Between any two points of a run an id keeps its key and first-seen time, its start time and
   * parent change at most once and only from 0, an entity that had exited is unchanged in
   * every field, and an evicted id never comes back.
   */
  lemma {:induction false} HistoryIsFrozen(steps: seq<Step>, i: nat, j: nat)
    requires i <= j <= |steps|
    ensures Evolves(Run(steps[..i]), Run(steps[..j]))
    decreases j - i
  {
    hide Ingest;
    if i < j {
      HistoryIsFrozen(steps, i, j - 1);
      RunIsGood(steps[..i]);
      RunIsGood(steps[..j - 1]);
      IngestEvolves(Run(steps[..j - 1]), steps[j - 1]);
      assert steps[..j][..j - 1] == steps[..j - 1];
      EvolvesChain(Run(steps[..i]), Run(steps[..j - 1]), Run(steps[..j]));
    }
  }

  // ---- stable identity ----------------------------------------------------

  /** Where in the history the subject of step `s` was resolved. */
  function ResolvedAt(r: Registry, s: Step): nat {
    var key := ActorKey(s.ev.actor);
    if Hits(r, key, s.ev.tsNs, s.subjectView) then |AfterCheck(r, r.tgidIndex[key], s.ev.tsNs).notes|
    else |Cleared(r, key, s.ev.tsNs).notes|
  }

  lemma ResolutionIsNoted(r: Registry, s: Step)
    requires Good(r) && ActorKey(s.ev.actor) != 0
    ensures var (after, id) := ResolveSubject(r, s);
            && |r.notes| <= ResolvedAt(r, s) < |after.notes|
            && after.notes[ResolvedAt(r, s)] == Resolved(ActorKey(s.ev.actor), id)
  {
    hide ResolveProcess, Touch, Insert, Cleared, Good, AfterCheck;
    var key, now, exec := ActorKey(s.ev.actor), s.ev.tsNs, s.ev.action.ProcessExeced?;
    ResolveShape(r, s.ev.actor, now, exec, s.subjectView, s.subjectVictim);
    if Hits(r, key, now, s.subjectView) {
      TouchNotes(r, key, s.ev.actor, now, exec, s.subjectView.refresh);
    } else {
      ClearedEvolves(r, key, now);
      InsertNotes(Cleared(r, key, now), key, s.ev.actor, now, s.subjectView.refresh, s.subjectVictim);
    }
  }

  lemma TouchNotes(r: Registry, key: u32, a: Actor, nowNs: u64, refresh: bool, t: ProcFacts)
    requires key in r.tgidIndex && r.tgidIndex[key] in r.processes
    ensures var id := r.tgidIndex[key];
            && r.notes <= AfterCheck(r, id, nowNs).notes
            && Touch(r, key, a, nowNs, refresh, t).notes == AfterCheck(r, id, nowNs).notes + [Resolved(key, id)]
  {}

  lemma InsertNotes(r: Registry, key: u32, a: Actor, nowNs: u64, t: ProcFacts, victim: nat)
    ensures r.notes + [Resolved(key, r.nextId)] <= EvictIfNeeded(Insert(r, key, a, nowNs, t), victim).notes
  {}

  lemma NotesGrow(r: Registry, s: Step)
    requires Good(r)
    ensures ResolveSubject(r, s).0.notes <= Ingest(r, s).0.notes
  {
    hide HistoryFits, ResolvedWhileLive, IdentityLaw, ResolveProcess, ChildActor;
    ResolveEvolves(r, s.ev.actor, s.ev.tsNs, s.ev.action.ProcessExeced?, s.subjectView, s.subjectVictim);
    if StartsChild(s.ev) {
      ResolveEvolves(ResolveSubject(r, s).0, ChildActor(s.ev.childPid, s.ev.actor), s.ev.tsNs, true,
                     s.childView, s.childVictim);
    }
  }

  /** The i-th event of a run named `key`, was given `id`, and the history says so at `p`. */
  ghost predicate EventNotedAt(steps: seq<Step>, i: nat, key: u32, id: nat, p: nat)
    requires i < |steps|
  {
    && p < |Run(steps).notes| && Run(steps).notes[p] == Resolved(key, id)
    && |Run(steps[..i]).notes| <= p < |Run(steps[..i + 1]).notes|
  }

  lemma EventIsNoted(steps: seq<Step>, i: nat)
    requires i < |steps| && ActorKey(steps[i].ev.actor) != 0
    ensures EventNotedAt(steps, i, ActorKey(steps[i].ev.actor), SubjectId(steps, i),
                         ResolvedAt(Run(steps[..i]), steps[i]))
  {
    var r := Run(steps[..i]);
    RunIsGood(steps[..i]);
    ResolutionIsNoted(r, steps[i]);
    NotesGrow(r, steps[i]);
    assert steps[..i + 1][..i] == steps[..i];
    assert Run(steps[..i + 1]) == Ingest(r, steps[i]).0;
    HistoryIsFrozen(steps, i + 1, |steps|);
    assert steps[..|steps|] == steps;
  }

  /**
   * Stable identity: two events of a run, however far apart, get one subject id exactly when
   * they name the same key and no exit, reuse or eviction retired that entity between the
   * two resolutions.
   */
  lemma StableIdentity(steps: seq<Step>, i: nat, j: nat)
    requires i < j < |steps|
    requires ActorKey(steps[i].ev.actor) != 0 && ActorKey(steps[j].ev.actor) != 0
    ensures var notes := Run(steps).notes;
            var p, q := ResolvedAt(Run(steps[..i]), steps[i]), ResolvedAt(Run(steps[..j]), steps[j]);
            && p < q < |notes|
            && (SubjectId(steps, i) == SubjectId(steps, j) <==>
                  ActorKey(steps[i].ev.actor) == ActorKey(steps[j].ev.actor)
                  && !RetiredIn(notes, p + 1, q, SubjectId(steps, i)))
  {
    hide Run, Ingest, ResolvedAt;
    RunIsGood(steps);
    EventIsNoted(steps, i);
    EventIsNoted(steps, j);
    HistoryIsFrozen(steps, i + 1, j);
    assert IdentityLaw(Run(steps).notes);
  }

  // ---- bounded eviction ---------------------------------------------------

  lemma TouchKeepsKeys(r: Registry, key: u32, a: Actor, nowNs: u64, refresh: bool, t: ProcFacts)
    requires key in r.tgidIndex && r.tgidIndex[key] in r.processes
    ensures Touch(r, key, a, nowNs, refresh, t).processes.Keys == r.processes.Keys
  {}

  lemma ResolveKeepsBound(r: Registry, a: Actor, nowNs: u64, refresh: bool, view: ProcView, victim: nat)
    requires |r.processes| <= MAX_ENTRIES && ScanAllows(r, a, nowNs, view, victim)
    ensures |ResolveProcess(r, a, nowNs, refresh, view, victim).0.processes| <= MAX_ENTRIES
  {
    hide ResolveProcess, Touch, Insert, Cleared;
    ResolveShape(r, a, nowNs, refresh, view, victim);
    var key := ActorKey(a);
    var after := ResolveProcess(r, a, nowNs, refresh, view, victim).0;
    if key == 0 {
    } else if Hits(r, key, nowNs, view) {
      TouchKeepsKeys(r, key, a, nowNs, refresh, view.refresh);
      SameKeysSameSize(r.processes, after.processes);
    } else {
      var full := Insert(Cleared(r, key, nowNs), key, a, nowNs, view.refresh);
      ClearedKeepsLastSeen(r, key, nowNs);
      InsertIsRecent(Cleared(r, key, nowNs), key, a, nowNs, view.refresh);
      assert |full.processes.Keys| <= |r.processes.Keys| + 1;
      assert |full.processes| == |full.processes.Keys| && |r.processes| == |r.processes.Keys|;
      if |full.processes| > MAX_ENTRIES {
        assert after.processes.Keys == full.processes.Keys - {victim};
        assert |after.processes| == |after.processes.Keys|;
      }
    }
  }

  lemma SameKeysSameSize(m: map<nat, ProcessEntity>, n: map<nat, ProcessEntity>)
    requires m.Keys == n.Keys
    ensures |m| == |n|
  {
    assert |m| == |m.Keys| && |n| == |n.Keys|;
  }

  lemma IngestKeepsBound(r: Registry, s: Step)
    requires |r.processes| <= MAX_ENTRIES && Legal(r, s)
    ensures |Ingest(r, s).0.processes| <= MAX_ENTRIES
  {
    hide ResolveProcess, ScanAllows, ActorKey;
    ResolveKeepsBound(r, s.ev.actor, s.ev.tsNs, s.ev.action.ProcessExeced?, s.subjectView, s.subjectVictim);
    var r1, r2, r3 := ResolveSubject(r, s).0, AfterAction(r, s).0, Ingest(r, s).0;
    if StartsChild(s.ev) {
      var child := ChildActor(s.ev.childPid, s.ev.actor);
      ResolveKeepsBound(r1, child, s.ev.tsNs, true, s.childView, s.childVictim);
      SameKeysSameSize(r2.processes, ResolveProcess(r1, child, s.ev.tsNs, true, s.childView, s.childVictim).0.processes);
    } else {
      SameKeysSameSize(r1.processes, r2.processes);
    }
    SameKeysSameSize(r2.processes, r3.processes);
  }

  /** At most 8192 entities are retained after every event of every run. */
  lemma {:induction false} RetainedIsBounded(steps: seq<Step>)
    requires LegalRun(steps)
    ensures |Run(steps).processes| <= 8192
    decreases |steps|
  {
    hide Ingest, Legal;
    if steps != [] {
      RetainedIsBounded(steps[..|steps| - 1]);
      IngestKeepsBound(Run(steps[..|steps| - 1]), steps[|steps| - 1]);
    }
  }

  predicate Older(r: Registry, id: nat, nowNs: u64) {
    id in r.processes && r.processes[id].lastSeenNs < nowNs
  }

  lemma ClearedKeepsLastSeen(r: Registry, key: u32, nowNs: u64)
    ensures var cleared := Cleared(r, key, nowNs);
            cleared.processes.Keys == r.processes.Keys
            && forall x :: x in r.processes ==> cleared.processes[x].lastSeenNs == r.processes[x].lastSeenNs
  {}

  lemma InsertIsRecent(r: Registry, key: u32, a: Actor, nowNs: u64, t: ProcFacts)
    ensures var full := Insert(r, key, a, nowNs, t);
            && full.processes.Keys == r.processes.Keys + {r.nextId}
            && full.processes[r.nextId].lastSeenNs == nowNs
            && forall x :: x in r.processes && x != r.nextId ==> full.processes[x] == r.processes[x]
  {}

  /** Eviction with something older around changes nothing else and spares all recent entities. */
  lemma EvictSparesAllRecent(full: Registry, victim: nat, nowNs: u64, u: nat)
    requires |full.processes| <= MAX_ENTRIES || LeastRecentlySeen(full, victim)
    requires Older(full, u, nowNs)
    ensures forall x :: x in full.processes && (x != victim || full.processes[x].lastSeenNs == nowNs) ==>
              x in EvictIfNeeded(full, victim).processes
              && EvictIfNeeded(full, victim).processes[x] == full.processes[x]
  {}

  lemma InsertAfterCleared(r: Registry, key: u32, a: Actor, nowNs: u64, t: ProcFacts)
    requires WellNumbered(r)
    ensures var full := Insert(Cleared(r, key, nowNs), key, a, nowNs, t);
            && r.nextId in full.processes && full.processes[r.nextId].lastSeenNs == nowNs
            && forall x :: x in r.processes ==>
                 x in full.processes && full.processes[x].lastSeenNs == r.processes[x].lastSeenNs
  {
    hide Insert;
    ClearedKeepsLastSeen(r, key, nowNs);
    InsertIsRecent(Cleared(r, key, nowNs), key, a, nowNs, t);
  }

  /** Resolving an unknown key keeps the newcomer and everything as recent as it. */
  lemma MissSparesRecent(r: Registry, a: Actor, nowNs: u64, refresh: bool, view: ProcView, victim: nat, u: nat)
    requires WellNumbered(r) && ActorKey(a) != 0 && !Hits(r, ActorKey(a), nowNs, view)
    requires ScanAllows(r, a, nowNs, view, victim) && Older(r, u, nowNs)
    ensures var (s, id) := ResolveProcess(r, a, nowNs, refresh, view, victim);
            && id in s.processes && s.processes[id].lastSeenNs == nowNs
            && (forall x :: x in r.processes && (x != victim || r.processes[x].lastSeenNs == nowNs) ==>
                  x in s.processes && s.processes[x].lastSeenNs == r.processes[x].lastSeenNs)
  {
    hide ResolveProcess, Touch, Insert, Cleared, Hits, EvictIfNeeded, ActorKey, WellNumbered;
    ResolveShape(r, a, nowNs, refresh, view, victim);
    var key := ActorKey(a);
    InsertAfterCleared(r, key, a, nowNs, view.refresh);
    EvictSparesAllRecent(Insert(Cleared(r, key, nowNs), key, a, nowNs, view.refresh), victim, nowNs, u);
  }

  /** Resolving keeps the entity it resolves, and costs at most one older entity. */
  lemma ResolveSparesRecent(r: Registry, a: Actor, nowNs: u64, refresh: bool, view: ProcView, victim: nat,
                            u: nat, v: nat)
    requires Good(r) && ActorKey(a) != 0 && ScanAllows(r, a, nowNs, view, victim)
    requires Older(r, u, nowNs)
    ensures var (s, id) := ResolveProcess(r, a, nowNs, refresh, view, victim);
            && id in s.processes && s.processes[id].lastSeenNs == nowNs
            && (u != v && Older(r, v, nowNs) ==> Older(s, u, nowNs) || Older(s, v, nowNs))
            && (forall x :: x in r.processes && r.processes[x].lastSeenNs == nowNs ==>
                  x in s.processes && s.processes[x].lastSeenNs == nowNs)
  {
    if !Hits(r, ActorKey(a), nowNs, view) {
      hide ResolveProcess, ScanAllows, Hits;
      MissSparesRecent(r, a, nowNs, refresh, view, victim, u);
    }
  }

  lemma ChildKey(childPid: u32, parent: Actor)
    ensures ActorKey(ChildActor(childPid, parent)) == childPid && ChildActor(childPid, parent).ppid == ActorKey(parent)
  {}

  /**
   * With two retained entities last seen before the event, neither its subject nor its child is
   * evicted while it is ingested, so the sink is handed the subject's process context.
   */
  lemma ParticipantsSurvive(r: Registry, s: Step, u: nat, v: nat)
    requires Good(r) && Legal(r, s) && ActorKey(s.ev.actor) != 0
    requires u != v && Older(r, u, s.ev.tsNs) && Older(r, v, s.ev.tsNs)
    ensures var (after, res) := Ingest(r, s);
            && res.subjectProcess == FindProcess(after, res.subjectId) != None
            && (StartsChild(s.ev) ==> res.objectId.Some? && res.objectId.value in after.processes)
  {
    hide ResolveProcess, ScanAllows, ChildActor, HistoryFits, ResolvedWhileLive, IdentityLaw;
    var now, exec := s.ev.tsNs, s.ev.action.ProcessExeced?;
    ResolveSparesRecent(r, s.ev.actor, now, exec, s.subjectView, s.subjectVictim, u, v);
    ResolveEvolves(r, s.ev.actor, now, exec, s.subjectView, s.subjectVictim);
    if StartsChild(s.ev) {
      var r1 := ResolveSubject(r, s).0;
      var left := if Older(r1, u, now) then u else v;
      var child := ChildActor(s.ev.childPid, s.ev.actor);
      ChildKey(s.ev.childPid, s.ev.actor);
      ResolveSparesRecent(r1, child, now, true, s.childView, s.childVictim, left, left);
    }
  }

  /** A newcomer is safe from every scan order exactly when there is room or something older. */
  lemma NewcomerIsSafeIff(r: Registry, key: u32, a: Actor, nowNs: u64, t: ProcFacts)
    ensures var full := Insert(r, key, a, nowNs, t);
            (forall victim: nat :: LeastRecentlySeen(full, victim) ==>
               r.nextId in EvictIfNeeded(full, victim).processes)
            <==> |full.processes| <= MAX_ENTRIES || exists id: nat :: Older(full, id, nowNs)
  {
    var full := Insert(r, key, a, nowNs, t);
    assert full.processes[r.nextId].lastSeenNs == nowNs;
    if |full.processes| > MAX_ENTRIES && forall id: nat :: !Older(full, id, nowNs) {
      assert forall id :: id in full.processes ==> !Older(full, id, nowNs);
      assert LeastRecentlySeen(full, r.nextId);
      assert r.nextId !in EvictIfNeeded(full, r.nextId).processes;
    }
  }
}
