/** When following parents is safe, and how often an identity is checked. */
module RegistryLineage {
  import opened Primitives
  import opened RegistryModel
  import opened RegistryInvariants
  import opened RegistryRuns

  // ---- lineage ------------------------------------------------------------

  /** Every recorded parent is an older id. */
  ghost predicate Descends(r: Registry) {
    forall id :: id in r.processes ==> r.processes[id].parentId == 0 || r.processes[id].parentId < id
  }

  /**
   * The event names as child a key that is already live, has no parent yet, and is not younger
   * than the acting process: `ResolveChild` then gives it a parent that is no ancestor by age.
   */
  predicate Misadopts(r: Registry, s: Step) {
    var (r1, subject) := ResolveSubject(r, s);
    && StartsChild(s.ev) && subject != 0
    && Hits(r1, s.ev.childPid, s.ev.tsNs, s.childView)
    && r1.tgidIndex[s.ev.childPid] <= subject
    && r1.processes[r1.tgidIndex[s.ev.childPid]].parentId == 0
  }

  lemma TouchKeepsParents(r: Registry, key: u32, a: Actor, nowNs: u64, refresh: bool, t: ProcFacts)
    requires key in r.tgidIndex && r.tgidIndex[key] in r.processes
    ensures var s := Touch(r, key, a, nowNs, refresh, t);
            && s.processes.Keys == r.processes.Keys
            && forall x :: x in r.processes ==> s.processes[x].parentId == r.processes[x].parentId
  {}

  lemma ClearedKeepsParents(r: Registry, key: u32, nowNs: u64)
    ensures var s := Cleared(r, key, nowNs);
            && s.processes.Keys == r.processes.Keys
            && forall x :: x in r.processes ==> s.processes[x].parentId == r.processes[x].parentId
  {}

  /** A newcomer starts without a parent, and under the next id. */
  lemma InsertHasNoParent(r: Registry, key: u32, a: Actor, nowNs: u64, t: ProcFacts)
    ensures var s := Insert(r, key, a, nowNs, t);
            && s.processes.Keys == r.processes.Keys + {r.nextId} && s.processes[r.nextId].parentId == 0
            && forall x :: x in r.processes && x != r.nextId ==> s.processes[x] == r.processes[x]
  {}

  /** Resolution leaves every parent alone. */
  lemma ResolveKeepsDescent(r: Registry, a: Actor, nowNs: u64, refresh: bool, view: ProcView, victim: nat)
    requires WellNumbered(r)
    ensures var (s, id) := ResolveProcess(r, a, nowNs, refresh, view, victim);
            && (Descends(r) ==> Descends(s))
            && (ActorKey(a) != 0 && Hits(r, ActorKey(a), nowNs, view) ==>
                  id == r.tgidIndex[ActorKey(a)] && id in s.processes
                  && s.processes[id].parentId == r.processes[id].parentId)
            && (ActorKey(a) != 0 && !Hits(r, ActorKey(a), nowNs, view) ==> id == r.nextId)
  {
    hide ResolveProcess, Touch, Insert, Cleared, RetireIndex, Hits;
    ResolveShape(r, a, nowNs, refresh, view, victim);
    var key := ActorKey(a);
    if key != 0 {
      if Hits(r, key, nowNs, view) {
        HitIsRetained(r, key, nowNs, view);
        TouchKeepsParents(r, key, a, nowNs, refresh, view.refresh);
      } else {
        var cleared := Cleared(r, key, nowNs);
        ClearedKeepsParents(r, key, nowNs);
        InsertHasNoParent(cleared, key, a, nowNs, view.refresh);
        InsertIdIsNext(r, key, nowNs);
        EvictKeepsEntities(Insert(cleared, key, a, nowNs, view.refresh), victim);
      }
    }
  }

  lemma HitIsRetained(r: Registry, key: u32, nowNs: u64, view: ProcView)
    requires Hits(r, key, nowNs, view)
    ensures key in r.tgidIndex && r.tgidIndex[key] in r.processes
  {}

  lemma InsertIdIsNext(r: Registry, key: u32, nowNs: u64)
    ensures Cleared(r, key, nowNs).nextId == r.nextId
  {}

  lemma EvictKeepsEntities(r: Registry, victim: nat)
    ensures var s := EvictIfNeeded(r, victim);
            forall x :: x in s.processes ==> x in r.processes && s.processes[x] == r.processes[x]
  {}

  lemma AfterActionDescends(r: Registry, s: Step)
    requires Good(r) && Descends(r)
    ensures Descends(AfterAction(r, s).0) <==> !Misadopts(r, s)
  {
    hide ResolveProcess, Hits, IdentityLaw, HistoryFits, ResolvedWhileLive, IndexExact, ChildActor;
    var exec := s.ev.action.ProcessExeced?;
    ResolveEvolves(r, s.ev.actor, s.ev.tsNs, exec, s.subjectView, s.subjectVictim);
    ResolveKeepsDescent(r, s.ev.actor, s.ev.tsNs, exec, s.subjectView, s.subjectVictim);
    var (r1, subject) := ResolveSubject(r, s);
    if StartsChild(s.ev) {
      var child := ChildActor(s.ev.childPid, s.ev.actor);
      ChildKey(s.ev.childPid, s.ev.actor);
      ResolveKeepsDescent(r1, child, s.ev.tsNs, true, s.childView, s.childVictim);
      var (r2, id) := ResolveProcess(r1, child, s.ev.tsNs, true, s.childView, s.childVictim);
      AdoptDescends(r2, id, subject);
    }
  }

  lemma AdoptDescends(r: Registry, id: nat, parentId: nat)
    requires Descends(r)
    ensures Descends(AdoptChild(r, id, parentId)) <==>
            !(id in r.processes && r.processes[id].parentId == 0 && parentId != 0 && id <= parentId)
  {
    if id in r.processes && r.processes[id].parentId == 0 {
      assert AdoptChild(r, id, parentId).processes[id].parentId == parentId;
    }
  }

  lemma IngestDescends(r: Registry, s: Step)
    requires Good(r) && Descends(r)
    ensures Descends(Ingest(r, s).0) <==> !Misadopts(r, s)
  {
    hide AfterAction, Misadopts, ResolveSubject, Good;
    AfterActionDescends(r, s);
    var r2, r3 := AfterAction(r, s).0, Ingest(r, s).0;
    assert r3.processes.Keys == r2.processes.Keys;
    assert forall x :: x in r2.processes ==> r3.processes[x].parentId == r2.processes[x].parentId;
  }

  /** One event keeps the order exactly when it does not misadopt. */
  lemma StepDescends(steps: seq<Step>, n: nat)
    requires n < |steps| && Descends(Run(steps[..n]))
    ensures Descends(Run(steps[..n + 1])) <==> !Misadopts(Run(steps[..n]), steps[n])
  {
    hide Ingest, Misadopts, Good, Descends;
    RunIsGood(steps[..n]);
    IngestDescends(Run(steps[..n]), steps[n]);
    assert steps[..n + 1][..n] == steps[..n];
  }

  lemma {:induction false} NoMisadoptionDescends(steps: seq<Step>, n: nat)
    requires n <= |steps|
    requires forall m :: 0 <= m < n ==> !Misadopts(Run(steps[..m]), steps[m])
    ensures Descends(Run(steps[..n]))
  {
    hide Ingest, Misadopts;
    if n > 0 {
      NoMisadoptionDescends(steps, n - 1);
      StepDescends(steps, n - 1);
    }
  }

  /**
   * Parents are older ids throughout a run exactly when no event of the run misadopts. The
   * condition can be read off before the child is resolved.
   */
  lemma LineageIsWellFoundedIff(steps: seq<Step>)
    ensures (forall n :: 0 <= n <= |steps| ==> Descends(Run(steps[..n])))
            <==> (forall n :: 0 <= n < |steps| ==> !Misadopts(Run(steps[..n]), steps[n]))
  {
    hide Run, Misadopts, Descends;
    if forall n :: 0 <= n <= |steps| ==> Descends(Run(steps[..n])) {
      forall n | 0 <= n < |steps| ensures !Misadopts(Run(steps[..n]), steps[n]) {
        StepDescends(steps, n);
      }
    }
    if forall n :: 0 <= n < |steps| ==> !Misadopts(Run(steps[..n]), steps[n]) {
      forall n | 0 <= n <= |steps| ensures Descends(Run(steps[..n])) {
        NoMisadoptionDescends(steps, n);
      }
    }
  }

  /** Each id on the path is the recorded parent of the one before it. */
  ghost predicate IsParentPath(r: Registry, path: seq<nat>) {
    && (forall i :: 0 <= i < |path| ==> path[i] != 0 && path[i] in r.processes)
    && (forall i, j :: 0 <= i && j == i + 1 < |path| ==> r.processes[path[i]].parentId == path[j])
  }

  /** So following parents never comes back to where it was. */
  lemma {:induction false} NoAncestorCycle(r: Registry, path: seq<nat>)
    requires Descends(r) && IsParentPath(r, path) && |path| >= 2
    ensures path[|path| - 1] < path[0]
    decreases |path|
  {
    if |path| > 2 { NoAncestorCycle(r, path[..|path| - 1]); }
    assert r.processes[path[|path| - 2]].parentId == path[|path| - 1];
  }

  /** One report is enough to break it: a task said to have started itself becomes its own parent. */
  lemma SelfStartIsOwnParent(key: u32, nowNs: u64, victim: nat)
    requires key != 0
    ensures var nothing := ProcFacts("", "", "", "", "", 0);
            var ev := Event(nowNs, ProcessStarted, Actor(key, key, 0, 0, 0, "sh"), key, 0, "");
            var s := Step(ev, ProcView(0, nothing), ProcView(0, nothing), victim, victim);
            && LegalRun([s]) && Misadopts(EMPTY, s)
            && 1 in Run([s]).processes && Run([s]).processes[1].parentId == 1
  {
    var nothing := ProcFacts("", "", "", "", "", 0);
    var view := ProcView(0, nothing);
    var a := Actor(key, key, 0, 0, 0, "sh");
    var s := Step(Event(nowNs, ProcessStarted, a, key, 0, ""), view, view, victim, victim);
    assert [s][..0] == [] && Run([s]) == Ingest(EMPTY, s).0;
    var r1 := Insert(EMPTY, key, a, nowNs, nothing);
    assert r1.processes.Keys == {1};
    assert |r1.processes| == |r1.processes.Keys| == 1;
    assert ResolveSubject(EMPTY, s) == (r1, 1);
    assert Hits(r1, key, nowNs, view);
    assert Misadopts(EMPTY, s);
    ChildKey(key, a);
    assert Legal(EMPTY, s);
    assert LegalRun([s]) by { assert LegalRun([s][..0]) && Run([s][..0]) == EMPTY; }
  }

  // ---- throttled identity checks ------------------------------------------

  /** How often the history says the identity of `id` was checked against `/proc`. */
  function CheckCount(notes: seq<Note>, id: nat): nat
    decreases |notes|
  {
    if notes == [] then 0
    else CheckCount(notes[..|notes| - 1], id) + if notes[|notes| - 1] == Checked(id) then 1 else 0
  }

  lemma CheckCountSnoc(notes: seq<Note>, n: Note, id: nat)
    ensures CheckCount(notes + [n], id) == CheckCount(notes, id) + if n == Checked(id) then 1 else 0
  {
    assert (notes + [n])[..|notes|] == notes;
  }

  lemma {:induction false} NoChecksBeforeBirth(notes: seq<Note>, id: nat)
    requires forall i :: 0 <= i < |notes| ==> notes[i].id < id
    ensures CheckCount(notes, id) == 0
    decreases |notes|
  {
    if notes != [] { NoChecksBeforeBirth(notes[..|notes| - 1], id); }
  }

  /** Half a second of the entity's life for every check, on a clock that has reached `clock`. */
  ghost predicate Throttled(r: Registry, clock: u64) {
    forall id :: id in r.processes ==>
      var e := r.processes[id];
      && e.firstSeenNs <= e.lastIdentityCheckNs <= clock
      && CheckCount(r.notes, id) * 500_000_000 <= e.lastIdentityCheckNs - e.firstSeenNs
  }

  lemma AfterCheckThrottled(r: Registry, id: nat, nowNs: u64)
    requires Throttled(r, nowNs) && id in r.processes
    ensures Throttled(AfterCheck(r, id, nowNs), nowNs)
  {
    hide CheckCount;
    forall x: nat ensures CheckCount(r.notes + [Checked(id)], x) == CheckCount(r.notes, x) + if x == id then 1 else 0 {
      CheckCountSnoc(r.notes, Checked(id), x);
    }
  }

  /** Changes that touch neither the two timestamps nor the check notes. */
  lemma SameTimesThrottled(r: Registry, s: Registry, clock: u64)
    requires Throttled(r, clock)
    requires s.notes == r.notes || exists n :: s.notes == r.notes + [n] && !n.Checked?
    requires forall x :: x in s.processes ==>
               && x in r.processes && s.processes[x].firstSeenNs == r.processes[x].firstSeenNs
               && s.processes[x].lastIdentityCheckNs == r.processes[x].lastIdentityCheckNs
    ensures Throttled(s, clock)
  {
    if s.notes != r.notes {
      var n :| s.notes == r.notes + [n] && !n.Checked?;
      forall x: nat ensures CheckCount(s.notes, x) == CheckCount(r.notes, x) { CheckCountSnoc(r.notes, n, x); }
    }
  }

  lemma InsertThrottled(r: Registry, key: u32, a: Actor, nowNs: u64, t: ProcFacts)
    requires Good(r) && Throttled(r, nowNs)
    ensures Throttled(Insert(r, key, a, nowNs, t), nowNs)
  {
    var n := Resolved(key, r.nextId);
    forall x: nat ensures CheckCount(r.notes + [n], x) == CheckCount(r.notes, x) { CheckCountSnoc(r.notes, n, x); }
    NoChecksBeforeBirth(r.notes, r.nextId);
  }

  lemma TouchThrottled(r: Registry, key: u32, a: Actor, nowNs: u64, refresh: bool, t: ProcFacts)
    requires Throttled(r, nowNs) && key in r.tgidIndex && r.tgidIndex[key] in r.processes
    ensures Throttled(Touch(r, key, a, nowNs, refresh, t), nowNs)
  {
    hide Throttled;
    var id := r.tgidIndex[key];
    AfterCheckThrottled(r, id, nowNs);
    var checked, s := AfterCheck(r, id, nowNs), Touch(r, key, a, nowNs, refresh, t);
    assert s.notes == checked.notes + [Resolved(key, id)];
    SameTimesThrottled(checked, s, nowNs);
  }

  lemma ClearedThrottled(r: Registry, key: u32, nowNs: u64)
    requires Throttled(r, nowNs)
    ensures Throttled(Cleared(r, key, nowNs), nowNs)
  {
    hide Throttled;
    if key in r.tgidIndex {
      if r.tgidIndex[key] in r.processes {
        var id := r.tgidIndex[key];
        AfterCheckThrottled(r, id, nowNs);
        var checked, s := AfterCheck(r, id, nowNs), Cleared(r, key, nowNs);
        assert s.notes == checked.notes + [Reused(id)];
        SameTimesThrottled(checked, s, nowNs);
      } else {
        SameTimesThrottled(r, Cleared(r, key, nowNs), nowNs);
      }
    }
  }

  lemma EvictThrottled(r: Registry, victim: nat, nowNs: u64)
    requires Throttled(r, nowNs)
    ensures Throttled(EvictIfNeeded(r, victim), nowNs)
  {
    hide Throttled;
    var s := EvictIfNeeded(r, victim);
    assert s.notes == r.notes || s.notes == r.notes + [Evicted(victim)];
    SameTimesThrottled(r, s, nowNs);
  }

  lemma ResolveThrottled(r: Registry, a: Actor, nowNs: u64, refresh: bool, view: ProcView, victim: nat)
    requires Good(r) && Throttled(r, nowNs)
    ensures Throttled(ResolveProcess(r, a, nowNs, refresh, view, victim).0, nowNs)
  {
    hide ResolveProcess, Touch, Insert, Cleared, EvictIfNeeded, Hits, Throttled, Good, ActorKey;
    ResolveShape(r, a, nowNs, refresh, view, victim);
    var key := ActorKey(a);
    if key != 0 {
      if Hits(r, key, nowNs, view) {
        HitIsRetained(r, key, nowNs, view);
        TouchThrottled(r, key, a, nowNs, refresh, view.refresh);
      } else {
        ClearedThrottled(r, key, nowNs);
        ClearedKeepsGood(r, key, nowNs);
        InsertThrottled(Cleared(r, key, nowNs), key, a, nowNs, view.refresh);
        EvictThrottled(Insert(Cleared(r, key, nowNs), key, a, nowNs, view.refresh), victim, nowNs);
      }
    }
  }

  lemma IngestThrottled(r: Registry, s: Step)
    requires Good(r) && Throttled(r, s.ev.tsNs)
    ensures Throttled(Ingest(r, s).0, s.ev.tsNs)
  {
    hide ResolveProcess, Throttled, Good, ChildActor;
    var now, exec := s.ev.tsNs, s.ev.action.ProcessExeced?;
    ResolveThrottled(r, s.ev.actor, now, exec, s.subjectView, s.subjectVictim);
    ResolveKeepsGood(r, s.ev.actor, now, exec, s.subjectView, s.subjectVictim);
    var (r1, subject) := ResolveSubject(r, s);
    var r2 := AfterAction(r, s).0;
    if s.ev.action.ProcessExited? {
      assert r2.notes == r1.notes || r2.notes == r1.notes + [Exited(subject)];
      SameTimesThrottled(r1, r2, now);
    } else if StartsChild(s.ev) {
      var child := ChildActor(s.ev.childPid, s.ev.actor);
      ResolveThrottled(r1, child, now, true, s.childView, s.childVictim);
      SameTimesThrottled(ResolveProcess(r1, child, now, true, s.childView, s.childVictim).0, r2, now);
    }
    SameTimesThrottled(r2, Ingest(r, s).0, now);
  }

  /** Event times never go back. */
  ghost predicate ClockIsMonotone(steps: seq<Step>) {
    forall i, j :: 0 <= i < j < |steps| ==> steps[i].ev.tsNs <= steps[j].ev.tsNs
  }

  /**
   * On a clock that never goes back, an entity is checked against `/proc` at most once per
   * 500 ms of the time between its first sighting and its last check.
   */
  lemma {:induction false} ChecksAreThrottled(steps: seq<Step>)
    requires ClockIsMonotone(steps)
    ensures steps != [] ==> Throttled(Run(steps), steps[|steps| - 1].ev.tsNs)
    decreases |steps|
  {
    hide Ingest, Good;
    if steps != [] {
      var m := |steps| - 1;
      var before := steps[..m];
      ChecksAreThrottled(before);
      RunIsGood(before);
      assert Throttled(Run(before), steps[m].ev.tsNs) by {
        if m > 0 {
          assert before[m - 1].ev.tsNs <= steps[m].ev.tsNs;
        }
      }
      IngestThrottled(Run(before), steps[m]);
    }
  }
}
