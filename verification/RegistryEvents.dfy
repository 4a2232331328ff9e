/** What one event does to the registry, as far as a reader of the events can tell. */
module RegistryEvents {
  import opened Primitives
  import opened RegistryModel
  import opened RegistryInvariants
  import opened RegistryRuns
  import opened RegistryLineage

  /**
   * A live key keeps its entity unless a due check reads a start time that is known and different.
   * The entity it loses is left behind as exited at that moment, or evicted.
   */
  lemma LiveKeyChangesHandsIff(r: Registry, a: Actor, nowNs: u64, refresh: bool, view: ProcView, victim: nat, id: nat)
    requires Good(r) && ActorKey(a) != 0 && LiveAs(r, ActorKey(a), id)
    ensures var (s, got) := ResolveProcess(r, a, nowNs, refresh, view, victim);
            && (got != id <==>
                  r.processes[id].startTimeTicks != 0
                  && Sub64(nowNs, r.processes[id].lastIdentityCheckNs) >= 500_000_000
                  && view.checkTicks != 0 && view.checkTicks != r.processes[id].startTimeTicks)
            && (got == id ==> LiveAs(s, ActorKey(a), id) && s.processes[id].lastSeenNs == nowNs)
            && (got != id && id in s.processes ==>
                  s.processes[id].exited && s.processes[id].exitNs == nowNs && s.processes[id].exitCode == 0)
  {
    hide Touch, Insert, Cleared, IdentityLaw, HistoryFits, ResolvedWhileLive, ResolveProcess;
    var key := ActorKey(a);
    assert Indexed(r, key, id);
    ResolveShape(r, a, nowNs, refresh, view, victim);
    if Hits(r, key, nowNs, view) {
      TouchShows(r, key, a, nowNs, refresh, view.refresh);
    } else {
      ClearedRetires(r, key, nowNs);
      InsertIsRecent(Cleared(r, key, nowNs), key, a, nowNs, view.refresh);
      InsertIdIsNext(r, key, nowNs);
    }
  }

  lemma TouchShows(r: Registry, key: u32, a: Actor, nowNs: u64, refresh: bool, t: ProcFacts)
    requires key in r.tgidIndex && r.tgidIndex[key] in r.processes && key == ActorKey(a) != 0
    ensures var s, id := Touch(r, key, a, nowNs, refresh, t), r.tgidIndex[key];
            && s.tgidIndex == r.tgidIndex && s.processes.Keys == r.processes.Keys
            && ShowsActor(s.processes[id], a, nowNs)
            && s.processes[id].exited == r.processes[id].exited
            && s.processes[id].parentId == r.processes[id].parentId
  {}

  lemma ClearedRetires(r: Registry, key: u32, nowNs: u64)
    requires key in r.tgidIndex && r.tgidIndex[key] in r.processes
    ensures var s, id := Cleared(r, key, nowNs), r.tgidIndex[key];
            && s.processes.Keys == r.processes.Keys && s.processes[id].exited
            && s.processes[id].exitNs == nowNs && s.processes[id].exitCode == 0
  {}

  /** The entity shows who acted, and when. */
  predicate ShowsActor(e: ProcessEntity, a: Actor, nowNs: u64) {
    && e.pid == a.pid && e.tgid == a.tgid && e.ppid == a.ppid && e.uid == a.uid && e.gid == a.gid
    && (a.comm != "" ==> e.comm == a.comm)
    && e.lastSeenNs == nowNs
  }

  lemma InsertShows(r: Registry, key: u32, a: Actor, nowNs: u64, t: ProcFacts)
    ensures ShowsActor(Insert(r, key, a, nowNs, t).processes[r.nextId], a, nowNs)
  {}

  /** Resolving leaves the resolved entity, if it is retained, showing the actor. */
  lemma ResolvedShowsActor(r: Registry, a: Actor, nowNs: u64, refresh: bool, view: ProcView, victim: nat)
    requires Good(r) && ActorKey(a) != 0
    ensures var (s, id) := ResolveProcess(r, a, nowNs, refresh, view, victim);
            && id != 0 && (id in s.processes ==> ShowsActor(s.processes[id], a, nowNs))
  {
    hide Touch, Insert, Cleared, IdentityLaw, HistoryFits, ResolvedWhileLive, ResolveProcess, ShowsActor;
    var key := ActorKey(a);
    ResolveShape(r, a, nowNs, refresh, view, victim);
    if Hits(r, key, nowNs, view) {
      assert Indexed(r, key, r.tgidIndex[key]) && LiveAs(r, key, r.tgidIndex[key]);
      TouchShows(r, key, a, nowNs, refresh, view.refresh);
    } else {
      InsertIdIsNext(r, key, nowNs);
      InsertShows(Cleared(r, key, nowNs), key, a, nowNs, view.refresh);
    }
  }

  /** An exit event closes its subject's life: the record keeps time and code, and the key is free again. */
  lemma ExitEventRetires(r: Registry, s: Step)
    requires Good(r) && ActorKey(s.ev.actor) != 0 && s.ev.action.ProcessExited?
    ensures var (after, res) := Ingest(r, s);
            && ActorKey(s.ev.actor) !in after.tgidIndex
            && (res.subjectId in after.processes ==>
                  var e := after.processes[res.subjectId];
                  e.exited && e.exitNs == s.ev.tsNs && e.exitCode == s.ev.outcome
                  && Exited(res.subjectId) in after.notes)
            && res.objectId == None
  {
    hide ResolveProcess, IdentityLaw, HistoryFits, ResolvedWhileLive;
    var key := ActorKey(s.ev.actor);
    ResolveEvolves(r, s.ev.actor, s.ev.tsNs, s.ev.action.ProcessExeced?, s.subjectView, s.subjectVictim);
    ResolutionIndexes(r, s.ev.actor, s.ev.tsNs, s.ev.action.ProcessExeced?, s.subjectView, s.subjectVictim);
    var (r1, subject) := ResolveSubject(r, s);
    if key in r1.tgidIndex { assert Indexed(r1, key, subject) && LiveAs(r1, key, subject); }
    if subject in r1.processes {
      assert LiveAs(r1, key, subject) && Indexed(r1, key, subject);
      assert AfterAction(r, s).0.notes[|r1.notes|] == Exited(subject);
    }
  }

  /** After a resolution the key is indexed to what it was resolved to, or not at all. */
  lemma ResolutionIndexes(r: Registry, a: Actor, nowNs: u64, refresh: bool, view: ProcView, victim: nat)
    requires Good(r) && ActorKey(a) != 0
    ensures var (s, id) := ResolveProcess(r, a, nowNs, refresh, view, victim);
            ActorKey(a) in s.tgidIndex ==> s.tgidIndex[ActorKey(a)] == id
  {
    hide Touch, Cleared, RefreshRich, UpdateFast, IdentityLaw, HistoryFits, ResolvedWhileLive, ResolveProcess;
    ResolveShape(r, a, nowNs, refresh, view, victim);
    if Hits(r, ActorKey(a), nowNs, view) {
      TouchShows(r, ActorKey(a), a, nowNs, refresh, view.refresh);
    } else {
      InsertIdIsNext(r, ActorKey(a), nowNs);
    }
  }

  /** A start event names the child's entity, and gives it the actor as parent if it has none. */
  lemma StartEventNamesChild(r: Registry, s: Step)
    requires Good(r) && ActorKey(s.ev.actor) != 0 && StartsChild(s.ev)
    ensures var (after, res) := Ingest(r, s);
            var before := ResolveSubject(r, s).0;
            && res.objectId.Some? && res.objectId.value != 0
            && (res.objectId.value in after.processes ==>
                  var child := after.processes[res.objectId.value];
                  && LiveAs(after, s.ev.childPid, res.objectId.value)
                  && child.ppid == ActorKey(s.ev.actor) && child.lastSeenNs == s.ev.tsNs
                  && (res.objectId.value in before.processes && before.processes[res.objectId.value].parentId != 0
                      ==> child.parentId == before.processes[res.objectId.value].parentId)
                  && (res.objectId.value !in before.processes || before.processes[res.objectId.value].parentId == 0
                      ==> child.parentId == res.subjectId))
  {
    hide ResolveProcess, IdentityLaw, HistoryFits, ResolvedWhileLive, ChildActor;
    var exec := s.ev.action.ProcessExeced?;
    ResolveEvolves(r, s.ev.actor, s.ev.tsNs, exec, s.subjectView, s.subjectVictim);
    var (r1, subject) := ResolveSubject(r, s);
    var child := ChildActor(s.ev.childPid, s.ev.actor);
    ChildKey(s.ev.childPid, s.ev.actor);
    ResolveEvolves(r1, child, s.ev.tsNs, true, s.childView, s.childVictim);
    ResolvedShowsActor(r1, child, s.ev.tsNs, true, s.childView, s.childVictim);
    ResolvedKeepsParent(r1, child, s.ev.tsNs, true, s.childView, s.childVictim);
  }

  lemma ResolvedKeepsParent(r: Registry, a: Actor, nowNs: u64, refresh: bool, view: ProcView, victim: nat)
    requires Good(r) && ActorKey(a) != 0
    ensures var (s, id) := ResolveProcess(r, a, nowNs, refresh, view, victim);
            id in s.processes ==> s.processes[id].parentId == if id in r.processes then r.processes[id].parentId else 0
  {
    hide Touch, Insert, Cleared, IdentityLaw, HistoryFits, ResolvedWhileLive, ResolveProcess;
    var key := ActorKey(a);
    ResolveShape(r, a, nowNs, refresh, view, victim);
    if Hits(r, key, nowNs, view) {
      TouchShows(r, key, a, nowNs, refresh, view.refresh);
    } else {
      InsertIdIsNext(r, key, nowNs);
      InsertHasNoParent(Cleared(r, key, nowNs), key, a, nowNs, view.refresh);
    }
  }

  /** The context handed to the sink shows the event's own actor, unless the event starts a child under the actor's key. */
  lemma SubjectShowsActor(r: Registry, s: Step)
    requires Good(r) && ActorKey(s.ev.actor) != 0
    requires StartsChild(s.ev) ==> s.ev.childPid != ActorKey(s.ev.actor)
    ensures var (after, res) := Ingest(r, s);
            && res.subjectId != 0
            && res.subjectProcess == FindProcess(after, res.subjectId)
            && (res.subjectProcess.Some? ==>
                  ShowsActor(res.subjectProcess.value, s.ev.actor, s.ev.tsNs)
                  && (s.ev.execPathHint != "" ==> res.subjectProcess.value.execPath != ""))
  {
    hide ResolveProcess, IdentityLaw, HistoryFits, ResolvedWhileLive, ChildActor;
    var key := ActorKey(s.ev.actor);
    var exec := s.ev.action.ProcessExeced?;
    ResolvedShowsActor(r, s.ev.actor, s.ev.tsNs, exec, s.subjectView, s.subjectVictim);
    ResolveEvolves(r, s.ev.actor, s.ev.tsNs, exec, s.subjectView, s.subjectVictim);
    var (r1, subject) := ResolveSubject(r, s);
    if StartsChild(s.ev) {
      var child := ChildActor(s.ev.childPid, s.ev.actor);
      ChildKey(s.ev.childPid, s.ev.actor);
      ResolveEvolves(r1, child, s.ev.tsNs, true, s.childView, s.childVictim);
      OthersAreLeftAlone(r1, child, s.ev.tsNs, true, s.childView, s.childVictim, subject);
    }
  }

  /** Resolving one key changes nothing about a live entity of another, short of evicting it. */
  lemma OthersAreLeftAlone(r: Registry, a: Actor, nowNs: u64, refresh: bool, view: ProcView, victim: nat, x: nat)
    requires Good(r) && ActorKey(a) != 0 && x < r.nextId
    requires x in r.processes ==> Live(r, x) && EntityKey(r.processes[x]) != ActorKey(a)
    ensures var (s, id) := ResolveProcess(r, a, nowNs, refresh, view, victim);
            id != x && (x in s.processes ==> x in r.processes && s.processes[x] == r.processes[x])
  {
    hide Touch, Insert, Cleared, IdentityLaw, HistoryFits, ResolvedWhileLive, ResolveProcess;
    var key := ActorKey(a);
    ResolveShape(r, a, nowNs, refresh, view, victim);
    if key in r.tgidIndex { assert Indexed(r, key, r.tgidIndex[key]) && LiveAs(r, key, r.tgidIndex[key]); }
    if Hits(r, key, nowNs, view) {
      TouchIsLocal(r, key, a, nowNs, refresh, view.refresh);
    } else {
      InsertIdIsNext(r, key, nowNs);
      ClearedIsLocal(r, key, nowNs);
      InsertIsRecent(Cleared(r, key, nowNs), key, a, nowNs, view.refresh);
    }
  }

  lemma TouchIsLocal(r: Registry, key: u32, a: Actor, nowNs: u64, refresh: bool, t: ProcFacts)
    requires key in r.tgidIndex && r.tgidIndex[key] in r.processes
    ensures var s := Touch(r, key, a, nowNs, refresh, t);
            s.processes.Keys == r.processes.Keys
            && forall x :: x in r.processes && x != r.tgidIndex[key] ==> s.processes[x] == r.processes[x]
  {}

  lemma ClearedIsLocal(r: Registry, key: u32, nowNs: u64)
    ensures var s := Cleared(r, key, nowNs);
            s.processes.Keys == r.processes.Keys
            && forall x :: x in r.processes && !(key in r.tgidIndex && x == r.tgidIndex[key]) ==> s.processes[x] == r.processes[x]
  {}
}
