/** Field by field, what one event leaves in the entities it resolves (src/registry/entity_registry.cpp:30-113). */
module RegistryFields {
  import opened Primitives
  import opened RegistryModel
  import opened RegistryInvariants
  import opened RegistryRuns
  import opened RegistryLineage
  import opened RegistryEvents

  /** A field that a nonempty reading replaces. */
  predicate Replaced(now: string, before: string, read: string) { now == if read == "" then before else read }

  /** A field that a reading fills only while it is empty. */
  predicate FilledOnce(now: string, before: string, read: string) { now == if before == "" then read else before }

  /** The name after an event: the event's own, else the one known. */
  function EventName(prev: ProcessEntity, a: Actor): string { if a.comm == "" then prev.comm else a.comm }

  /** After a resolution that looks into `/proc`. */
  predicate Refreshed(e: ProcessEntity, prev: ProcessEntity, a: Actor, t: ProcFacts) {
    && Replaced(e.execPath, prev.execPath, t.exe)
    && Replaced(e.cwd, prev.cwd, t.cwd)
    && Replaced(e.cmdline, prev.cmdline, t.cmdline)
    && FilledOnce(e.comm, EventName(prev, a), t.comm)
    && FilledOnce(e.parentComm, prev.parentComm, if a.ppid == 0 then "" else t.parentComm)
    && e.startTimeTicks == if prev.startTimeTicks == 0 then t.startTicks else prev.startTimeTicks
  }

  /** After a resolution that does not. */
  predicate Unrefreshed(e: ProcessEntity, prev: ProcessEntity, a: Actor) {
    && e.execPath == prev.execPath && e.cwd == prev.cwd && e.cmdline == prev.cmdline
    && e.comm == EventName(prev, a)
    && e.parentComm == prev.parentComm && e.startTimeTicks == prev.startTimeTicks
  }

  /** An entity of which nothing is known. */
  const NOBODY: ProcessEntity := ProcessEntity(0, 0, 0, 0, 0, 0, "", "", "", "", "", 0, 0, 0, 0, false, 0, 0, 0)

  function Before(r: Registry, id: nat): ProcessEntity { if id in r.processes then r.processes[id] else NOBODY }

  /** A first sighting: looked up at once, alive, and its identity fresh. */
  predicate FreshlySeen(e: ProcessEntity, nowNs: u64) {
    e.firstSeenNs == nowNs && e.lastIdentityCheckNs == nowNs && !e.exited && e.exitNs == 0 && e.exitCode == 0 && e.parentId == 0
  }

  /** A later sighting: the first one stands, and the check time moves when half a second has passed. */
  predicate SeenAgain(e: ProcessEntity, prev: ProcessEntity, nowNs: u64) {
    && e.firstSeenNs == prev.firstSeenNs && e.parentId == prev.parentId
    && e.lastIdentityCheckNs == if prev.startTimeTicks != 0 && Sub64(nowNs, prev.lastIdentityCheckNs) >= 500_000_000
                                then nowNs else prev.lastIdentityCheckNs
  }

  predicate Resolves(e: ProcessEntity, r: Registry, id: nat, a: Actor, nowNs: u64, refresh: bool, t: ProcFacts) {
    var prev := Before(r, id);
    && ShowsActor(e, a, nowNs)
    && (if refresh || id !in r.processes then Refreshed(e, prev, a, t) else Unrefreshed(e, prev, a))
    && if id in r.processes then SeenAgain(e, prev, nowNs) else FreshlySeen(e, nowNs)
  }

  lemma TouchedFields(r: Registry, key: u32, a: Actor, nowNs: u64, refresh: bool, t: ProcFacts)
    requires key in r.tgidIndex && r.tgidIndex[key] in r.processes && key == ActorKey(a) != 0
    ensures var id := r.tgidIndex[key];
            Resolves(Touch(r, key, a, nowNs, refresh, t).processes[id], r, id, a, nowNs, refresh, t)
  {}

  lemma InsertedFields(r: Registry, key: u32, a: Actor, nowNs: u64, t: ProcFacts)
    requires key == ActorKey(a) != 0
    ensures var e := Insert(r, key, a, nowNs, t).processes[r.nextId];
            ShowsActor(e, a, nowNs) && Refreshed(e, NOBODY, a, t) && FreshlySeen(e, nowNs)
  {}

  /** Whatever a key resolves to, the entity shows the actor, and `/proc` only where and when it was read. */
  lemma ResolvedFields(r: Registry, a: Actor, nowNs: u64, refresh: bool, view: ProcView, victim: nat)
    requires Good(r) && ActorKey(a) != 0
    ensures var (s, id) := ResolveProcess(r, a, nowNs, refresh, view, victim);
            id in s.processes ==> Resolves(s.processes[id], r, id, a, nowNs, refresh, view.refresh)
  {
    hide Touch, Insert, Cleared, IdentityLaw, HistoryFits, ResolvedWhileLive, ResolveProcess;
    hide ShowsActor, Refreshed, Unrefreshed, FreshlySeen, SeenAgain;
    var key := ActorKey(a);
    ResolveShape(r, a, nowNs, refresh, view, victim);
    if Hits(r, key, nowNs, view) {
      TouchedFields(r, key, a, nowNs, refresh, view.refresh);
    } else {
      InsertIdIsNext(r, key, nowNs);
      InsertedFields(Cleared(r, key, nowNs), key, a, nowNs, view.refresh);
    }
  }

  /** What follows the resolution of the subject: the path hint fills an empty path, and an exit is marked. */
  predicate HintedOnly(e: ProcessEntity, mid: ProcessEntity, hint: string) {
    && FilledOnce(e.execPath, mid.execPath, hint)
    && e == mid.(execPath := e.execPath, exited := e.exited, exitNs := e.exitNs, exitCode := e.exitCode)
  }

  /**
   * After an event that starts no child under the actor's own key, its retained subject is what
   * resolution made of it, but for the exit mark and a path hint that never replaces a path.
   */
  lemma SubjectFields(r: Registry, s: Step)
    requires Good(r) && ActorKey(s.ev.actor) != 0
    requires StartsChild(s.ev) ==> s.ev.childPid != ActorKey(s.ev.actor)
    ensures var (after, res) := Ingest(r, s);
            res.subjectId in after.processes ==>
              exists mid: ProcessEntity ::
                && Resolves(mid, r, res.subjectId, s.ev.actor, s.ev.tsNs, s.ev.action.ProcessExeced?, s.subjectView.refresh)
                && HintedOnly(after.processes[res.subjectId], mid, s.ev.execPathHint)
  {
    hide ResolveProcess, IdentityLaw, HistoryFits, ResolvedWhileLive, ChildActor, Resolves;
    var key, exec := ActorKey(s.ev.actor), s.ev.action.ProcessExeced?;
    ResolvedFields(r, s.ev.actor, s.ev.tsNs, exec, s.subjectView, s.subjectVictim);
    ResolveEvolves(r, s.ev.actor, s.ev.tsNs, exec, s.subjectView, s.subjectVictim);
    var (r1, subject) := ResolveSubject(r, s);
    if StartsChild(s.ev) {
      var child := ChildActor(s.ev.childPid, s.ev.actor);
      ChildKey(s.ev.childPid, s.ev.actor);
      ResolveEvolves(r1, child, s.ev.tsNs, true, s.childView, s.childVictim);
      OthersAreLeftAlone(r1, child, s.ev.tsNs, true, s.childView, s.childVictim, subject);
    }
    if subject in Ingest(r, s).0.processes {
      assert Resolves(r1.processes[subject], r, subject, s.ev.actor, s.ev.tsNs, exec, s.subjectView.refresh);
      assert HintedOnly(Ingest(r, s).0.processes[subject], r1.processes[subject], s.ev.execPathHint);
    }
  }

  /** An exec event brings the subject's path, directory and command line up to date, and fills its names once. */
  lemma ExecEventRefreshes(r: Registry, s: Step)
    requires Good(r) && ActorKey(s.ev.actor) != 0 && s.ev.action.ProcessExeced?
    ensures var (after, res) := Ingest(r, s);
            var t, prev := s.subjectView.refresh, Before(r, res.subjectId);
            res.subjectId in after.processes ==>
              var e := after.processes[res.subjectId];
              && e.execPath == (if t.exe != "" then t.exe else if prev.execPath != "" then prev.execPath else s.ev.execPathHint)
              && e.cwd == (if t.cwd != "" then t.cwd else prev.cwd)
              && e.cmdline == (if t.cmdline != "" then t.cmdline else prev.cmdline)
              && e.comm == (if s.ev.actor.comm != "" then s.ev.actor.comm else if prev.comm != "" then prev.comm else t.comm)
              && e.parentComm == (if prev.parentComm != "" then prev.parentComm
                                  else if s.ev.actor.ppid == 0 then "" else t.parentComm)
              && e.startTimeTicks == (if prev.startTimeTicks != 0 then prev.startTimeTicks else t.startTicks)
  {
    hide Good, Ingest, ActorKey, SeenAgain, FreshlySeen, ShowsActor;
    SubjectFields(r, s);
  }

  /** An event of a known subject that is no exec leaves all that `/proc` told about it, but for an empty path. */
  lemma OtherEventsKeepFields(r: Registry, s: Step)
    requires Good(r) && ActorKey(s.ev.actor) != 0 && !s.ev.action.ProcessExeced?
    requires StartsChild(s.ev) ==> s.ev.childPid != ActorKey(s.ev.actor)
    ensures var (after, res) := Ingest(r, s);
            res.subjectId in after.processes && res.subjectId in r.processes ==>
              var e, prev := after.processes[res.subjectId], r.processes[res.subjectId];
              && e.execPath == (if prev.execPath != "" then prev.execPath else s.ev.execPathHint)
              && e.cwd == prev.cwd && e.cmdline == prev.cmdline && e.parentComm == prev.parentComm
              && e.startTimeTicks == prev.startTimeTicks
              && e.comm == (if s.ev.actor.comm != "" then s.ev.actor.comm else prev.comm)
  {
    hide Good, Ingest, ActorKey, SeenAgain, FreshlySeen, ShowsActor;
    SubjectFields(r, s);
  }

  /** A child named by a start event is looked up in `/proc`, and shows no more of its parent than the key. */
  lemma ChildFields(r: Registry, s: Step)
    requires Good(r) && ActorKey(s.ev.actor) != 0 && StartsChild(s.ev) && s.ev.childPid != ActorKey(s.ev.actor)
    ensures var (after, res) := Ingest(r, s);
            var r1 := ResolveSubject(r, s).0;
            res.objectId.Some? && (res.objectId.value in after.processes ==>
              var e, prev, t := after.processes[res.objectId.value], Before(r1, res.objectId.value), s.childView.refresh;
              && e.pid == e.tgid == s.ev.childPid && e.ppid == ActorKey(s.ev.actor) && e.uid == e.gid == 0
              && e.lastSeenNs == s.ev.tsNs
              && Replaced(e.execPath, prev.execPath, t.exe) && Replaced(e.cwd, prev.cwd, t.cwd)
              && Replaced(e.cmdline, prev.cmdline, t.cmdline)
              && FilledOnce(e.comm, prev.comm, t.comm) && FilledOnce(e.parentComm, prev.parentComm, t.parentComm))
  {
    hide ResolveProcess, IdentityLaw, HistoryFits, ResolvedWhileLive, SeenAgain, FreshlySeen;
    var exec := s.ev.action.ProcessExeced?;
    ResolvedShowsActor(r, s.ev.actor, s.ev.tsNs, exec, s.subjectView, s.subjectVictim);
    ResolveEvolves(r, s.ev.actor, s.ev.tsNs, exec, s.subjectView, s.subjectVictim);
    var (r1, subject) := ResolveSubject(r, s);
    var child := ChildActor(s.ev.childPid, s.ev.actor);
    ChildKey(s.ev.childPid, s.ev.actor);
    ResolvedFields(r1, child, s.ev.tsNs, true, s.childView, s.childVictim);
    OthersAreLeftAlone(r1, child, s.ev.tsNs, true, s.childView, s.childVictim, subject);
  }

  // ---- keys and room ------------------------------------------------------

  /** Threads of one thread group resolve to its entity, whoever of them acts; without a group the task's own number counts. */
  lemma ThreadsShareTheirEntity(r: Registry, a: Actor, nowNs: u64, refresh: bool, view: ProcView, victim: nat, id: nat, e: ProcessEntity)
    requires Good(r) && id in r.processes && e == r.processes[id] && !e.exited
    requires (a.tgid != 0 && e.tgid == a.tgid) || (a.tgid == 0 && e.tgid == 0 && a.pid != 0 && e.pid == a.pid)
    requires e.startTimeTicks == 0 || view.checkTicks == 0 || view.checkTicks == e.startTimeTicks
    ensures ResolveProcess(r, a, nowNs, refresh, view, victim).1 == id
  {
    hide ResolveProcess;
    LiveKeyChangesHandsIff(r, a, nowNs, refresh, view, victim, id);
  }

  /** An event of nobody, neither pid nor tgid, resolves nothing; unless it starts a child it changes nothing. */
  lemma NobodyResolvesToNothing(r: Registry, s: Step)
    requires Good(r) && s.ev.actor.pid == 0 && s.ev.actor.tgid == 0
    ensures var (after, res) := Ingest(r, s);
            res.subjectId == 0 && res.subjectProcess == None && (!StartsChild(s.ev) ==> after == r)
  {
    hide IdentityLaw, HistoryFits, ResolvedWhileLive, ChildActor;
    if StartsChild(s.ev) {
      ResolveEvolves(r, ChildActor(s.ev.childPid, s.ev.actor), s.ev.tsNs, true, s.childView, s.childVictim);
    }
  }

  /** While there is room for two more, an event evicts nobody. */
  lemma NobodyEvictedWhileRoom(r: Registry, s: Step)
    requires Good(r) && |r.processes| <= 8190
    ensures r.processes.Keys <= Ingest(r, s).0.processes.Keys
  {
    hide ResolveProcess, ChildActor, Good;
    var exec := s.ev.action.ProcessExeced?;
    ResolveEvictsNobody(r, s.ev.actor, s.ev.tsNs, exec, s.subjectView, s.subjectVictim);
    var r1 := ResolveSubject(r, s).0;
    if StartsChild(s.ev) {
      ResolveEvolves(r, s.ev.actor, s.ev.tsNs, exec, s.subjectView, s.subjectVictim);
      ResolveEvictsNobody(r1, ChildActor(s.ev.childPid, s.ev.actor), s.ev.tsNs, true, s.childView, s.childVictim);
    }
  }

  lemma ResolveEvictsNobody(r: Registry, a: Actor, nowNs: u64, refresh: bool, view: ProcView, victim: nat)
    requires Good(r) && |r.processes| <= 8191
    ensures var s := ResolveProcess(r, a, nowNs, refresh, view, victim).0;
            r.processes.Keys <= s.processes.Keys && |s.processes| <= |r.processes| + 1
  {
    hide Touch, Insert, Cleared, ResolveProcess, IdentityLaw, HistoryFits, ResolvedWhileLive;
    ResolveShape(r, a, nowNs, refresh, view, victim);
    var key := ActorKey(a);
    if key != 0 {
      if Hits(r, key, nowNs, view) {
        TouchIsLocal(r, key, a, nowNs, refresh, view.refresh);
        SameKeysSameSize(r.processes, Touch(r, key, a, nowNs, refresh, view.refresh).processes);
      } else {
        var cleared := Cleared(r, key, nowNs);
        ClearedIsLocal(r, key, nowNs);
        InsertIsRecent(cleared, key, a, nowNs, view.refresh);
        OneMoreKey(r.processes, Insert(cleared, key, a, nowNs, view.refresh).processes, cleared.nextId);
      }
    }
  }

  lemma OneMoreKey(m: map<nat, ProcessEntity>, n: map<nat, ProcessEntity>, id: nat)
    requires n.Keys == m.Keys + {id}
    ensures |n| <= |m| + 1
  {
    assert |m| == |m.Keys| && |n| == |n.Keys|;
  }
}
