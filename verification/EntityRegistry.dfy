/**
 * The registry as the program has it: two maps and a counter updated in place
 * (src/registry/entity_registry.h, src/registry/entity_registry.cpp). Every method is tied to
 * the function of RegistryModel that says what it does.
 */
module EntityRegistries {
  import opened Primitives
  import opened RegistryModel
  import opened RegistryInvariants
  import ProcUtil
  import RegistryRuns
  import RegistryLineage
  import RegistryFields

  /** The texts the `/proc` files and links hold when they are read; "" if unreadable. */
  datatype RawProc = RawProc(exe: string, cwd: string, cmdline: string,
                             comm: string, parentComm: string, stat: string)

  datatype RawView = RawView(checkStat: string, refresh: RawProc)

  function Facts(raw: RawProc): ProcFacts {
    ProcFacts(raw.exe, raw.cwd, ProcUtil.NormalizedCmdline(raw.cmdline), ProcUtil.Stripped(raw.comm),
              ProcUtil.Stripped(raw.parentComm), ProcUtil.StartTimeTicks(raw.stat))
  }

  function View(raw: RawView): ProcView {
    ProcView(ProcUtil.StartTimeTicks(raw.checkStat), Facts(raw.refresh))
  }

  /** Fill or refresh the `/proc`-derived fields of an entity. */
  method RefreshFields(e: ProcessEntity, key: u32, raw: RawProc) returns (f: ProcessEntity)
    ensures f == RefreshRich(e, key, Facts(raw))
  {
    hide ProcUtil.StartTimeTicks, ProcUtil.NormalizedCmdline, ProcUtil.Stripped;
    f := e;
    if key == 0 {
      return;
    }
    if raw.exe != "" {
      f := f.(execPath := raw.exe);
    }
    if raw.cwd != "" {
      f := f.(cwd := raw.cwd);
    }
    var cmd := ProcUtil.NormalizeCmdline(raw.cmdline);
    if cmd != "" {
      f := f.(cmdline := cmd);
    }
    if f.comm == "" {
      var c := ProcUtil.RStrip(raw.comm);
      if c != "" {
        f := f.(comm := c);
      }
    }
    if f.parentComm == "" && f.ppid != 0 {
      var pc := ProcUtil.RStrip(raw.parentComm);
      if pc != "" {
        f := f.(parentComm := pc);
      }
    }
    if f.startTimeTicks == 0 {
      var ticks := ProcUtil.ParseStartTimeTicks(raw.stat);
      f := f.(startTimeTicks := ticks);
    }
  }

  class EntityRegistry {
    var processesById: map<nat, ProcessEntity>
    var tgidIndex: map<u32, nat>
    var nextId: nat
    ghost var notes: seq<Note>

    /** The registry value this object stands for. */
    ghost function State(): Registry
      reads this
    {
      Registry(processesById, tgidIndex, nextId, notes)
    }

    ghost predicate Valid()
      reads this
    {
      Good(State())
    }

    constructor ()
      ensures Valid() && State() == EMPTY
    {
      processesById, tgidIndex, nextId, notes := map[], map[], 1, [];
      new;
      EmptyIsGood();
    }

    function ProcessCount(): nat
      reads this
    {
      |processesById|
    }

    method RetireIndexEntry(key: u32, id: nat)
      modifies this
      ensures State() == RetireIndex(old(State()), key, id)
    {
      if key in tgidIndex && tgidIndex[key] == id {
        tgidIndex := tgidIndex - {key};
      }
    }

    method MarkProcessExited(id: nat, nowNs: u64, exitCode: int, ghost why: Note)
      modifies this
      ensures State() == MarkExited(old(State()), id, nowNs, exitCode, why)
    {
      if id !in processesById {
        return;
      }
      processesById := processesById[id := processesById[id].(exited := true, exitNs := nowNs, exitCode := exitCode)];
      RetireIndexEntry(EntityKey(processesById[id]), id);
      notes := notes + [why];
    }

    /** Scan the table in any order and evict the first entity with the smallest last-seen time. */
    method EvictOldestIfNeeded() returns (ghost victim: nat)
      modifies this
      ensures State() == EvictIfNeeded(old(State()), victim)
      ensures |old(processesById)| <= MAX_ENTRIES || LeastRecentlySeen(old(State()), victim)
    {
      victim := 0;
      if |processesById| <= MAX_ENTRIES {
        return;
      }
      var unseen := processesById.Keys;
      assert |processesById| == |unseen|;
      var best: Option<nat> := None;
      while unseen != {}
        invariant unseen <= processesById.Keys
        invariant best.None? ==> unseen == processesById.Keys
        invariant best.Some? ==>
          && best.value in processesById
          && forall id :: id in processesById && id !in unseen ==>
               processesById[best.value].lastSeenNs <= processesById[id].lastSeenNs
        decreases unseen
      {
        var id :| id in unseen;
        if best.None? || processesById[id].lastSeenNs < processesById[best.value].lastSeenNs {
          best := Some(id);
        }
        unseen := unseen - {id};
      }
      if best.Some? {
        victim := best.value;
        RetireIndexEntry(EntityKey(processesById[best.value]), processesById[best.value].id);
        processesById := processesById - {best.value};
        notes := notes + [Evicted(best.value)];
      }
    }

    method CreateProcess(key: u32, actor: Actor, nowNs: u64, raw: RawProc) returns (id: nat, ghost victim: nat)
      modifies this
      ensures id == old(nextId)
      ensures var full := Insert(old(State()), key, actor, nowNs, Facts(raw));
              && State() == EvictIfNeeded(full, victim)
              && (|full.processes| <= MAX_ENTRIES || LeastRecentlySeen(full, victim))
    {
      hide RefreshRich, Facts;
      id := nextId;
      nextId := nextId + 1;
      var e := ProcessEntity(id, 0, 0, 0, 0, 0, "", "", "", "", "", 0, 0, 0, 0, false, 0, 0, 0);
      e := UpdateFast(e, actor, nowNs);
      e := e.(firstSeenNs := nowNs, lastIdentityCheckNs := nowNs);
      e := RefreshFields(e, key, raw);
      processesById := processesById[id := e];
      tgidIndex := tgidIndex[key := id];
      notes := notes + [Resolved(key, id)];
      assert State() == Insert(old(State()), key, actor, nowNs, Facts(raw));
      victim := EvictOldestIfNeeded();
    }

    /** Throttled comparison of start times; remembers when it last looked. */
    method CheckReused(id: nat, nowNs: u64, stat: string) returns (reused: bool)
      requires id in processesById
      modifies this
      ensures State() == AfterCheck(old(State()), id, nowNs)
      ensures reused == IsReused(old(processesById)[id], nowNs, ProcUtil.StartTimeTicks(stat))
    {
      var e := processesById[id];
      if e.startTimeTicks == 0 {
        return false;
      }
      if Sub64(nowNs, e.lastIdentityCheckNs) < IDENTITY_CHECK_NS {
        return false;
      }
      processesById := processesById[id := e.(lastIdentityCheckNs := nowNs)];
      notes := notes + [Checked(id)];
      var current := ProcUtil.ParseStartTimeTicks(stat);
      if current == 0 {
        return false;
      }
      return current != e.startTimeTicks;
    }

    method ResolveActor(actor: Actor, nowNs: u64, refreshRich: bool, raw: RawView)
      returns (id: nat, ghost victim: nat)
      modifies this
      ensures (State(), id) == ResolveProcess(old(State()), actor, nowNs, refreshRich, View(raw), victim)
      ensures ScanAllows(old(State()), actor, nowNs, View(raw), victim)
    {
      hide RefreshRich, Facts, NewEntity, EvictIfNeeded, RetireIndex, CheckDue, UpdateFast, EntityKey;
      victim := 0;
      var key := ActorKey(actor);
      if key == 0 {
        return 0, 0;
      }
      if key in tgidIndex {
        id := tgidIndex[key];
        if id in processesById {
          var reused := CheckReused(id, nowNs, raw.checkStat);
          if !reused {
            ghost var checked := AfterCheck(old(State()), id, nowNs);
            processesById := processesById[id := UpdateFast(processesById[id], actor, nowNs)];
            if refreshRich {
              var e := RefreshFields(processesById[id], key, raw.refresh);
              processesById := processesById[id := e];
            }
            notes := notes + [Resolved(key, id)];
            assert processesById == checked.processes[id := processesById[id]];
            assert State() == Touch(old(State()), key, actor, nowNs, refreshRich, View(raw).refresh);
            return id, victim;
          }
          MarkProcessExited(id, nowNs, 0, Reused(id));
        } else {
          tgidIndex := tgidIndex - {key};
        }
      }
      assert State() == Cleared(old(State()), key, nowNs);
      RegistryLineage.InsertIdIsNext(old(State()), key, nowNs);
      id, victim := CreateProcess(key, actor, nowNs, raw.refresh);
    }

    method ResolveChildProcess(childPid: u32, parentId: nat, parent: Actor, nowNs: u64, raw: RawView)
      returns (id: nat, ghost victim: nat)
      modifies this
      ensures (State(), id) == ResolveChild(old(State()), childPid, parentId, parent, nowNs, View(raw), victim)
      ensures childPid != 0 ==> ScanAllows(old(State()), ChildActor(childPid, parent), nowNs, View(raw), victim)
    {
      hide ResolveProcess, ScanAllows, View;
      victim := 0;
      if childPid == 0 {
        return 0, 0;
      }
      var child := Actor(childPid, childPid, if parent.tgid != 0 then parent.tgid else parent.pid, 0, 0, "");
      id, victim := ResolveActor(child, nowNs, true, raw);
      if id in processesById && processesById[id].parentId == 0 {
        processesById := processesById[id := processesById[id].(parentId := parentId)];
      }
    }

    method FindById(id: nat) returns (found: Option<ProcessEntity>)
      ensures found == FindProcess(State(), id)
    {
      found := if id in processesById then Some(processesById[id]) else None;
    }

    /**
     * Ingest one event: some legal choice of victims explains the new state and the references
     * handed back, and the invariant survives.
     */
    method IngestEvent(ev: Event, subjectRaw: RawView, childRaw: RawView)
      returns (res: Resolution, ghost step: Step)
      requires Valid()
      modifies this
      ensures step.ev == ev && step.subjectView == View(subjectRaw) && step.childView == View(childRaw)
      ensures Legal(old(State()), step)
      ensures (State(), res) == Ingest(old(State()), step)
      ensures Valid() && RegistryRuns.Evolves(old(State()), State())
    {
      hide ResolveProcess, ScanAllows, View, ChildActor, ResolveChild, MarkExited, Good, RegistryRuns.Evolves;
      var isExec := ev.action.ProcessExeced?;
      var subjectId, subjectVictim := ResolveActor(ev.actor, ev.tsNs, isExec, subjectRaw);
      var objectId: Option<nat> := None;
      ghost var childVictim := 0;
      label resolved:
      if ev.action.ProcessExited? {
        MarkProcessExited(subjectId, ev.tsNs, ev.outcome, Exited(subjectId));
      } else if ev.action.ProcessStarted? && ev.childPid != 0 {
        var childId, v := ResolveChildProcess(ev.childPid, subjectId, ev.actor, ev.tsNs, childRaw);
        objectId, childVictim := Some(childId), v;
      }
      step := Step(ev, View(subjectRaw), View(childRaw), subjectVictim, childVictim);
      assert ResolveSubject(old(State()), step) == (old@resolved(State()), subjectId);
      assert AfterAction(old(State()), step) == (State(), objectId);
      if ev.execPathHint != "" {
        if subjectId in processesById && processesById[subjectId].execPath == "" {
          processesById := processesById[subjectId := processesById[subjectId].(execPath := ev.execPathHint)];
        }
      }
      var context := FindById(subjectId);
      res := Resolution(subjectId, objectId, context);
      IngestKeepsGood(old(State()), step);
      RegistryRuns.IngestEvolves(old(State()), step);
    }
  }

  /** Which text each fact is read from. */
  lemma FactsAreTexts(raw: RawView)
    ensures var t, f := raw.refresh, View(raw).refresh;
            && f.exe == t.exe && f.cwd == t.cwd
            && f.cmdline == ProcUtil.NormalizedCmdline(t.cmdline)
            && f.comm == ProcUtil.Stripped(t.comm) && f.parentComm == ProcUtil.Stripped(t.parentComm)
            && f.startTicks == ProcUtil.StartTimeTicks(t.stat)
            && View(raw).checkTicks == ProcUtil.StartTimeTicks(raw.checkStat)
  {}

  /** After an exec event the subject shows what the links and files of `/proc` held, where they held anything. */
  lemma ExecShowsProc(r: Registry, s: Step, raw: RawView)
    requires Good(r) && ActorKey(s.ev.actor) != 0 && s.ev.action.ProcessExeced? && s.subjectView == View(raw)
    ensures var (after, res) := Ingest(r, s);
            res.subjectId in after.processes ==>
              var e := after.processes[res.subjectId];
              && (raw.refresh.exe != "" ==> e.execPath == raw.refresh.exe)
              && (raw.refresh.cwd != "" ==> e.cwd == raw.refresh.cwd)
              && (ProcUtil.NormalizedCmdline(raw.refresh.cmdline) != "" ==>
                    e.cmdline == ProcUtil.NormalizedCmdline(raw.refresh.cmdline))
  {
    hide Good, Ingest, ActorKey, View, ProcUtil.NormalizedCmdline;
    RegistryFields.ExecEventRefreshes(r, s);
    FactsAreTexts(raw);
  }
}
