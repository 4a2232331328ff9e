/**
 * What one `EntityRegistry::Ingest` does, as functions on registry values
 * (src/registry/entity_registry.cpp). What `/proc` shows and the order in which the hash map
 * is scanned are inputs of each step; `notes` is a history variable the program does not have.
 */
module RegistryModel {
  import opened Primitives

  const MAX_ENTRIES: nat := 8192
  const IDENTITY_CHECK_NS: u64 := 500 * 1000 * 1000

  datatype Actor = Actor(pid: u32, tgid: u32, ppid: u32, uid: u32, gid: u32, comm: string)

  datatype ProcessEntity = ProcessEntity(
    id: nat,
    pid: u32, tgid: u32, ppid: u32, uid: u32, gid: u32,
    comm: string, execPath: string, cmdline: string, cwd: string, parentComm: string,
    startTimeTicks: u64,
    parentId: nat,
    firstSeenNs: u64, lastSeenNs: u64,
    exited: bool, exitNs: u64, exitCode: int,
    lastIdentityCheckNs: u64)

  /** What one refresh reads from `/proc`, already parsed; "" and 0 for what cannot be read. */
  datatype ProcFacts = ProcFacts(exe: string, cwd: string, cmdline: string,
                                 comm: string, parentComm: string, startTicks: u64)

  /** What `/proc` shows to one `ResolveProcess`: the reuse check first, the refresh later. */
  datatype ProcView = ProcView(checkTicks: u64, refresh: ProcFacts)

  /** The three actions the registry tells apart. */
  datatype Action = ProcessStarted | ProcessExeced | ProcessExited | OtherAction

  datatype Event = Event(tsNs: u64, action: Action, actor: Actor, childPid: u32,
                         outcome: int, execPathHint: string)

  /** The references `Ingest` fills in; `objectId` is None when `object_ref` is left alone. */
  datatype Resolution = Resolution(subjectId: nat, objectId: Option<nat>,
                                   subjectProcess: Option<ProcessEntity>)

  /** History: which key was resolved to which id, and what retired an id. */
  datatype Note =
    | Resolved(key: u32, id: nat)
    | Checked(id: nat)
    | Exited(id: nat)
    | Reused(id: nat)
    | Evicted(id: nat)

  datatype Registry = Registry(processes: map<nat, ProcessEntity>, tgidIndex: map<u32, nat>,
                               nextId: nat, notes: seq<Note>)

  const EMPTY: Registry := Registry(map[], map[], 1, [])

  function KeyOf(pid: u32, tgid: u32): u32 { if tgid != 0 then tgid else pid }

  function EntityKey(e: ProcessEntity): u32 { KeyOf(e.pid, e.tgid) }

  function ActorKey(a: Actor): u32 { KeyOf(a.pid, a.tgid) }

  // ---- entity updates -----------------------------------------------------

  function UpdateFast(e: ProcessEntity, a: Actor, nowNs: u64): ProcessEntity {
    e.(pid := a.pid, tgid := a.tgid, ppid := a.ppid, uid := a.uid, gid := a.gid,
       comm := if a.comm != "" then a.comm else e.comm,
       lastSeenNs := nowNs)
  }

  /** Keep the old text when `/proc` gave nothing. */
  function Fresher(text: string, previous: string): string { if text != "" then text else previous }

  function RefreshRich(e: ProcessEntity, key: u32, t: ProcFacts): ProcessEntity {
    if key == 0 then e else
      e.(execPath := Fresher(t.exe, e.execPath),
         cwd := Fresher(t.cwd, e.cwd),
         cmdline := Fresher(t.cmdline, e.cmdline),
         comm := if e.comm == "" then t.comm else e.comm,
         parentComm := if e.parentComm == "" && e.ppid != 0
                       then t.parentComm else e.parentComm,
         startTimeTicks := if e.startTimeTicks == 0
                           then t.startTicks else e.startTimeTicks)
  }

  /** Whether `IsReused` gets past its two early returns and reads `/proc` again. */
  predicate CheckDue(e: ProcessEntity, nowNs: u64) {
    e.startTimeTicks != 0 && Sub64(nowNs, e.lastIdentityCheckNs) >= IDENTITY_CHECK_NS
  }

  predicate IsReused(e: ProcessEntity, nowNs: u64, current: u64) {
    CheckDue(e, nowNs) && current != 0 && current != e.startTimeTicks
  }

  function NewEntity(id: nat, key: u32, a: Actor, nowNs: u64, t: ProcFacts): ProcessEntity {
    var blank := ProcessEntity(id, 0, 0, 0, 0, 0, "", "", "", "", "", 0, 0, 0, 0, false, 0, 0, 0);
    RefreshRich(UpdateFast(blank, a, nowNs).(firstSeenNs := nowNs, lastIdentityCheckNs := nowNs), key, t)
  }

  // ---- registry operations ------------------------------------------------

  function Noted(r: Registry, n: Note): Registry { r.(notes := r.notes + [n]) }

  function WithEntity(r: Registry, id: nat, e: ProcessEntity): Registry {
    r.(processes := r.processes[id := e])
  }

  function RetireIndex(r: Registry, key: u32, id: nat): Registry {
    if key in r.tgidIndex && r.tgidIndex[key] == id then r.(tgidIndex := r.tgidIndex - {key}) else r
  }

  /** `why` is the note left behind: an exit event or a detected reuse. */
  function MarkExited(r: Registry, id: nat, nowNs: u64, exitCode: int, why: Note): Registry {
    if id !in r.processes then r else
      var e := r.processes[id].(exited := true, exitNs := nowNs, exitCode := exitCode);
      Noted(RetireIndex(WithEntity(r, id, e), EntityKey(e), id), why)
  }

  /** `victim` can come out of a scan of the table: nothing was seen longer ago. */
  predicate LeastRecentlySeen(r: Registry, victim: nat) {
    victim in r.processes
    && forall id :: id in r.processes ==> r.processes[victim].lastSeenNs <= r.processes[id].lastSeenNs
  }

  function EvictIfNeeded(r: Registry, victim: nat): Registry {
    if |r.processes| <= MAX_ENTRIES || victim !in r.processes then r else
      var e := r.processes[victim];
      var unindexed := RetireIndex(r, EntityKey(e), e.id);
      Noted(unindexed.(processes := r.processes - {victim}), Evicted(victim))
  }

  /** `CreateProcess` up to its call of `EvictIfNeeded`. */
  function Insert(r: Registry, key: u32, a: Actor, nowNs: u64, t: ProcFacts): Registry {
    Registry(r.processes[r.nextId := NewEntity(r.nextId, key, a, nowNs, t)],
             r.tgidIndex[key := r.nextId], r.nextId + 1, r.notes + [Resolved(key, r.nextId)])
  }

  /** The identity check on the entity the index names, before anything else changes. */
  function AfterCheck(r: Registry, id: nat, nowNs: u64): Registry
    requires id in r.processes
  {
    if CheckDue(r.processes[id], nowNs)
    then Noted(WithEntity(r, id, r.processes[id].(lastIdentityCheckNs := nowNs)), Checked(id))
    else r
  }

  /** The key resolves to an entity already known and not found to be a reused pid. */
  predicate Hits(r: Registry, key: u32, nowNs: u64, view: ProcView) {
    key in r.tgidIndex && r.tgidIndex[key] in r.processes
    && !IsReused(r.processes[r.tgidIndex[key]], nowNs, view.checkTicks)
  }

  /** The registry a miss leaves for `CreateProcess`: reuse retired, dangling index entry gone. */
  function Cleared(r: Registry, key: u32, nowNs: u64): Registry {
    if key !in r.tgidIndex then r
    else if r.tgidIndex[key] !in r.processes then r.(tgidIndex := r.tgidIndex - {key})
    else var id := r.tgidIndex[key]; MarkExited(AfterCheck(r, id, nowNs), id, nowNs, 0, Reused(id))
  }

  function Touch(r: Registry, key: u32, a: Actor, nowNs: u64, refresh: bool, t: ProcFacts): Registry
    requires key in r.tgidIndex && r.tgidIndex[key] in r.processes
  {
    var id := r.tgidIndex[key];
    var checked := AfterCheck(r, id, nowNs);
    var fast := UpdateFast(checked.processes[id], a, nowNs);
    Noted(WithEntity(checked, id, if refresh then RefreshRich(fast, key, t) else fast), Resolved(key, id))
  }

  function ResolveProcess(r: Registry, a: Actor, nowNs: u64, refresh: bool, view: ProcView, victim: nat)
    : (Registry, nat)
  {
    var key := ActorKey(a);
    if key == 0 then (r, 0)
    else if Hits(r, key, nowNs, view) then (Touch(r, key, a, nowNs, refresh, view.refresh), r.tgidIndex[key])
    else (EvictIfNeeded(Insert(Cleared(r, key, nowNs), key, a, nowNs, view.refresh), victim), r.nextId)
  }

  /** `victim` is a choice the scan of this resolution can make, if it scans at all. */
  predicate ScanAllows(r: Registry, a: Actor, nowNs: u64, view: ProcView, victim: nat) {
    var key := ActorKey(a);
    key == 0 || Hits(r, key, nowNs, view) ||
    var full := Insert(Cleared(r, key, nowNs), key, a, nowNs, view.refresh);
    |full.processes| <= MAX_ENTRIES || LeastRecentlySeen(full, victim)
  }

  function ChildActor(childPid: u32, parent: Actor): Actor {
    Actor(childPid, childPid, ActorKey(parent), 0, 0, "")
  }

  function AdoptChild(r: Registry, id: nat, parentId: nat): Registry {
    if id in r.processes && r.processes[id].parentId == 0
    then WithEntity(r, id, r.processes[id].(parentId := parentId)) else r
  }

  function ResolveChild(r: Registry, childPid: u32, parentId: nat, parent: Actor, nowNs: u64,
                        view: ProcView, victim: nat): (Registry, nat)
  {
    if childPid == 0 then (r, 0) else
      var (resolved, id) := ResolveProcess(r, ChildActor(childPid, parent), nowNs, true, view, victim);
      (AdoptChild(resolved, id, parentId), id)
  }

  // ---- one event ----------------------------------------------------------

  /** An event together with everything the environment decides while it is ingested. */
  datatype Step = Step(ev: Event, subjectView: ProcView, childView: ProcView,
                       subjectVictim: nat, childVictim: nat)

  function ResolveSubject(r: Registry, s: Step): (Registry, nat) {
    ResolveProcess(r, s.ev.actor, s.ev.tsNs, s.ev.action.ProcessExeced?, s.subjectView, s.subjectVictim)
  }

  predicate StartsChild(ev: Event) { ev.action.ProcessStarted? && ev.childPid != 0 }

  /** The registry after the exit or child branch of `Ingest`. */
  function AfterAction(r: Registry, s: Step): (Registry, Option<nat>) {
    var (r1, subject) := ResolveSubject(r, s);
    if s.ev.action.ProcessExited? then
      (MarkExited(r1, subject, s.ev.tsNs, s.ev.outcome, Exited(subject)), None)
    else if StartsChild(s.ev) then
      var (r2, child) := ResolveChild(r1, s.ev.childPid, subject, s.ev.actor, s.ev.tsNs, s.childView, s.childVictim);
      (r2, Some(child))
    else (r1, None)
  }

  function HintExecPath(r: Registry, id: nat, hint: string): Registry {
    if hint != "" && id in r.processes && r.processes[id].execPath == ""
    then WithEntity(r, id, r.processes[id].(execPath := hint)) else r
  }

  function FindProcess(r: Registry, id: nat): Option<ProcessEntity> {
    if id in r.processes then Some(r.processes[id]) else None
  }

  function Ingest(r: Registry, s: Step): (Registry, Resolution) {
    var subject := ResolveSubject(r, s).1;
    var (r2, child) := AfterAction(r, s);
    var r3 := HintExecPath(r2, subject, s.ev.execPathHint);
    (r3, Resolution(subject, child, FindProcess(r3, subject)))
  }

  /** The victims a step names are ones its scans can pick. */
  predicate Legal(r: Registry, s: Step) {
    ScanAllows(r, s.ev.actor, s.ev.tsNs, s.subjectView, s.subjectVictim)
    && (StartsChild(s.ev) ==>
          ScanAllows(ResolveSubject(r, s).0, ChildActor(s.ev.childPid, s.ev.actor), s.ev.tsNs,
                     s.childView, s.childVictim))
  }

  // ---- whole runs ---------------------------------------------------------

  function Run(steps: seq<Step>): Registry
    decreases |steps|
  {
    if steps == [] then EMPTY else Ingest(Run(steps[..|steps| - 1]), steps[|steps| - 1]).0
  }

  predicate LegalRun(steps: seq<Step>)
    decreases |steps|
  {
    steps == [] ||
    (LegalRun(steps[..|steps| - 1]) && Legal(Run(steps[..|steps| - 1]), steps[|steps| - 1]))
  }

  /** The subject id `Ingest` gave to the i-th event. */
  function SubjectId(steps: seq<Step>, i: nat): nat
    requires i < |steps|
  {
    Ingest(Run(steps[..i]), steps[i]).1.subjectId
  }
}
