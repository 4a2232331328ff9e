/** The event a record becomes for the registry (src/model/normalizer.cpp). */
module Normalizer {
  import opened Primitives
  import opened EventSchema
  import opened KernelModel
  import opened RegistryModel
  import KernelCapture
  import RegistryInvariants
  import RegistryEvents
  import RegistryFields
  import Sockaddr
  import JsonRecord

  /** The copied name is cut to leave room for its NUL. */
  function ActorName(comm: string): string { Sockaddr.CString(if |comm| > 15 then comm[..15] else comm) }

  function MakeActor(h: Header): Actor { Actor(h.pid, h.tgid, h.ppid, h.uid, h.gid, ActorName(h.comm)) }

  function ProcessAction(kind: u32): Action {
    if kind == PROCESS_EXEC then ProcessExeced
    else if kind == PROCESS_EXIT then ProcessExited
    else if kind == PROCESS_FORK || kind in KernelCapture.CLONES then ProcessStarted
    else OtherAction
  }

  /** As far as the registry looks: it tells no other actions apart. */
  function Normalize(r: Record): Event {
    var h := JsonRecord.HeaderOf(r);
    match r
    case ProcessRecord(ev) =>
      var action := ProcessAction(ev.kind);
      Event(h.tsNs, action, MakeActor(h), if action.ProcessStarted? then ev.childPid else 0,
            if action.ProcessExited? then ev.exitCode else 0, Sockaddr.CString(ev.execPath))
    case FileRecord(ev) => Event(h.tsNs, OtherAction, MakeActor(h), 0, ev.ret, "")
    case SyscallRecord(ev) => Event(h.tsNs, OtherAction, MakeActor(h), 0, ev.ret, "")
    case NetworkRecord(ev) => Event(h.tsNs, OtherAction, MakeActor(h), 0, ev.ret, "")
  }

  /** The actor of a process event is the current task, its name as long as an entity keeps it. */
  function TaskActor(t: KernelCapture.Task): Actor {
    Actor(t.pidTgid % 0x1_0000_0000, t.pidTgid / 0x1_0000_0000, t.ppid, t.uid, t.gid,
          Sockaddr.CString(if |t.comm| > 15 then t.comm[..15] else t.comm))
  }

  /** What each process tracepoint tells the registry. */
  lemma ProcessEvents(t: KernelCapture.Task, u: KernelCapture.ProcessReads, kind: u32)
    ensures var ev := Normalize(ProcessRecord(KernelCapture.CaptureProcess(t, kind, u)));
            && ev.tsNs == t.nowNs && ev.actor == TaskActor(t)
            && (kind == PROCESS_EXEC ==> ev.action == ProcessExeced && ev.execPathHint == Sockaddr.CString(u.execPath))
            && (kind == PROCESS_EXIT ==> ev.action == ProcessExited && ev.outcome == u.exitCode)
            && (kind == PROCESS_FORK ==> ev.action == ProcessStarted && ev.childPid == u.childPid)
            && (kind in {PROCESS_CLONE, PROCESS_CLONE3, PROCESS_VFORK} ==>
                  ev.action == ProcessStarted && ev.childPid == if u.ret > 0 then ToU32(u.ret) else 0)
            && (kind != PROCESS_EXEC ==> ev.execPathHint == "")
            && (kind > 6 || kind == 0 ==> ev.action == OtherAction)
  {
    hide Sockaddr.CString, ToU32;
    assert Sockaddr.CString("") == "" by { Sockaddr.CStringFacts(""); }
  }

  /** Files, system calls and network calls tell only who acted, when, and with what result. */
  lemma OtherEvents(r: Record)
    requires !r.ProcessRecord?
    ensures var ev, h := Normalize(r), JsonRecord.HeaderOf(r);
            && ev.tsNs == h.tsNs && ev.action == OtherAction && ev.childPid == 0 && ev.execPathHint == ""
            && ev.actor.pid == h.pid && ev.actor.tgid == h.tgid && ev.actor.ppid == h.ppid
            && ev.actor.uid == h.uid && ev.actor.gid == h.gid
            && (|h.comm| <= 15 ==> ev.actor.comm == Sockaddr.CString(h.comm))
            && ev.outcome == match r case FileRecord(f) => f.ret case SyscallRecord(y) => y.ret case NetworkRecord(n) => n.ret
                                     case ProcessRecord(_) => 0
  {
    hide Sockaddr.CString;
  }

  /** The exit code the kernel saw is the one the registry keeps. */
  lemma ExitCodeReachesEntity(r: Registry, s: RegistryModel.Step, t: KernelCapture.Task, u: KernelCapture.ProcessReads)
    requires RegistryInvariants.Good(r) && ActorKey(s.ev.actor) != 0
    requires s.ev == Normalize(ProcessRecord(KernelCapture.CaptureProcess(t, PROCESS_EXIT, u)))
    ensures var (after, res) := Ingest(r, s);
            res.subjectId in after.processes ==>
              var e := after.processes[res.subjectId];
              e.exited && e.exitNs == t.nowNs && e.exitCode == u.exitCode
  {
    hide Normalize, Ingest, RegistryInvariants.Good, ActorKey;
    ProcessEvents(t, u, PROCESS_EXIT);
    RegistryEvents.ExitEventRetires(r, s);
  }

  /** The path the kernel saw at exec stands in for what `/proc` no longer shows. */
  lemma ExecPathReachesEntity(r: Registry, s: RegistryModel.Step, t: KernelCapture.Task, u: KernelCapture.ProcessReads)
    requires RegistryInvariants.Good(r) && ActorKey(s.ev.actor) != 0
    requires s.ev == Normalize(ProcessRecord(KernelCapture.CaptureProcess(t, PROCESS_EXEC, u)))
    ensures var (after, res) := Ingest(r, s);
            res.subjectId in after.processes ==>
              after.processes[res.subjectId].execPath ==
                if s.subjectView.refresh.exe != "" then s.subjectView.refresh.exe
                else if RegistryFields.Before(r, res.subjectId).execPath != ""
                then RegistryFields.Before(r, res.subjectId).execPath
                else Sockaddr.CString(u.execPath)
  {
    hide Normalize, Ingest, RegistryInvariants.Good, ActorKey;
    ProcessEvents(t, u, PROCESS_EXEC);
    RegistryFields.ExecEventRefreshes(r, s);
  }

  /** The number fork reported is the one the child's entity goes by. */
  lemma ChildReachesEntity(r: Registry, s: RegistryModel.Step, t: KernelCapture.Task, u: KernelCapture.ProcessReads)
    requires RegistryInvariants.Good(r) && ActorKey(s.ev.actor) != 0 && u.childPid != 0 && u.childPid != ActorKey(s.ev.actor)
    requires s.ev == Normalize(ProcessRecord(KernelCapture.CaptureProcess(t, PROCESS_FORK, u)))
    ensures var (after, res) := Ingest(r, s);
            res.objectId.Some? && (res.objectId.value in after.processes ==>
              var e := after.processes[res.objectId.value];
              e.pid == e.tgid == u.childPid && e.ppid == ActorKey(s.ev.actor))
  {
    hide Normalize, Ingest, RegistryInvariants.Good, ActorKey, ResolveSubject;
    ProcessEvents(t, u, PROCESS_FORK);
    RegistryFields.ChildFields(r, s);
  }
}
