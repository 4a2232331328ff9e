/**
 * The handlers as they run: three correlation maps, the descriptor map, the ring buffer and the
 * per-CPU counters, updated in place (bpf/event_logger_common.bpf.h and the domain handlers).
 * Each handler is one step of KernelModel.Next and keeps the books of BpfStats.
 */
module KernelHandlers {
  import opened Primitives
  import opened EventSchema
  import opened KernelModel
  import opened KernelCapture
  import opened KernelConservation
  import opened BpfStats

  /** The three correlation maps seen as one. */
  function Pending(files: map<Key, FileEvent>, calls: map<Key, SyscallEvent>, nets: map<Key, NetworkState>)
    : map<Key, Payload>
  {
    (map key | key in files :: FilePayload(files[key]))
    + (map key | key in calls :: SyscallPayload(calls[key]))
    + (map key | key in nets :: NetworkPayload(nets[key]))
  }

  predicate Sorted(files: map<Key, FileEvent>, calls: map<Key, SyscallEvent>, nets: map<Key, NetworkState>) {
    (forall key :: key in files ==> key.FileKey?) && (forall key :: key in calls ==> key.SyscallKey?)
    && (forall key :: key in nets ==> key.NetworkKey?)
  }

  lemma PendingKeys3(files: map<Key, FileEvent>, calls: map<Key, SyscallEvent>, nets: map<Key, NetworkState>)
    ensures Pending(files, calls, nets).Keys == files.Keys + calls.Keys + nets.Keys
    ensures Sorted(files, calls, nets) ==>
              && (forall key :: key in files ==> Pending(files, calls, nets)[key] == FilePayload(files[key]))
              && (forall key :: key in calls ==> Pending(files, calls, nets)[key] == SyscallPayload(calls[key]))
              && (forall key :: key in nets ==> Pending(files, calls, nets)[key] == NetworkPayload(nets[key]))
  {}

  lemma FileSaved(files: map<Key, FileEvent>, calls: map<Key, SyscallEvent>, nets: map<Key, NetworkState>,
                  key: Key, v: FileEvent)
    requires Sorted(files, calls, nets) && key.FileKey?
    ensures key in Pending(files, calls, nets) <==> key in files
    ensures Pending(files[key := v], calls, nets) == Pending(files, calls, nets)[key := FilePayload(v)]
  {
    hide Pending;
    PendingKeys3(files, calls, nets);
    PendingKeys3(files[key := v], calls, nets);
  }

  lemma FileRemoved(files: map<Key, FileEvent>, calls: map<Key, SyscallEvent>, nets: map<Key, NetworkState>, key: Key)
    requires Sorted(files, calls, nets) && key.FileKey?
    ensures key in Pending(files, calls, nets) <==> key in files
    ensures key in files ==> Pending(files, calls, nets)[key] == FilePayload(files[key])
    ensures Pending(files - {key}, calls, nets) == Pending(files, calls, nets) - {key}
  {
    hide Pending;
    PendingKeys3(files, calls, nets);
    PendingKeys3(files - {key}, calls, nets);
  }

  lemma SyscallSaved(files: map<Key, FileEvent>, calls: map<Key, SyscallEvent>, nets: map<Key, NetworkState>,
                  key: Key, v: SyscallEvent)
    requires Sorted(files, calls, nets) && key.SyscallKey?
    ensures key in Pending(files, calls, nets) <==> key in calls
    ensures Pending(files, calls[key := v], nets) == Pending(files, calls, nets)[key := SyscallPayload(v)]
  {
    hide Pending;
    PendingKeys3(files, calls, nets);
    PendingKeys3(files, calls[key := v], nets);
  }

  lemma SyscallRemoved(files: map<Key, FileEvent>, calls: map<Key, SyscallEvent>, nets: map<Key, NetworkState>, key: Key)
    requires Sorted(files, calls, nets) && key.SyscallKey?
    ensures key in Pending(files, calls, nets) <==> key in calls
    ensures key in calls ==> Pending(files, calls, nets)[key] == SyscallPayload(calls[key])
    ensures Pending(files, calls - {key}, nets) == Pending(files, calls, nets) - {key}
  {
    hide Pending;
    PendingKeys3(files, calls, nets);
    PendingKeys3(files, calls - {key}, nets);
  }

  lemma NetworkSaved(files: map<Key, FileEvent>, calls: map<Key, SyscallEvent>, nets: map<Key, NetworkState>,
                  key: Key, v: NetworkState)
    requires Sorted(files, calls, nets) && key.NetworkKey?
    ensures key in Pending(files, calls, nets) <==> key in nets
    ensures Pending(files, calls, nets[key := v]) == Pending(files, calls, nets)[key := NetworkPayload(v)]
  {
    hide Pending;
    PendingKeys3(files, calls, nets);
    PendingKeys3(files, calls, nets[key := v]);
  }

  lemma NetworkRemoved(files: map<Key, FileEvent>, calls: map<Key, SyscallEvent>, nets: map<Key, NetworkState>, key: Key)
    requires Sorted(files, calls, nets) && key.NetworkKey?
    ensures key in Pending(files, calls, nets) <==> key in nets
    ensures key in nets ==> Pending(files, calls, nets)[key] == NetworkPayload(nets[key])
    ensures Pending(files, calls, nets - {key}) == Pending(files, calls, nets) - {key}
  {
    hide Pending;
    PendingKeys3(files, calls, nets);
    PendingKeys3(files, calls, nets - {key});
  }

  class KernelSide {
    const gates: Gates
    const cpus: nat

    var fileEnterState: map<Key, FileEvent>
    var syscallEnterState: map<Key, SyscallEvent>
    var networkEnterState: map<Key, NetworkState>
    var socketFdState: set<SocketFd>
    var bpfStats: map<nat, seq<u64>>

    // The ring buffer: records held right now, and what became of the others.
    var ringOpen: set<nat>
    var ringReserved: nat
    var ringDiscarded: nat
    var ringStream: seq<Record>

    ghost var trace: seq<Obs>

    ghost function State(): Kernel
      reads this
    {
      Kernel(Pending(fileEnterState, syscallEnterState, networkEnterState), socketFdState, trace)
    }

    ghost function Ledger(): Books
      reads this
    {
      Books(bpfStats, ringOpen, ringReserved, ringDiscarded, ringStream)
    }

    ghost predicate Valid()
      reads this
    {
      Sorted(fileEnterState, syscallEnterState, networkEnterState) && BooksFit(Ledger(), cpus, trace)
    }

    constructor (gates: Gates, cpus: nat)
      ensures Valid() && State() == BOOT && this.gates == gates && this.cpus == cpus
    {
      this.gates, this.cpus := gates, cpus;
      fileEnterState, syscallEnterState, networkEnterState, socketFdState := map[], map[], map[], {};
      bpfStats := ZeroStats(cpus);
      ringOpen, ringReserved, ringDiscarded, ringStream, trace := {}, 0, 0, [], [];
      new;
      hide BooksFit, ZeroStats;
      BlankBooks(cpus);
    }

    // ---- shared helpers ---------------------------------------------------

    method StatInc(stat: nat, cpu: nat)
      modifies this`bpfStats
      ensures bpfStats == Bumped(old(bpfStats), stat, cpu)
    {
      if stat in bpfStats && cpu < |bpfStats[stat]| {
        bpfStats := bpfStats[stat := BumpSlot(bpfStats[stat], cpu)];
      }
    }

    /** The reserve_* helpers: a fresh record, or a bumped failure counter. */
    method Reserve(room: bool, cpu: nat) returns (rec: Option<nat>)
      requires ringOpen == {}
      modifies this`ringOpen, this`ringReserved, this`bpfStats
      ensures rec.Some? <==> room
      ensures Ledger() == if room
                          then old(Ledger()).(open := {rec.value}, reserved := old(ringReserved) + 1)
                          else old(Ledger()).(stats := Bumped(old(bpfStats), 0, cpu))
    {
      if !room {
        StatInc(0, cpu);
        return None;
      }
      rec := Some(ringReserved);
      ringOpen := ringOpen + {ringReserved};
      ringReserved := ringReserved + 1;
    }

    /** Only a record still held can be given back, so none is discarded or submitted twice. */
    method RingDiscard(rec: nat)
      requires rec in ringOpen
      modifies this`ringOpen, this`ringDiscarded
      ensures ringOpen == old(ringOpen) - {rec} && ringDiscarded == old(ringDiscarded) + 1
    {
      ringOpen := ringOpen - {rec};
      ringDiscarded := ringDiscarded + 1;
    }

    method RingSubmit(rec: nat, content: Record)
      requires rec in ringOpen
      modifies this`ringOpen, this`ringStream
      ensures ringOpen == old(ringOpen) - {rec} && ringStream == old(ringStream) + [content]
    {
      ringOpen := ringOpen - {rec};
      ringStream := ringStream + [content];
    }

    method AddSocketFd(tgid: u32, fd: s32, stored: bool)
      modifies this`socketFdState
      ensures socketFdState == AddFd(old(socketFdState), tgid, fd, stored)
    {
      if stored {
        socketFdState := socketFdState + {(tgid, ToU32(fd))};
      }
    }

    method DeleteSocketFd(tgid: u32, fd: s32)
      modifies this`socketFdState
      ensures socketFdState == old(socketFdState) - {(tgid, ToU32(fd))}
    {
      socketFdState := socketFdState - {(tgid, ToU32(fd))};
    }

    method IsSocketFd(tgid: u32, fd: s32) returns (known: bool)
      ensures known <==> (tgid, ToU32(fd)) in State().socketFds
    {
      known := (tgid, ToU32(fd)) in socketFdState;
    }

    // ---- stash and emit ---------------------------------------------------

    method SaveFileEnterState(key: Key, payload: FileEvent, rec: nat, stored: bool, cpu: nat) returns (fate: EnterFate)
      requires key.FileKey? && ringOpen == {rec}
      modifies this`fileEnterState, this`bpfStats, this`ringOpen, this`ringDiscarded
      ensures fate == if key in old(fileEnterState) then Collided else if stored then Saved else StoreFailed
      ensures fileEnterState == if fate.Saved? then old(fileEnterState)[key := payload] else old(fileEnterState)
      ensures Ledger() == old(Ledger()).(stats := StatsAfter(old(bpfStats), Entered(key, FilePayload(payload), fate), cpu),
                                         open := {}, discarded := old(ringDiscarded) + 1)
    {
      if key in fileEnterState {
        StatInc(2, cpu);
        RingDiscard(rec);
        return Collided;
      }
      if stored {
        fileEnterState := fileEnterState[key := payload];
      } else {
        StatInc(1, cpu);
      }
      RingDiscard(rec);
      return if stored then Saved else StoreFailed;
    }

    method SaveSyscallEnterState(key: Key, payload: SyscallEvent, rec: nat, stored: bool, cpu: nat) returns (fate: EnterFate)
      requires key.SyscallKey? && ringOpen == {rec}
      modifies this`syscallEnterState, this`bpfStats, this`ringOpen, this`ringDiscarded
      ensures fate == if key in old(syscallEnterState) then Collided else if stored then Saved else StoreFailed
      ensures syscallEnterState == if fate.Saved? then old(syscallEnterState)[key := payload] else old(syscallEnterState)
      ensures Ledger() == old(Ledger()).(stats := StatsAfter(old(bpfStats), Entered(key, SyscallPayload(payload), fate), cpu),
                                         open := {}, discarded := old(ringDiscarded) + 1)
    {
      if key in syscallEnterState {
        StatInc(5, cpu);
        RingDiscard(rec);
        return Collided;
      }
      if stored {
        syscallEnterState := syscallEnterState[key := payload];
      } else {
        StatInc(4, cpu);
      }
      RingDiscard(rec);
      return if stored then Saved else StoreFailed;
    }

    method SaveNetworkEnterState(key: Key, payload: NetworkState, rec: nat, stored: bool, cpu: nat) returns (fate: EnterFate)
      requires key.NetworkKey? && ringOpen == {rec}
      modifies this`networkEnterState, this`bpfStats, this`ringOpen, this`ringDiscarded
      ensures fate == if key in old(networkEnterState) then Collided else if stored then Saved else StoreFailed
      ensures networkEnterState == if fate.Saved? then old(networkEnterState)[key := payload] else old(networkEnterState)
      ensures Ledger() == old(Ledger()).(stats := StatsAfter(old(bpfStats), Entered(key, NetworkPayload(payload), fate), cpu),
                                         open := {}, discarded := old(ringDiscarded) + 1)
    {
      if key in networkEnterState {
        StatInc(8, cpu);
        RingDiscard(rec);
        return Collided;
      }
      if stored {
        networkEnterState := networkEnterState[key := payload];
      } else {
        StatInc(7, cpu);
      }
      RingDiscard(rec);
      return if stored then Saved else StoreFailed;
    }

    method EmitFileExitEvent(key: Key, ret: s64, env: ExitEnv, cpu: nat) returns (ghost fate: ExitFate)
      requires key.FileKey? && ringOpen == {}
      modifies this`fileEnterState, this`bpfStats, this`ringOpen, this`ringReserved, this`ringStream
      ensures fate == if key !in old(fileEnterState) then Missed else if !env.ring then ExitNoRing
                      else Submitted(FileRecord(FinishFile(old(fileEnterState)[key], ret, env)))
      ensures fileEnterState == old(fileEnterState) - {key}
      ensures Ledger() == BooksAfter(old(Ledger()), Exited(key, ret, env, fate), cpu)
    {
      hide FinishFile;
      if key !in fileEnterState {
        StatInc(3, cpu);
        return Missed;
      }
      var rec := Reserve(env.ring, cpu);
      if rec.None? {
        fileEnterState := fileEnterState - {key};
        return ExitNoRing;
      }
      var out := FinishFile(fileEnterState[key], ret, env);
      RingSubmit(rec.value, FileRecord(out));
      fileEnterState := fileEnterState - {key};
      return Submitted(FileRecord(out));
    }

    method EmitSyscallExitEvent(key: Key, ret: s64, env: ExitEnv, cpu: nat) returns (ghost fate: ExitFate)
      requires key.SyscallKey? && ringOpen == {}
      modifies this`syscallEnterState, this`bpfStats, this`ringOpen, this`ringReserved, this`ringStream
      ensures fate == if key !in old(syscallEnterState) then Missed else if !env.ring then ExitNoRing
                      else Submitted(SyscallRecord(FinishSyscall(old(syscallEnterState)[key], ret, env)))
      ensures syscallEnterState == old(syscallEnterState) - {key}
      ensures Ledger() == BooksAfter(old(Ledger()), Exited(key, ret, env, fate), cpu)
    {
      hide FinishSyscall;
      if key !in syscallEnterState {
        StatInc(6, cpu);
        return Missed;
      }
      var rec := Reserve(env.ring, cpu);
      if rec.None? {
        syscallEnterState := syscallEnterState - {key};
        return ExitNoRing;
      }
      var out := FinishSyscall(syscallEnterState[key], ret, env);
      RingSubmit(rec.value, SyscallRecord(out));
      syscallEnterState := syscallEnterState - {key};
      return Submitted(SyscallRecord(out));
    }

    method EmitNetworkExitEvent(key: Key, ret: s64, env: ExitEnv, cpu: nat) returns (ghost fate: ExitFate)
      requires key.NetworkKey? && ringOpen == {}
      modifies this`networkEnterState, this`socketFdState, this`bpfStats
      modifies this`ringOpen, this`ringReserved, this`ringStream
      ensures fate == if key !in old(networkEnterState) then Missed else if !env.ring then ExitNoRing
                      else Submitted(NetworkRecord(FinishNetwork(key.task, key.kind, old(networkEnterState)[key], ret, env)))
      ensures networkEnterState == old(networkEnterState) - {key}
      ensures socketFdState ==
              if fate.Submitted?
              then FdsAfterExit(old(socketFdState), Tgid(key.task), key.kind, old(networkEnterState)[key], ret, env.user)
              else old(socketFdState)
      ensures Ledger() == BooksAfter(old(Ledger()), Exited(key, ret, env, fate), cpu)
    {
      hide FinishDetails;
      if key !in networkEnterState {
        StatInc(9, cpu);
        return Missed;
      }
      var rec := Reserve(env.ring, cpu);
      if rec.None? {
        networkEnterState := networkEnterState - {key};
        return ExitNoRing;
      }
      var s, user, kind, tgid := networkEnterState[key], env.user, key.kind, Tgid(key.task);
      var out := s.ev;
      if kind == NETWORK_SOCKET && ret >= 0 {
        out := out.(fd := ToS32(ret));
        AddSocketFd(tgid, out.fd, user.store0);
      }
      if kind == NETWORK_SOCKETPAIR && ret >= 0 && s.peerFdPtr != 0 {
        if user.fds.Some? {
          out := out.(fd := user.fds.value.0, peerFd := user.fds.value.1);
          AddSocketFd(tgid, out.fd, user.store0);
          AddSocketFd(tgid, out.peerFd, user.store1);
        }
      }
      if kind == NETWORK_ACCEPT && ret >= 0 {
        out := out.(peerFd := ToS32(ret));
        AddSocketFd(tgid, out.peerFd, user.store0);
      }
      if kind == NETWORK_ACCEPT4 && ret >= 0 {
        out := out.(peerFd := ToS32(ret));
        AddSocketFd(tgid, out.peerFd, user.store0);
      }
      if kind == NETWORK_CLOSE && ret >= 0 {
        DeleteSocketFd(tgid, out.fd);
      }
      assert out == FinishFds(kind, s, ret, user);
      out := FinishDetails(key.task, kind, s, out.(hdr := out.hdr.(tsNs := env.nowNs), ret := ToS32(ret)), ret, user);
      RingSubmit(rec.value, NetworkRecord(out));
      networkEnterState := networkEnterState - {key};
      return Submitted(NetworkRecord(out));
    }

    // ---- handlers ---------------------------------------------------------

    /** on_sys_enter_openat, on_sys_enter_unlinkat, on_sys_enter_renameat2 */
    method OnFileEnter(t: Task, kind: u32, a: Args, u: EnterReads, env: EnterEnv, cpu: nat)
      requires Valid() && cpu < cpus
      modifies this
      ensures Valid()
      ensures State() == Next(gates, old(State()), Enter(FileKey(t.pidTgid, kind), FilePayload(CaptureFile(t, kind, a, u)), env))
    {
      hide CaptureFile, BooksFit, Pending, Bumped;
      var key := FileKey(t.pidTgid, kind);
      if !GateOpen(gates, key) {
        return;
      }
      var payload := CaptureFile(t, kind, a, u);
      BooksAreIdle(Ledger(), cpus, trace);
      var rec := Reserve(env.ring, cpu);
      var fate := EnterNoRing;
      if rec.Some? {
        fate := SaveFileEnterState(key, payload, rec.value, env.store, cpu);
      }
      FileSaved(old(fileEnterState), old(syscallEnterState), old(networkEnterState), key, payload);
      ghost var o := Entered(key, FilePayload(payload), fate);
      assert Ledger() == BooksAfter(old(Ledger()), o, cpu);
      BooksStayRight(old(Ledger()), cpus, trace, o, cpu);
      trace := trace + [o];
    }

    /** on_raw_sys_enter */
    method OnSyscallEnter(t: Task, nr: s32, a: Args, env: EnterEnv, cpu: nat)
      requires Valid() && cpu < cpus
      modifies this
      ensures Valid()
      ensures State() == Next(gates, old(State()), Enter(SyscallKey(t.pidTgid, nr), SyscallPayload(CaptureSyscall(t, nr, a)), env))
    {
      hide CaptureSyscall, BooksFit, Pending, Bumped;
      var key := SyscallKey(t.pidTgid, nr);
      if !GateOpen(gates, key) {
        return;
      }
      var payload := CaptureSyscall(t, nr, a);
      BooksAreIdle(Ledger(), cpus, trace);
      var rec := Reserve(env.ring, cpu);
      var fate := EnterNoRing;
      if rec.Some? {
        fate := SaveSyscallEnterState(key, payload, rec.value, env.store, cpu);
      }
      SyscallSaved(old(fileEnterState), old(syscallEnterState), old(networkEnterState), key, payload);
      ghost var o := Entered(key, SyscallPayload(payload), fate);
      assert Ledger() == BooksAfter(old(Ledger()), o, cpu);
      BooksStayRight(old(Ledger()), cpus, trace, o, cpu);
      trace := trace + [o];
    }

    /** Reserve a record, copy the scratch entry through it, save it. */
    method StashNetworkEnter(key: Key, payload: NetworkState, env: EnterEnv, cpu: nat) returns (fate: EnterFate)
      requires key.NetworkKey? && ringOpen == {}
      modifies this`networkEnterState, this`bpfStats, this`ringOpen, this`ringReserved, this`ringDiscarded
      ensures fate == if !env.ring then EnterNoRing else if !env.scratch then NoScratch
                      else if key in old(networkEnterState) then Collided else if env.store then Saved else StoreFailed
      ensures networkEnterState == if fate.Saved? then old(networkEnterState)[key := payload] else old(networkEnterState)
      ensures Ledger() == BooksAfter(old(Ledger()), Entered(key, NetworkPayload(payload), fate), cpu)
    {
      hide Bumped;
      var rec := Reserve(env.ring, cpu);
      fate := EnterNoRing;
      if rec.Some? {
        if !env.scratch {
          RingDiscard(rec.value);
          fate := NoScratch;
        } else {
          fate := SaveNetworkEnterState(key, payload, rec.value, env.store, cpu);
        }
      }
    }

    /** The enter handlers of the network module; the data-plane ones and close test the descriptor. */
    method OnNetworkEnter(t: Task, kind: u32, a: Args, u: EnterReads, env: EnterEnv, cpu: nat)
      requires Valid() && cpu < cpus
      modifies this
      ensures Valid()
      ensures State() == Next(gates, old(State()), Enter(NetworkKey(t.pidTgid, kind), NetworkPayload(CaptureNetwork(t, kind, a, u)), env))
    {
      hide CaptureNetwork, BooksFit, BooksAfter, Pending, GateOpen;
      var key := NetworkKey(t.pidTgid, kind);
      if !GateOpen(gates, key) {
        return;
      }
      var payload := CaptureNetwork(t, kind, a, u);
      if key.kind in FD_GATED {
        var known := IsSocketFd(Tgid(t.pidTgid), payload.ev.fd);
        if !known {
          return;
        }
      }
      BooksAreIdle(Ledger(), cpus, trace);
      var fate := StashNetworkEnter(key, payload, env, cpu);
      NetworkSaved(old(fileEnterState), old(syscallEnterState), old(networkEnterState), key, payload);
      ghost var o := Entered(key, NetworkPayload(payload), fate);
      BooksStayRight(old(Ledger()), cpus, trace, o, cpu);
      trace := trace + [o];
    }

    /** on_sys_exit_openat, on_sys_exit_unlinkat, on_sys_exit_renameat2 */
    method OnFileExit(pidTgid: u64, kind: u32, ret: s64, env: ExitEnv, cpu: nat)
      requires Valid() && cpu < cpus
      modifies this
      ensures Valid()
      ensures State() == Next(gates, old(State()), Exit(FileKey(pidTgid, kind), ret, env))
    {
      hide BooksFit, FinishFile, FinishSyscall, FinishNetwork, FdsAfterExit, BooksAfter, Pending;
      var key := FileKey(pidTgid, kind);
      if !GateOpen(gates, key) {
        return;
      }
      BooksAreIdle(Ledger(), cpus, trace);
      ghost var fate := EmitFileExitEvent(key, ret, env, cpu);
      FileRemoved(old(fileEnterState), old(syscallEnterState), old(networkEnterState), key);
      ghost var o := Exited(key, ret, env, fate);
      assert Ledger() == BooksAfter(old(Ledger()), o, cpu);
      BooksStayRight(old(Ledger()), cpus, trace, o, cpu);
      trace := trace + [o];
    }

    /** on_raw_sys_exit */
    method OnSyscallExit(pidTgid: u64, nr: s32, ret: s64, env: ExitEnv, cpu: nat)
      requires Valid() && cpu < cpus
      modifies this
      ensures Valid()
      ensures State() == Next(gates, old(State()), Exit(SyscallKey(pidTgid, nr), ret, env))
    {
      hide BooksFit, FinishFile, FinishSyscall, FinishNetwork, FdsAfterExit, BooksAfter, Pending;
      var key := SyscallKey(pidTgid, nr);
      if !GateOpen(gates, key) {
        return;
      }
      BooksAreIdle(Ledger(), cpus, trace);
      ghost var fate := EmitSyscallExitEvent(key, ret, env, cpu);
      SyscallRemoved(old(fileEnterState), old(syscallEnterState), old(networkEnterState), key);
      ghost var o := Exited(key, ret, env, fate);
      assert Ledger() == BooksAfter(old(Ledger()), o, cpu);
      BooksStayRight(old(Ledger()), cpus, trace, o, cpu);
      trace := trace + [o];
    }

    /** The exit handlers of the network module. */
    method OnNetworkExit(pidTgid: u64, kind: u32, ret: s64, env: ExitEnv, cpu: nat)
      requires Valid() && cpu < cpus
      modifies this
      ensures Valid()
      ensures State() == Next(gates, old(State()), Exit(NetworkKey(pidTgid, kind), ret, env))
    {
      hide BooksFit, FinishFile, FinishSyscall, FinishNetwork, FdsAfterExit, BooksAfter, Pending;
      var key := NetworkKey(pidTgid, kind);
      if !GateOpen(gates, key) {
        return;
      }
      BooksAreIdle(Ledger(), cpus, trace);
      ghost var fate := EmitNetworkExitEvent(key, ret, env, cpu);
      NetworkRemoved(old(fileEnterState), old(syscallEnterState), old(networkEnterState), key);
      ghost var o := Exited(key, ret, env, fate);
      assert Ledger() == BooksAfter(old(Ledger()), o, cpu);
      BooksStayRight(old(Ledger()), cpus, trace, o, cpu);
      trace := trace + [o];
    }

    /** on_sched_exec, on_sched_fork, on_sched_exit and the exits of clone, clone3 and vfork: reserve, fill, submit. */
    method OnProcessEvent(t: Task, kind: u32, u: ProcessReads, room: bool, cpu: nat)
      requires Valid() && cpu < cpus
      modifies this
      ensures Valid()
      ensures State() == Next(gates, old(State()), ProcessHit(CaptureProcess(t, kind, u), room))
    {
      hide BooksFit, BooksAfter, CaptureProcess, Pending;
      if !((gates.suppressTgid == 0 || Tgid(t.pidTgid) != gates.suppressTgid) && kind in gates.processOn) {
        ProcessCaptureNames(t, kind, u);
        return;
      }
      ProcessCaptureNames(t, kind, u);
      BooksAreIdle(Ledger(), cpus, trace);
      var ev := FilledProcessEvent(t, kind, u);
      EmitProcessEvent(ev, room, cpu);
      ghost var o := ProcessSeen(ev, room);
      BooksStayRight(old(Ledger()), cpus, trace, o, cpu);
      trace := trace + [o];
    }

    method EmitProcessEvent(ev: ProcessEvent, room: bool, cpu: nat)
      requires ringOpen == {}
      modifies this`bpfStats, this`ringOpen, this`ringReserved, this`ringStream
      ensures Ledger() == BooksAfter(old(Ledger()), ProcessSeen(ev, room), cpu)
    {
      hide Bumped;
      var rec := Reserve(room, cpu);
      if rec.Some? {
        RingSubmit(rec.value, ProcessRecord(ev));
      }
    }

    /** The fields a process handler sets in its record. */
    method FilledProcessEvent(t: Task, kind: u32, u: ProcessReads) returns (ev: ProcessEvent)
      ensures ev == CaptureProcess(t, kind, u)
    {
      ev := ProcessEvent(HeaderOf(t, EVENT_TYPE_PROCESS, SIZE_PROCESS), kind, 0, 0, "");
      if kind == PROCESS_EXEC {
        ev := ev.(execPath := u.execPath);
      } else if kind == PROCESS_FORK {
        ev := ev.(childPid := u.childPid);
      } else if kind == PROCESS_EXIT {
        ev := ev.(exitCode := u.exitCode);
      } else if kind in CLONES && u.ret > 0 {
        ev := ev.(childPid := ToU32(u.ret));
      }
    }

    // ---- what userspace reads ---------------------------------------------

    /** `ReadPerCpuCounter`: the number of handler runs counted under `stat`, modulo 2^64. */
    method ReadPerCpuCounter(stat: nat) returns (total: Option<u64>)
      requires Valid()
      ensures total == if stat < STAT_MAX && cpus > 0 then Some(ToU64(StatCount(trace, stat))) else None
    {
      if cpus == 0 || stat >= STAT_MAX {
        return None;
      }
      assert StatFits(Ledger().stats, cpus, trace, stat);
      var sum := AddUp(bpfStats[stat]);
      total := Some(sum);
    }

    /**
     * `ReadKernelBpfStats`: the ten keys are read in order until a lookup fails; the fields before
     * it are overwritten, the others keep what the caller's struct held.
     */
    method ReadKernelBpfStats(mapFound: bool, readable: set<nat>, prior: KernelBpfStats)
      returns (ok: bool, out: KernelBpfStats)
      requires Valid()
      ensures out == if mapFound && cpus > 0 then Overwritten(prior, Report(trace), FirstUnread(readable, 0)) else prior
      ensures ok <==> mapFound && cpus > 0 && FirstUnread(readable, 0) == STAT_MAX
    {
      hide BooksFit, StatCount, Report, ToU64, Overwritten;
      ReportReadsKeys(trace);
      OverwrittenNone(prior, Report(trace));
      out := prior;
      if !mapFound || cpus == 0 {
        return false, prior;
      }
      var key := 0;
      while key < STAT_MAX
        invariant 0 <= key <= STAT_MAX && FirstUnread(readable, 0) == FirstUnread(readable, key)
        invariant out == Overwritten(prior, Report(trace), key)
      {
        if key !in readable {
          return false, out;
        }
        var total := ReadPerCpuCounter(key);
        OverwrittenOne(prior, trace, key);
        out := WithStat(out, key, total.value);
        key := key + 1;
      }
      ok := true;
    }
  }

  lemma BooksAreIdle(b: Books, cpus: nat, trace: seq<Obs>)
    requires BooksFit(b, cpus, trace)
    ensures b.open == {}
  {}

  lemma BlankBooks(cpus: nat)
    ensures BooksFit(Books(ZeroStats(cpus), {}, 0, 0, []), cpus, [])
  {
    ZeroSlots(cpus);
  }

  function ZeroStats(cpus: nat): map<nat, seq<u64>> {
    var zero := seq(cpus, _ => 0);
    map[0 := zero, 1 := zero, 2 := zero, 3 := zero, 4 := zero,
        5 := zero, 6 := zero, 7 := zero, 8 := zero, 9 := zero]
  }
}
