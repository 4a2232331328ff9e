/**
 * The kernel side as a state machine: each tracepoint handler is one atomic step that reserves,
 * stashes, pairs, drops or submits (bpf/event_logger_common.bpf.h and the domain handlers).
 * What the environment decides (ring space, map updates, LRU eviction, user memory) is part of
 * the step. `trace` is a history variable.
 */
module KernelModel {
  import opened Primitives
  import opened EventSchema
  import NetworkFlow

  datatype Family = FileFamily | SyscallFamily | NetworkFamily

  /** The three correlation maps' keys; `task` is pid_tgid. */
  datatype Key =
    | FileKey(task: u64, kind: u32)
    | SyscallKey(task: u64, nr: s32)
    | NetworkKey(task: u64, kind: u32)

  function FamilyOf(key: Key): Family {
    match key case FileKey(_, _) => FileFamily case SyscallKey(_, _) => SyscallFamily case NetworkKey(_, _) => NetworkFamily
  }

  function Tgid(task: u64): u32 { task / TWO_32 }

  function Pid(task: u64): u32 { task % TWO_32 }

  /** `struct network_state_value`: the event so far and the user pointers the exit will follow. */
  datatype NetworkState = NetworkState(ev: NetworkEvent, sockaddrPtr: u64, sockaddrLenPtr: u64, peerFdPtr: u64,
                                       optvalPtr: u64, optlenPtr: u64, mmsgPtr: u64, mmsgCount: u64)

  datatype Payload =
    | FilePayload(fileEv: FileEvent)
    | SyscallPayload(sysEv: SyscallEvent)
    | NetworkPayload(state: NetworkState)

  datatype Record =
    | ProcessRecord(procEv: ProcessEvent)
    | FileRecord(fileRec: FileEvent)
    | SyscallRecord(sysRec: SyscallEvent)
    | NetworkRecord(netRec: NetworkEvent)

  /** What user memory and the fd map answer while an exit handler runs. */
  datatype ExitReads = ExitReads(
    fds: Option<(s32, s32)>,   // the two descriptors of socketpair, if readable
    endpoint: Endpoint,        // what parse_sockaddr_user makes of the address buffer
    mmsgTotal: u64,            // what sum_mmsghdr_transfers adds up
    optLen: Option<u32>,       // the returned option length, if readable
    optval: seq<byte>,         // the option bytes after copy_optval_prefix
    store0: bool, store1: bool // whether the first and second add_socket_fd succeed
  )

  datatype EnterEnv = EnterEnv(ring: bool, scratch: bool, store: bool)

  datatype ExitEnv = ExitEnv(ring: bool, nowNs: u64, user: ExitReads)

  /** Userspace configuration, fixed while the programs run. */
  datatype Gates = Gates(suppressTgid: u32, fileOn: set<u32>, syscallOn: bool, networkOn: set<u32>,
                         processOn: set<u32>)

  // ---- history ------------------------------------------------------------

  datatype EnterFate = EnterNoRing | NoScratch | Collided | StoreFailed | Saved

  datatype ExitFate = Missed | ExitNoRing | Submitted(rec: Record)

  /** One handler run that got past its gates, or one LRU eviction. */
  datatype Obs =
    | Entered(key: Key, payload: Payload, enterFate: EnterFate)
    | Exited(key: Key, ret: s64, env: ExitEnv, exitFate: ExitFate)
    | LruEvicted(key: Key)
    | ProcessSeen(ev: ProcessEvent, submitted: bool)

  type SocketFd = (u32, u32)

  datatype Kernel = Kernel(pending: map<Key, Payload>, socketFds: set<SocketFd>, trace: seq<Obs>)

  const BOOT: Kernel := Kernel(map[], {}, [])

  // ---- exit-time completion of a record -----------------------------------

  function FinishFile(ev: FileEvent, ret: s64, env: ExitEnv): FileEvent {
    ev.(hdr := ev.hdr.(tsNs := env.nowNs), ret := ToS32(ret))
  }

  function FinishSyscall(ev: SyscallEvent, ret: s64, env: ExitEnv): SyscallEvent {
    ev.(hdr := ev.hdr.(tsNs := env.nowNs), isEnter := 0, ret := ret)
  }

  const ACCEPTS: set<u32> := {NETWORK_ACCEPT, NETWORK_ACCEPT4}
  const REMOTE_KINDS: set<u32> := {NETWORK_ACCEPT, NETWORK_ACCEPT4, NETWORK_RECVFROM, NETWORK_GETPEERNAME}
  const RET_IS_BYTES: set<u32> := {NETWORK_SENDTO, NETWORK_RECVFROM, NETWORK_SENDMSG, NETWORK_RECVMSG,
                                   NETWORK_READ, NETWORK_WRITE, NETWORK_READV, NETWORK_WRITEV}
  const MMSG_KINDS: set<u32> := {NETWORK_SENDMMSG, NETWORK_RECVMMSG}

  /** socketpair succeeded and its descriptors could be read back. */
  predicate PairRead(kind: u32, s: NetworkState, ret: s64, r: ExitReads) {
    kind == NETWORK_SOCKETPAIR && ret >= 0 && s.peerFdPtr != 0 && r.fds.Some?
  }

  /** The descriptors of the record: the new socket, the pair, or the accepted peer. */
  function FinishFds(kind: u32, s: NetworkState, ret: s64, r: ExitReads): NetworkEvent {
    if kind == NETWORK_SOCKET && ret >= 0 then s.ev.(fd := ToS32(ret))
    else if PairRead(kind, s, ret, r) then s.ev.(fd := r.fds.value.0, peerFd := r.fds.value.1)
    else if kind in ACCEPTS && ret >= 0 then s.ev.(peerFd := ToS32(ret))
    else s.ev
  }

  function BytesAtExit(kind: u32, s: NetworkState, ret: s64, r: ExitReads): u64 {
    if kind in RET_IS_BYTES && ret >= 0 then ToU64(ret)
    else if kind in MMSG_KINDS && ret >= 0 && s.mmsgPtr != 0 && s.mmsgCount != 0 then r.mmsgTotal
    else s.ev.bytesTransferred
  }

  function OptLenAtExit(kind: u32, s: NetworkState, ret: s64, r: ExitReads): s32 {
    if kind == NETWORK_GETSOCKOPT && ret >= 0 && s.optlenPtr != 0 && r.optLen.Some?
    then ToS32(r.optLen.value) else s.ev.optLen
  }

  /** Whether the exit parses a socket address into the record. */
  predicate AddressAtExit(s: NetworkState, ret: s64) { ret >= 0 && s.sockaddrPtr != 0 }

  function RemoteAtExit(kind: u32, s: NetworkState, ret: s64, r: ExitReads): Endpoint {
    if kind in REMOTE_KINDS && AddressAtExit(s, ret) then r.endpoint else s.ev.remote
  }

  function LocalAtExit(kind: u32, s: NetworkState, ret: s64, r: ExitReads): Endpoint {
    if kind == NETWORK_GETSOCKNAME && AddressAtExit(s, ret) then r.endpoint else s.ev.local
  }

  /** The id is computed after the remote address is parsed and before a local one is. */
  function FlowIdAtExit(task: u64, kind: u32, s: NetworkState, out: NetworkEvent, ret: s64, r: ExitReads): u64 {
    if s.ev.flowId != 0 then s.ev.flowId
    else NetworkFlow.NetworkFlowId(task, out.(remote := RemoteAtExit(kind, s, ret, r), local := s.ev.local))
  }

  /** The fields besides the descriptors that a kind learns at exit. */
  function FinishDetails(task: u64, kind: u32, s: NetworkState, out: NetworkEvent, ret: s64, r: ExitReads): NetworkEvent {
    out.(remote := RemoteAtExit(kind, s, ret, r),
         local := LocalAtExit(kind, s, ret, r),
         bytesTransferred := BytesAtExit(kind, s, ret, r),
         flowId := FlowIdAtExit(task, kind, s, out, ret, r),
         optLen := OptLenAtExit(kind, s, ret, r),
         optvalPrefix := if kind == NETWORK_GETSOCKOPT && ret >= 0 && s.optvalPtr != 0 && OptLenAtExit(kind, s, ret, r) > 0
                         then r.optval else s.ev.optvalPrefix)
  }

  function FinishNetwork(task: u64, kind: u32, s: NetworkState, ret: s64, env: ExitEnv): NetworkEvent {
    var fds := FinishFds(kind, s, ret, env.user);
    FinishDetails(task, kind, s, fds.(hdr := fds.hdr.(tsNs := env.nowNs), ret := ToS32(ret)), ret, env.user)
  }

  /** The record an exit submits for the payload stashed under `key`. */
  function Finish(key: Key, p: Payload, ret: s64, env: ExitEnv): Record {
    match p
    case FilePayload(ev) => FileRecord(FinishFile(ev, ret, env))
    case SyscallPayload(ev) => SyscallRecord(FinishSyscall(ev, ret, env))
    case NetworkPayload(s) => NetworkRecord(FinishNetwork(key.task, if key.NetworkKey? then key.kind else 0, s, ret, env))
  }

  // ---- socket descriptors -------------------------------------------------

  function AddFd(fds: set<SocketFd>, tgid: u32, fd: s32, stored: bool): set<SocketFd> {
    if stored then fds + {(tgid, ToU32(fd))} else fds
  }

  /** `socket_fd_state` after the exit of a network call by process `tgid`. */
  function FdsAfterExit(fds: set<SocketFd>, tgid: u32, kind: u32, s: NetworkState, ret: s64, r: ExitReads)
    : set<SocketFd>
  {
    var out := FinishFds(kind, s, ret, r);
    if kind == NETWORK_SOCKET && ret >= 0 then AddFd(fds, tgid, out.fd, r.store0)
    else if PairRead(kind, s, ret, r) then AddFd(AddFd(fds, tgid, out.fd, r.store0), tgid, out.peerFd, r.store1)
    else if kind in ACCEPTS && ret >= 0 then AddFd(fds, tgid, out.peerFd, r.store0)
    else if kind == NETWORK_CLOSE && ret >= 0 then fds - {(tgid, ToU32(out.fd))}
    else fds
  }

  /** Calls recorded only when the descriptor is a known socket. */
  const FD_GATED: set<u32> := {NETWORK_READ, NETWORK_WRITE, NETWORK_READV, NETWORK_WRITEV,
                               NETWORK_SENDMMSG, NETWORK_RECVMMSG, NETWORK_CLOSE}

  // ---- steps --------------------------------------------------------------

  datatype Step =
    | Enter(key: Key, payload: Payload, enterEnv: EnterEnv)
    | Exit(key: Key, ret: s64, exitEnv: ExitEnv)
    | LruEvict(key: Key)
    | ProcessHit(ev: ProcessEvent, ring: bool)

  /** A handler stashes a payload of its own family, kind and task. */
  predicate Captures(key: Key, p: Payload) {
    match (key, p)
    case (FileKey(task, kind), FilePayload(ev)) => ev.kind == kind && ev.hdr.tgid == Tgid(task) && ev.hdr.pid == Pid(task)
    case (SyscallKey(task, nr), SyscallPayload(ev)) =>
      ev.syscallNr == nr && ev.hdr.tgid == Tgid(task) && ev.hdr.pid == Pid(task)
    case (NetworkKey(task, kind), NetworkPayload(s)) =>
      s.ev.kind == kind && s.ev.hdr.tgid == Tgid(task) && s.ev.hdr.pid == Pid(task)
    case _ => false
  }

  predicate LegalStep(s: Step) { s.Enter? ==> Captures(s.key, s.payload) }

  /** `is_event_allowed` and the domain toggle. */
  predicate GateOpen(g: Gates, key: Key) {
    (g.suppressTgid == 0 || Tgid(key.task) != g.suppressTgid)
    && match key
       case FileKey(_, kind) => kind in g.fileOn
       case SyscallKey(_, _) => g.syscallOn
       case NetworkKey(_, kind) => kind in g.networkOn
  }

  /** The `is_socket_fd` test of the data-plane enter handlers. */
  predicate FdGateOpen(k: Kernel, key: Key, p: Payload) {
    key.NetworkKey? && key.kind in FD_GATED && p.NetworkPayload? ==>
      (Tgid(key.task), ToU32(p.state.ev.fd)) in k.socketFds
  }

  function FateOfEnter(k: Kernel, key: Key, env: EnterEnv): EnterFate {
    if !env.ring then EnterNoRing
    else if key.NetworkKey? && !env.scratch then NoScratch
    else if key in k.pending then Collided
    else if !env.store then StoreFailed
    else Saved
  }

  function OnEnter(k: Kernel, key: Key, p: Payload, env: EnterEnv): Kernel {
    var fate := FateOfEnter(k, key, env);
    k.(pending := if fate == Saved then k.pending[key := p] else k.pending,
       trace := k.trace + [Entered(key, p, fate)])
  }

  function FateOfExit(k: Kernel, key: Key, ret: s64, env: ExitEnv): ExitFate {
    if key !in k.pending then Missed
    else if !env.ring then ExitNoRing
    else Submitted(Finish(key, k.pending[key], ret, env))
  }

  function OnExit(k: Kernel, key: Key, ret: s64, env: ExitEnv): Kernel {
    var fate := FateOfExit(k, key, ret, env);
    Kernel(k.pending - {key},
           if fate.Submitted? && key.NetworkKey? && k.pending[key].NetworkPayload?
           then FdsAfterExit(k.socketFds, Tgid(key.task), key.kind, k.pending[key].state, ret, env.user)
           else k.socketFds,
           k.trace + [Exited(key, ret, env, fate)])
  }

  function Next(g: Gates, k: Kernel, s: Step): Kernel {
    match s
    case Enter(key, p, env) => if GateOpen(g, key) && FdGateOpen(k, key, p) then OnEnter(k, key, p, env) else k
    case Exit(key, ret, env) => if GateOpen(g, key) then OnExit(k, key, ret, env) else k
    case LruEvict(key) =>
      if key in k.pending then k.(pending := k.pending - {key}, trace := k.trace + [LruEvicted(key)]) else k
    case ProcessHit(ev, ring) =>
      if (g.suppressTgid == 0 || ev.hdr.tgid != g.suppressTgid) && ev.kind in g.processOn
      then k.(trace := k.trace + [ProcessSeen(ev, ring)]) else k
  }

  function Run(g: Gates, steps: seq<Step>): Kernel
    decreases |steps|
  {
    if steps == [] then BOOT else Next(g, Run(g, steps[..|steps| - 1]), steps[|steps| - 1])
  }

  predicate LegalSteps(steps: seq<Step>) { forall i :: 0 <= i < |steps| ==> LegalStep(steps[i]) }

  // ---- what leaves the kernel ---------------------------------------------

  /** The record an observation put into the ring buffer, if any. */
  function Emitted(o: Obs): Option<Record> {
    match o
    case Exited(_, _, _, Submitted(rec)) => Some(rec)
    case ProcessSeen(ev, true) => Some(ProcessRecord(ev))
    case _ => None
  }

  /** The submitted records in order. */
  function Stream(trace: seq<Obs>): seq<Record>
    decreases |trace|
  {
    if trace == [] then [] else
      var before := Stream(trace[..|trace| - 1]);
      match Emitted(trace[|trace| - 1]) case Some(rec) => before + [rec] case None => before
  }
}
