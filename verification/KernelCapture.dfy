/** What the enter handlers stash: register arguments and user memory, kind by kind. */
module KernelCapture {
  import opened Primitives
  import opened EventSchema
  import opened KernelModel

  /** The current task as the BPF helpers report it. */
  datatype Task = Task(pidTgid: u64, nowNs: u64, ppid: u32, uid: u32, gid: u32, comm: string)

  type Args = a: seq<u64> | |a| == 6 witness [0, 0, 0, 0, 0, 0]

  /** What user memory holds while an enter handler runs. */
  datatype EnterReads = EnterReads(
    pathA: string, pathB: string,  // copy_user_path of the first and second path argument
    endpoint: Endpoint,            // parse_sockaddr_user of the address argument
    msgRead: bool,                 // the msghdr of sendmsg or recvmsg could be read
    msgNamed: bool,                // ... and it carries an address
    vectorBytes: u64,              // sum_iovec_lengths or sum_mmsghdr_lengths
    optval: seq<byte>,             // copy_optval_prefix
    optLen: u32                    // the option length getsockopt is called with, 0 if unreadable
  )

  function HeaderOf(t: Task, etype: u32, size: u32): Header {
    Header(t.nowNs, etype, size, Pid(t.pidTgid), Tgid(t.pidTgid), t.ppid, t.uid, t.gid, t.comm)
  }

  function CaptureFile(t: Task, kind: u32, a: Args, u: EnterReads): FileEvent {
    var blank := FileEvent(HeaderOf(t, EVENT_TYPE_FILE, SIZE_FILE), kind, 0, 0, 0, 0, "", "");
    if kind == FILE_OPENAT then
      blank.(dfd := ToS32(a[0]), flags := ToS32(a[2]), mode := ToS32(a[3]), pathA := u.pathA)
    else if kind == FILE_UNLINKAT then
      blank.(dfd := ToS32(a[0]), flags := ToS32(a[2]), pathA := u.pathA)
    else
      blank.(dfd := ToS32(a[0]), mode := ToS32(a[2]), flags := ToS32(a[4]), pathA := u.pathA, pathB := u.pathB)
  }

  /** What a process tracepoint finds in its context and in the current task. */
  datatype ProcessReads = ProcessReads(execPath: string, childPid: u32, exitCode: u32, ret: s64)

  const CLONES: set<u32> := {PROCESS_CLONE, PROCESS_CLONE3, PROCESS_VFORK}

  function CaptureProcess(t: Task, kind: u32, u: ProcessReads): ProcessEvent {
    var blank := ProcessEvent(HeaderOf(t, EVENT_TYPE_PROCESS, SIZE_PROCESS), kind, 0, 0, "");
    if kind == PROCESS_EXEC then blank.(execPath := u.execPath)
    else if kind == PROCESS_FORK then blank.(childPid := u.childPid)
    else if kind == PROCESS_EXIT then blank.(exitCode := u.exitCode)
    else if kind in CLONES && u.ret > 0 then blank.(childPid := ToU32(u.ret))
    else blank
  }

  function CaptureSyscall(t: Task, nr: s32, a: Args): SyscallEvent {
    SyscallEvent(HeaderOf(t, EVENT_TYPE_SYSCALL, SIZE_SYSCALL), 1, nr, ToS64(a[0]), ToS64(a[1]), ToS64(a[2]), 0)
  }

  const AF_UNIX: s32 := 1
  const SOCK_STREAM: s32 := 1
  const SOCK_DGRAM: s32 := 2
  const SOCK_RAW: s32 := 3

  function InferTransport(domain: s32, sockType: s32): u32 {
    if domain == AF_UNIX then 3
    else if sockType == SOCK_STREAM then 1
    else if sockType == SOCK_DGRAM then 2
    else if sockType == SOCK_RAW then 4
    else 0
  }

  const OUTBOUND: set<u32> := {NETWORK_CONNECT, NETWORK_SENDTO, NETWORK_SENDMSG, NETWORK_WRITE,
                               NETWORK_WRITEV, NETWORK_SENDMMSG}
  const INBOUND: set<u32> := {NETWORK_ACCEPT, NETWORK_ACCEPT4, NETWORK_RECVFROM, NETWORK_RECVMSG,
                              NETWORK_READ, NETWORK_READV, NETWORK_RECVMMSG}

  function InferDirection(kind: u32): u32 {
    if kind in OUTBOUND then 2 else if kind in INBOUND then 1 else 0
  }

  function BlankNetwork(t: Task, kind: u32): NetworkState {
    NetworkState(NetworkEvent(HeaderOf(t, EVENT_TYPE_NETWORK, SIZE_NETWORK), kind, 0, 0, 0, 0, 0, 0, 0, 0, 0, 0, 0, 0,
                              seq(16, _ => 0), 0, 0, InferDirection(kind), 0, 0, 0, 0, 0, NO_ENDPOINT, NO_ENDPOINT),
                 0, 0, 0, 0, 0, 0, 0)
  }

  /** The scratch entry each network enter handler saves. */
  function CaptureNetwork(t: Task, kind: u32, a: Args, u: EnterReads): NetworkState {
    var s := BlankNetwork(t, kind);
    if kind in {NETWORK_SOCKET, NETWORK_SOCKETPAIR} then
      s.(ev := s.ev.(domain := ToS32(a[0]), sockType := ToS32(a[1]), protocol := ToS32(a[2]),
                     transport := InferTransport(ToS32(a[0]), ToS32(a[1]))),
         peerFdPtr := if kind == NETWORK_SOCKETPAIR then a[3] else 0)
    else
      var f := s.(ev := s.ev.(fd := ToS32(a[0])));
      if kind == NETWORK_CONNECT then f.(ev := f.ev.(remote := u.endpoint))
      else if kind == NETWORK_BIND then f.(ev := f.ev.(local := u.endpoint))
      else if kind == NETWORK_LISTEN then f.(ev := f.ev.(backlog := ToS32(a[1])))
      else if kind == NETWORK_SHUTDOWN then f.(ev := f.ev.(how := ToS32(a[1])))
      else if kind == NETWORK_ACCEPT4 then
        f.(ev := f.ev.(flags := ToS32(a[3])), sockaddrPtr := a[1], sockaddrLenPtr := a[2])
      else if kind in {NETWORK_ACCEPT, NETWORK_GETSOCKNAME, NETWORK_GETPEERNAME} then
        f.(sockaddrPtr := a[1], sockaddrLenPtr := a[2])
      else if kind == NETWORK_SETSOCKOPT then
        f.(ev := f.ev.(optLevel := ToS32(a[1]), optName := ToS32(a[2]), optLen := ToS32(a[4]), optvalPrefix := u.optval),
           optvalPtr := a[3])
      else if kind == NETWORK_GETSOCKOPT then
        f.(ev := f.ev.(optLevel := ToS32(a[1]), optName := ToS32(a[2]), optLen := if a[4] != 0 then ToS32(u.optLen) else 0),
           optvalPtr := a[3], optlenPtr := a[4])
      else if kind == NETWORK_SENDTO then
        f.(ev := f.ev.(flags := ToS32(a[3]), bytesRequested := a[2], remote := u.endpoint))
      else if kind == NETWORK_RECVFROM then
        f.(ev := f.ev.(flags := ToS32(a[3]), bytesRequested := a[2]), sockaddrPtr := a[4], sockaddrLenPtr := a[5])
      else if kind in {NETWORK_SENDMSG, NETWORK_RECVMSG} then
        var g := f.(ev := f.ev.(flags := ToS32(a[2])));
        if a[1] != 0 && u.msgRead
        then g.(ev := g.ev.(bytesRequested := u.vectorBytes, remote := if u.msgNamed then u.endpoint else g.ev.remote))
        else g
      else if kind in {NETWORK_READ, NETWORK_WRITE} then f.(ev := f.ev.(bytesRequested := a[2]))
      else if kind in {NETWORK_READV, NETWORK_WRITEV} then f.(ev := f.ev.(bytesRequested := u.vectorBytes))
      else if kind in MMSG_KINDS then
        f.(ev := f.ev.(flags := ToS32(a[3]), bytesRequested := u.vectorBytes), mmsgPtr := a[1], mmsgCount := a[2])
      else f
  }

  /** Handlers stash records of their own family, kind and task, as the correlation proofs assume. */
  lemma HandlersCapture(t: Task, kind: u32, nr: s32, a: Args, u: EnterReads)
    ensures Captures(FileKey(t.pidTgid, kind), FilePayload(CaptureFile(t, kind, a, u)))
    ensures Captures(SyscallKey(t.pidTgid, nr), SyscallPayload(CaptureSyscall(t, nr, a)))
    ensures Captures(NetworkKey(t.pidTgid, kind), NetworkPayload(CaptureNetwork(t, kind, a, u)))
  {}

  lemma ProcessCaptureNames(t: Task, kind: u32, u: ProcessReads)
    ensures CaptureProcess(t, kind, u).kind == kind && CaptureProcess(t, kind, u).hdr.tgid == Tgid(t.pidTgid)
  {}

  /** A gated handler tests the descriptor it records. */
  lemma GatedFdIsArgument(t: Task, kind: u32, a: Args, u: EnterReads)
    requires kind in FD_GATED
    ensures CaptureNetwork(t, kind, a, u).ev.fd == ToS32(a[0])
  {}
}
