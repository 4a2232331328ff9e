/**
 * What a submitted record says, call by call: which register argument, user read or result each
 * field shows (bpf/event_logger_network.bpf.c, event_logger_file.bpf.c, event_logger_syscall.bpf.c,
 * event_logger_process.bpf.c and the exit helpers of bpf/event_logger_common.bpf.h).
 */
module KernelRecords {
  import opened Primitives
  import opened EventSchema
  import opened KernelModel
  import opened KernelCapture
  import opened KernelPairing
  import JsonRecord

  /** A cast keeps the value modulo the width and stays in range; a value in range is unchanged. */
  lemma CastsKeepLowBits(x: int)
    ensures exists k: int :: ToS32(x) == x + k * 0x1_0000_0000
    ensures exists k: int :: ToU32(x) == x + k * 0x1_0000_0000
    ensures -0x8000_0000 <= x < 0x8000_0000 ==> ToS32(x) == x
    ensures 0 <= x < 0x1_0000_0000 ==> ToU32(x) == x
  {
    var q := x / 0x1_0000_0000;
    assert ToU32(x) == x + (-q) * 0x1_0000_0000;
    assert ToS32(x) == x + (-q) * 0x1_0000_0000 || ToS32(x) == x + (-q - 1) * 0x1_0000_0000;
  }

  /** Register arguments read as signed 64-bit numbers. */
  lemma ArgumentsAreSigned(x: u64)
    ensures ToS64(x) == if x < 0x8000_0000_0000_0000 then x else x - 0x1_0000_0000_0000_0000
  {}

  /** The envelope of every record: the exit's time, the family's code and size, and who called. */
  function Envelope(t: Task, nowNs: u64, etype: u32, size: u32): Header {
    Header(nowNs, etype, size, t.pidTgid % 0x1_0000_0000, t.pidTgid / 0x1_0000_0000, t.ppid, t.uid, t.gid, t.comm)
  }

  // ---- what an exit adds to a network record ------------------------------

  /** Who moved how much: the result is the byte count of the eight single transfers. */
  lemma ExitCountsBytes(task: u64, kind: u32, s: NetworkState, ret: s64, env: ExitEnv)
    ensures var out := FinishNetwork(task, kind, s, ret, env);
            && (ret >= 0 && kind in {NETWORK_SENDTO, NETWORK_RECVFROM, NETWORK_SENDMSG, NETWORK_RECVMSG, NETWORK_READ,
                                     NETWORK_WRITE, NETWORK_READV, NETWORK_WRITEV} ==>
                  out.bytesTransferred == ret)
            && (ret >= 0 && kind in {NETWORK_SENDMMSG, NETWORK_RECVMMSG} ==>
                  out.bytesTransferred == if s.mmsgPtr != 0 && s.mmsgCount != 0 then env.user.mmsgTotal else s.ev.bytesTransferred)
            && (ret < 0 ==> out.bytesTransferred == s.ev.bytesTransferred)
  {
    hide FinishFds, FlowIdAtExit;
  }

  /** Whose address an exit parses, and into which end of the record. */
  lemma ExitParsesAddress(task: u64, kind: u32, s: NetworkState, ret: s64, env: ExitEnv)
    ensures var out := FinishNetwork(task, kind, s, ret, env);
            && out.remote == (if ret >= 0 && s.sockaddrPtr != 0
                                 && kind in {NETWORK_ACCEPT, NETWORK_ACCEPT4, NETWORK_RECVFROM, NETWORK_GETPEERNAME}
                              then env.user.endpoint else s.ev.remote)
            && out.local == if ret >= 0 && s.sockaddrPtr != 0 && kind == NETWORK_GETSOCKNAME
                            then env.user.endpoint else s.ev.local
  {
    hide FinishFds, FlowIdAtExit;
  }

  /** What a successful getsockopt learns: the length first, and the bytes if that is positive. */
  lemma ExitReadsOption(task: u64, kind: u32, s: NetworkState, ret: s64, env: ExitEnv)
    ensures var out := FinishNetwork(task, kind, s, ret, env);
            && out.optLen == (if kind == NETWORK_GETSOCKOPT && ret >= 0 && s.optlenPtr != 0 && env.user.optLen.Some?
                              then ToS32(env.user.optLen.value) else s.ev.optLen)
            && out.optvalPrefix == if kind == NETWORK_GETSOCKOPT && ret >= 0 && s.optvalPtr != 0 && out.optLen > 0
                                   then env.user.optval else s.ev.optvalPrefix
  {
    hide FinishFds, FlowIdAtExit;
  }

  /** Which descriptors an exit learns: the new socket, the two ends of a pair, the accepted peer. */
  lemma ExitLearnsDescriptors(task: u64, kind: u32, s: NetworkState, ret: s64, env: ExitEnv)
    ensures var out, pair := FinishNetwork(task, kind, s, ret, env), env.user.fds;
            && (kind == NETWORK_SOCKET ==> out.fd == (if ret >= 0 then ToS32(ret) else s.ev.fd) && out.peerFd == s.ev.peerFd)
            && (kind == NETWORK_SOCKETPAIR ==>
                  (out.fd, out.peerFd) == if ret >= 0 && s.peerFdPtr != 0 && pair.Some? then pair.value else (s.ev.fd, s.ev.peerFd))
            && (kind in {NETWORK_ACCEPT, NETWORK_ACCEPT4} ==>
                  out.fd == s.ev.fd && out.peerFd == if ret >= 0 then ToS32(ret) else s.ev.peerFd)
            && (kind !in {NETWORK_SOCKET, NETWORK_SOCKETPAIR, NETWORK_ACCEPT, NETWORK_ACCEPT4} ==>
                  out.fd == s.ev.fd && out.peerFd == s.ev.peerFd)
  {
    hide FlowIdAtExit, BytesAtExit, OptLenAtExit, RemoteAtExit, LocalAtExit;
  }

  /** Which descriptors become known sockets, and which stop being one. */
  lemma ExitStoresDescriptors(fds: set<SocketFd>, tgid: u32, kind: u32, s: NetworkState, ret: s64, u: ExitReads)
    ensures var after := FdsAfterExit(fds, tgid, kind, s, ret, u);
            && (ret >= 0 && kind in {NETWORK_SOCKET, NETWORK_ACCEPT, NETWORK_ACCEPT4} ==>
                  after == if u.store0 then fds + {(tgid, ToU32(ToS32(ret)))} else fds)
            && (ret >= 0 && kind == NETWORK_SOCKETPAIR && s.peerFdPtr != 0 && u.fds.Some? ==>
                  after == fds + (if u.store0 then {(tgid, ToU32(u.fds.value.0))} else {})
                               + (if u.store1 then {(tgid, ToU32(u.fds.value.1))} else {}))
            && (ret >= 0 && kind == NETWORK_CLOSE ==> after == fds - {(tgid, ToU32(s.ev.fd))})
            && (ret < 0 || kind !in {NETWORK_SOCKET, NETWORK_SOCKETPAIR, NETWORK_ACCEPT, NETWORK_ACCEPT4, NETWORK_CLOSE} ==>
                  after == fds)
  {
    hide ToU32, ToS32;
  }

  // ---- network calls ------------------------------------------------------

  /** The record a call submits when its own enter is the one stashed. */
  function NetworkCall(t: Task, kind: u32, a: Args, u: EnterReads, ret: s64, env: ExitEnv): NetworkEvent {
    FinishNetwork(t.pidTgid, kind, CaptureNetwork(t, kind, a, u), ret, env)
  }

  /** A record that shows nothing yet but its envelope, kind, direction and result. */
  function Bare(t: Task, kind: u32, direction: u32, ret: s64, env: ExitEnv, flowId: u64): NetworkEvent {
    NetworkEvent(Envelope(t, env.nowNs, 4, 448), kind, 0, 0, ToS32(ret), 0, 0, 0, 0, 0, 0, 0, 0, 0,
                 [0, 0, 0, 0, 0, 0, 0, 0, 0, 0, 0, 0, 0, 0, 0, 0], flowId, 0, direction, 0, 0, 0, 0, 0,
                 Endpoint(0, 0, 0, [0, 0, 0, 0, 0, 0, 0, 0, 0, 0, 0, 0, 0, 0, 0, 0], ""),
                 Endpoint(0, 0, 0, [0, 0, 0, 0, 0, 0, 0, 0, 0, 0, 0, 0, 0, 0, 0, 0], ""))
  }

  lemma BlankBytes()
    ensures seq(16, _ => 0) == [0, 0, 0, 0, 0, 0, 0, 0, 0, 0, 0, 0, 0, 0, 0, 0]
  {}

  /** The scratch entry before a handler fills it in, finished as it is. */
  lemma BlankIsBare(t: Task, kind: u32, ret: s64, env: ExitEnv)
    ensures var ev := BlankNetwork(t, kind).ev;
            ev.(hdr := ev.hdr.(tsNs := env.nowNs), ret := ToS32(ret)) == Bare(t, kind, InferDirection(kind), ret, env, 0)
    ensures var s := BlankNetwork(t, kind);
            s.sockaddrPtr == s.sockaddrLenPtr == s.peerFdPtr == s.optvalPtr == s.optlenPtr == s.mmsgPtr == s.mmsgCount == 0
  {
    hide ToS32, InferDirection;
    BlankBytes();
  }

  /** What the transport of a new socket is printed as. */
  function TransportLabel(domain: s32, sockType: s32): string {
    if domain == 1 then "unix" else if sockType == 1 then "tcp" else if sockType == 2 then "udp"
    else if sockType == 3 then "raw" else "unknown"
  }

  lemma SocketRecord(t: Task, a: Args, u: EnterReads, ret: s64, env: ExitEnv)
    ensures var out := NetworkCall(t, NETWORK_SOCKET, a, u, ret, env);
            && out == Bare(t, NETWORK_SOCKET, 0, ret, env, out.flowId).(
                        fd := if ret >= 0 then ToS32(ret) else 0,
                        domain := ToS32(a[0]), sockType := ToS32(a[1]), protocol := ToS32(a[2]), transport := out.transport)
            && JsonRecord.NetworkTransportToString(out.transport) == TransportLabel(ToS32(a[0]), ToS32(a[1]))
            && JsonRecord.NetworkDirectionToString(out.direction) == "unknown"
  {
    hide FlowIdAtExit, ToS32, BlankNetwork;
    BlankIsBare(t, NETWORK_SOCKET, ret, env);
  }

  lemma SocketpairRecord(t: Task, a: Args, u: EnterReads, ret: s64, env: ExitEnv)
    ensures var out := NetworkCall(t, NETWORK_SOCKETPAIR, a, u, ret, env);
            && out == Bare(t, NETWORK_SOCKETPAIR, 0, ret, env, out.flowId).(
                        fd := if ret >= 0 && a[3] != 0 && env.user.fds.Some? then env.user.fds.value.0 else 0,
                        peerFd := if ret >= 0 && a[3] != 0 && env.user.fds.Some? then env.user.fds.value.1 else 0,
                        domain := ToS32(a[0]), sockType := ToS32(a[1]), protocol := ToS32(a[2]), transport := out.transport)
            && JsonRecord.NetworkDirectionToString(out.direction) == "unknown"
            && JsonRecord.NetworkTransportToString(out.transport) == TransportLabel(ToS32(a[0]), ToS32(a[1]))
  {
    hide FlowIdAtExit, ToS32, BlankNetwork;
    BlankIsBare(t, NETWORK_SOCKETPAIR, ret, env);
  }

  lemma ConnectRecord(t: Task, a: Args, u: EnterReads, ret: s64, env: ExitEnv)
    ensures var out := NetworkCall(t, NETWORK_CONNECT, a, u, ret, env);
            && out == Bare(t, NETWORK_CONNECT, 2, ret, env, out.flowId).(
                        fd := ToS32(a[0]), remote := u.endpoint)
            && JsonRecord.NetworkDirectionToString(out.direction) == "outbound"
  {
    hide FlowIdAtExit, ToS32, BlankNetwork;
    BlankIsBare(t, NETWORK_CONNECT, ret, env);
  }

  lemma BindRecord(t: Task, a: Args, u: EnterReads, ret: s64, env: ExitEnv)
    ensures var out := NetworkCall(t, NETWORK_BIND, a, u, ret, env);
            && out == Bare(t, NETWORK_BIND, 0, ret, env, out.flowId).(
                        fd := ToS32(a[0]), local := u.endpoint)
            && JsonRecord.NetworkDirectionToString(out.direction) == "unknown"
  {
    hide FlowIdAtExit, ToS32, BlankNetwork;
    BlankIsBare(t, NETWORK_BIND, ret, env);
  }

  lemma ListenRecord(t: Task, a: Args, u: EnterReads, ret: s64, env: ExitEnv)
    ensures var out := NetworkCall(t, NETWORK_LISTEN, a, u, ret, env);
            && out == Bare(t, NETWORK_LISTEN, 0, ret, env, out.flowId).(
                        fd := ToS32(a[0]), backlog := ToS32(a[1]))
            && JsonRecord.NetworkDirectionToString(out.direction) == "unknown"
  {
    hide FlowIdAtExit, ToS32, BlankNetwork;
    BlankIsBare(t, NETWORK_LISTEN, ret, env);
  }

  lemma ShutdownRecord(t: Task, a: Args, u: EnterReads, ret: s64, env: ExitEnv)
    ensures var out := NetworkCall(t, NETWORK_SHUTDOWN, a, u, ret, env);
            && out == Bare(t, NETWORK_SHUTDOWN, 0, ret, env, out.flowId).(
                        fd := ToS32(a[0]), how := ToS32(a[1]))
            && JsonRecord.NetworkDirectionToString(out.direction) == "unknown"
  {
    hide FlowIdAtExit, ToS32, BlankNetwork;
    BlankIsBare(t, NETWORK_SHUTDOWN, ret, env);
  }

  lemma CloseRecord(t: Task, a: Args, u: EnterReads, ret: s64, env: ExitEnv)
    ensures var out := NetworkCall(t, NETWORK_CLOSE, a, u, ret, env);
            && out == Bare(t, NETWORK_CLOSE, 0, ret, env, out.flowId).(
                        fd := ToS32(a[0]))
            && JsonRecord.NetworkDirectionToString(out.direction) == "unknown"
  {
    hide FlowIdAtExit, ToS32, BlankNetwork;
    BlankIsBare(t, NETWORK_CLOSE, ret, env);
  }

  lemma AcceptRecord(t: Task, a: Args, u: EnterReads, ret: s64, env: ExitEnv)
    ensures var out := NetworkCall(t, NETWORK_ACCEPT, a, u, ret, env);
            && out == Bare(t, NETWORK_ACCEPT, 1, ret, env, out.flowId).(
                        fd := ToS32(a[0]), peerFd := if ret >= 0 then ToS32(ret) else 0,
                        remote := if ret >= 0 && a[1] != 0 then env.user.endpoint else NO_ENDPOINT)
            && JsonRecord.NetworkDirectionToString(out.direction) == "inbound"
  {
    hide FlowIdAtExit, ToS32, BlankNetwork;
    BlankIsBare(t, NETWORK_ACCEPT, ret, env);
  }

  lemma Accept4Record(t: Task, a: Args, u: EnterReads, ret: s64, env: ExitEnv)
    ensures var out := NetworkCall(t, NETWORK_ACCEPT4, a, u, ret, env);
            && out == Bare(t, NETWORK_ACCEPT4, 1, ret, env, out.flowId).(
                        fd := ToS32(a[0]), peerFd := if ret >= 0 then ToS32(ret) else 0, flags := ToS32(a[3]),
                        remote := if ret >= 0 && a[1] != 0 then env.user.endpoint else NO_ENDPOINT)
            && JsonRecord.NetworkDirectionToString(out.direction) == "inbound"
  {
    hide FlowIdAtExit, ToS32, BlankNetwork;
    BlankIsBare(t, NETWORK_ACCEPT4, ret, env);
  }

  lemma GetsocknameRecord(t: Task, a: Args, u: EnterReads, ret: s64, env: ExitEnv)
    ensures var out := NetworkCall(t, NETWORK_GETSOCKNAME, a, u, ret, env);
            && out == Bare(t, NETWORK_GETSOCKNAME, 0, ret, env, out.flowId).(
                        fd := ToS32(a[0]), local := if ret >= 0 && a[1] != 0 then env.user.endpoint else NO_ENDPOINT)
            && JsonRecord.NetworkDirectionToString(out.direction) == "unknown"
  {
    hide FlowIdAtExit, ToS32, BlankNetwork;
    BlankIsBare(t, NETWORK_GETSOCKNAME, ret, env);
  }

  lemma GetpeernameRecord(t: Task, a: Args, u: EnterReads, ret: s64, env: ExitEnv)
    ensures var out := NetworkCall(t, NETWORK_GETPEERNAME, a, u, ret, env);
            && out == Bare(t, NETWORK_GETPEERNAME, 0, ret, env, out.flowId).(
                        fd := ToS32(a[0]), remote := if ret >= 0 && a[1] != 0 then env.user.endpoint else NO_ENDPOINT)
            && JsonRecord.NetworkDirectionToString(out.direction) == "unknown"
  {
    hide FlowIdAtExit, ToS32, BlankNetwork;
    BlankIsBare(t, NETWORK_GETPEERNAME, ret, env);
  }

  lemma SetsockoptRecord(t: Task, a: Args, u: EnterReads, ret: s64, env: ExitEnv)
    ensures var out := NetworkCall(t, NETWORK_SETSOCKOPT, a, u, ret, env);
            && out == Bare(t, NETWORK_SETSOCKOPT, 0, ret, env, out.flowId).(
                        fd := ToS32(a[0]), optLevel := ToS32(a[1]), optName := ToS32(a[2]), optLen := ToS32(a[4]), optvalPrefix := u.optval)
            && JsonRecord.NetworkDirectionToString(out.direction) == "unknown"
  {
    hide FlowIdAtExit, ToS32, BlankNetwork;
    BlankIsBare(t, NETWORK_SETSOCKOPT, ret, env);
  }

  lemma GetsockoptRecord(t: Task, a: Args, u: EnterReads, ret: s64, env: ExitEnv)
    ensures var out := NetworkCall(t, NETWORK_GETSOCKOPT, a, u, ret, env);
            && out == Bare(t, NETWORK_GETSOCKOPT, 0, ret, env, out.flowId).(
                        fd := ToS32(a[0]), optLevel := ToS32(a[1]), optName := ToS32(a[2]),
                        optLen := if a[4] == 0 then 0 else if ret >= 0 && env.user.optLen.Some?
                                  then ToS32(env.user.optLen.value) else ToS32(u.optLen),
                        optvalPrefix := if ret >= 0 && a[3] != 0 && out.optLen > 0 then env.user.optval else NO_ENDPOINT.addr)
            && JsonRecord.NetworkDirectionToString(out.direction) == "unknown"
  {
    hide FlowIdAtExit, ToS32, BlankNetwork;
    BlankIsBare(t, NETWORK_GETSOCKOPT, ret, env);
  }

  lemma SendtoRecord(t: Task, a: Args, u: EnterReads, ret: s64, env: ExitEnv)
    ensures var out := NetworkCall(t, NETWORK_SENDTO, a, u, ret, env);
            && out == Bare(t, NETWORK_SENDTO, 2, ret, env, out.flowId).(
                        fd := ToS32(a[0]), flags := ToS32(a[3]), bytesRequested := a[2], bytesTransferred := if ret >= 0 then ret else 0,
                        remote := u.endpoint)
            && JsonRecord.NetworkDirectionToString(out.direction) == "outbound"
  {
    hide FlowIdAtExit, ToS32, BlankNetwork;
    BlankIsBare(t, NETWORK_SENDTO, ret, env);
  }

  lemma RecvfromRecord(t: Task, a: Args, u: EnterReads, ret: s64, env: ExitEnv)
    ensures var out := NetworkCall(t, NETWORK_RECVFROM, a, u, ret, env);
            && out == Bare(t, NETWORK_RECVFROM, 1, ret, env, out.flowId).(
                        fd := ToS32(a[0]), flags := ToS32(a[3]), bytesRequested := a[2], bytesTransferred := if ret >= 0 then ret else 0,
                        remote := if ret >= 0 && a[4] != 0 then env.user.endpoint else NO_ENDPOINT)
            && JsonRecord.NetworkDirectionToString(out.direction) == "inbound"
  {
    hide FlowIdAtExit, ToS32, BlankNetwork;
    BlankIsBare(t, NETWORK_RECVFROM, ret, env);
  }

  lemma SendmsgRecord(t: Task, a: Args, u: EnterReads, ret: s64, env: ExitEnv)
    ensures var out := NetworkCall(t, NETWORK_SENDMSG, a, u, ret, env);
            && out == Bare(t, NETWORK_SENDMSG, 2, ret, env, out.flowId).(
                        fd := ToS32(a[0]), flags := ToS32(a[2]), bytesTransferred := if ret >= 0 then ret else 0,
                        bytesRequested := if a[1] != 0 && u.msgRead then u.vectorBytes else 0,
                        remote := if a[1] != 0 && u.msgRead && u.msgNamed then u.endpoint else NO_ENDPOINT)
            && JsonRecord.NetworkDirectionToString(out.direction) == "outbound"
  {
    hide FlowIdAtExit, ToS32, BlankNetwork;
    BlankIsBare(t, NETWORK_SENDMSG, ret, env);
  }

  lemma RecvmsgRecord(t: Task, a: Args, u: EnterReads, ret: s64, env: ExitEnv)
    ensures var out := NetworkCall(t, NETWORK_RECVMSG, a, u, ret, env);
            && out == Bare(t, NETWORK_RECVMSG, 1, ret, env, out.flowId).(
                        fd := ToS32(a[0]), flags := ToS32(a[2]), bytesTransferred := if ret >= 0 then ret else 0,
                        bytesRequested := if a[1] != 0 && u.msgRead then u.vectorBytes else 0,
                        remote := if a[1] != 0 && u.msgRead && u.msgNamed then u.endpoint else NO_ENDPOINT)
            && JsonRecord.NetworkDirectionToString(out.direction) == "inbound"
  {
    hide FlowIdAtExit, ToS32, BlankNetwork;
    BlankIsBare(t, NETWORK_RECVMSG, ret, env);
  }

  lemma ReadRecord(t: Task, a: Args, u: EnterReads, ret: s64, env: ExitEnv)
    ensures var out := NetworkCall(t, NETWORK_READ, a, u, ret, env);
            && out == Bare(t, NETWORK_READ, 1, ret, env, out.flowId).(
                        fd := ToS32(a[0]), bytesRequested := a[2], bytesTransferred := if ret >= 0 then ret else 0)
            && JsonRecord.NetworkDirectionToString(out.direction) == "inbound"
  {
    hide FlowIdAtExit, ToS32, BlankNetwork;
    BlankIsBare(t, NETWORK_READ, ret, env);
  }

  lemma WriteRecord(t: Task, a: Args, u: EnterReads, ret: s64, env: ExitEnv)
    ensures var out := NetworkCall(t, NETWORK_WRITE, a, u, ret, env);
            && out == Bare(t, NETWORK_WRITE, 2, ret, env, out.flowId).(
                        fd := ToS32(a[0]), bytesRequested := a[2], bytesTransferred := if ret >= 0 then ret else 0)
            && JsonRecord.NetworkDirectionToString(out.direction) == "outbound"
  {
    hide FlowIdAtExit, ToS32, BlankNetwork;
    BlankIsBare(t, NETWORK_WRITE, ret, env);
  }

  lemma ReadvRecord(t: Task, a: Args, u: EnterReads, ret: s64, env: ExitEnv)
    ensures var out := NetworkCall(t, NETWORK_READV, a, u, ret, env);
            && out == Bare(t, NETWORK_READV, 1, ret, env, out.flowId).(
                        fd := ToS32(a[0]), bytesRequested := u.vectorBytes, bytesTransferred := if ret >= 0 then ret else 0)
            && JsonRecord.NetworkDirectionToString(out.direction) == "inbound"
  {
    hide FlowIdAtExit, ToS32, BlankNetwork;
    BlankIsBare(t, NETWORK_READV, ret, env);
  }

  lemma WritevRecord(t: Task, a: Args, u: EnterReads, ret: s64, env: ExitEnv)
    ensures var out := NetworkCall(t, NETWORK_WRITEV, a, u, ret, env);
            && out == Bare(t, NETWORK_WRITEV, 2, ret, env, out.flowId).(
                        fd := ToS32(a[0]), bytesRequested := u.vectorBytes, bytesTransferred := if ret >= 0 then ret else 0)
            && JsonRecord.NetworkDirectionToString(out.direction) == "outbound"
  {
    hide FlowIdAtExit, ToS32, BlankNetwork;
    BlankIsBare(t, NETWORK_WRITEV, ret, env);
  }

  lemma SendmmsgRecord(t: Task, a: Args, u: EnterReads, ret: s64, env: ExitEnv)
    ensures var out := NetworkCall(t, NETWORK_SENDMMSG, a, u, ret, env);
            && out == Bare(t, NETWORK_SENDMMSG, 2, ret, env, out.flowId).(
                        fd := ToS32(a[0]), flags := ToS32(a[3]), bytesRequested := u.vectorBytes,
                        bytesTransferred := if ret >= 0 && a[1] != 0 && a[2] != 0 then env.user.mmsgTotal else 0)
            && JsonRecord.NetworkDirectionToString(out.direction) == "outbound"
  {
    hide FlowIdAtExit, ToS32, BlankNetwork;
    BlankIsBare(t, NETWORK_SENDMMSG, ret, env);
  }

  lemma RecvmmsgRecord(t: Task, a: Args, u: EnterReads, ret: s64, env: ExitEnv)
    ensures var out := NetworkCall(t, NETWORK_RECVMMSG, a, u, ret, env);
            && out == Bare(t, NETWORK_RECVMMSG, 1, ret, env, out.flowId).(
                        fd := ToS32(a[0]), flags := ToS32(a[3]), bytesRequested := u.vectorBytes,
                        bytesTransferred := if ret >= 0 && a[1] != 0 && a[2] != 0 then env.user.mmsgTotal else 0)
            && JsonRecord.NetworkDirectionToString(out.direction) == "inbound"
  {
    hide FlowIdAtExit, ToS32, BlankNetwork;
    BlankIsBare(t, NETWORK_RECVMMSG, ret, env);
  }

  // ---- files, system calls, processes -------------------------------------

  /** What the exit of a file call submits. */
  function FileCall(t: Task, kind: u32, a: Args, u: EnterReads, ret: s64, env: ExitEnv): FileEvent {
    FinishFile(CaptureFile(t, kind, a, u), ret, env)
  }

  lemma FileRecords(t: Task, a: Args, u: EnterReads, ret: s64, env: ExitEnv)
    ensures FileCall(t, FILE_OPENAT, a, u, ret, env)
            == FileEvent(Envelope(t, env.nowNs, 2, 592), FILE_OPENAT, ToS32(a[0]), ToS32(a[2]), ToS32(a[3]), ToS32(ret), u.pathA, "")
    ensures FileCall(t, FILE_UNLINKAT, a, u, ret, env)
            == FileEvent(Envelope(t, env.nowNs, 2, 592), FILE_UNLINKAT, ToS32(a[0]), ToS32(a[2]), 0, ToS32(ret), u.pathA, "")
    ensures FileCall(t, FILE_RENAMEAT2, a, u, ret, env)
            == FileEvent(Envelope(t, env.nowNs, 2, 592), FILE_RENAMEAT2, ToS32(a[0]), ToS32(a[4]), ToS32(a[2]), ToS32(ret),
                         u.pathA, u.pathB)
  {
    hide ToS32;
  }

  /** A system-call record is an exit record: the first three arguments and the whole result. */
  lemma SyscallRecordShows(t: Task, nr: s32, a: Args, ret: s64, env: ExitEnv)
    ensures FinishSyscall(CaptureSyscall(t, nr, a), ret, env)
            == SyscallEvent(Envelope(t, env.nowNs, 3, 96), 0, nr, ToS64(a[0]), ToS64(a[1]), ToS64(a[2]), ret)
  {
    hide ToS64;
  }

  /** Which of its fields each process tracepoint fills. */
  lemma ProcessRecords(t: Task, u: ProcessReads)
    ensures var h := Envelope(t, t.nowNs, 1, 1120);
            && CaptureProcess(t, PROCESS_EXEC, u) == ProcessEvent(h, PROCESS_EXEC, 0, 0, u.execPath)
            && CaptureProcess(t, PROCESS_FORK, u) == ProcessEvent(h, PROCESS_FORK, 0, u.childPid, "")
            && CaptureProcess(t, PROCESS_EXIT, u) == ProcessEvent(h, PROCESS_EXIT, u.exitCode, 0, "")
            && (forall kind :: kind in {PROCESS_CLONE, PROCESS_CLONE3, PROCESS_VFORK} ==>
                  CaptureProcess(t, kind, u) == ProcessEvent(h, kind, 0, if u.ret > 0 then ToU32(u.ret) else 0, ""))
  {
    hide ToU32;
  }

  // ---- these are the records that runs submit -----------------------------

  /** The record the exit step `j` put into the ring buffer. */
  ghost predicate SubmitsRecord(g: Gates, steps: seq<Step>, j: nat, rec: Record)
    requires j < |steps|
  {
    Stream(Run(g, steps[..j + 1]).trace) == Stream(Run(g, steps[..j]).trace) + [rec]
  }

  /** An exit step that completes the stash of step `i` submits the record of that call. */
  lemma StashedCallIsSubmitted(g: Gates, steps: seq<Step>, i: nat, j: nat, t: Task, kind: u32, nr: s32, a: Args, u: EnterReads)
    requires j < |steps| && SubmitsAt(g, steps, j) && StashedBy(g, steps, i, j, steps[j].key)
    ensures steps[j].key == NetworkKey(t.pidTgid, kind) && steps[i].payload == NetworkPayload(CaptureNetwork(t, kind, a, u)) ==>
              SubmitsRecord(g, steps, j, NetworkRecord(NetworkCall(t, kind, a, u, steps[j].ret, steps[j].exitEnv)))
    ensures steps[j].key == FileKey(t.pidTgid, kind) && steps[i].payload == FilePayload(CaptureFile(t, kind, a, u)) ==>
              SubmitsRecord(g, steps, j, FileRecord(FileCall(t, kind, a, u, steps[j].ret, steps[j].exitEnv)))
    ensures steps[j].key == SyscallKey(t.pidTgid, nr) && steps[i].payload == SyscallPayload(CaptureSyscall(t, nr, a)) ==>
              SubmitsRecord(g, steps, j, SyscallRecord(FinishSyscall(CaptureSyscall(t, nr, a), steps[j].ret, steps[j].exitEnv)))
  {
    hide Run, FinishNetwork, FinishFile, FinishSyscall, CaptureNetwork, CaptureFile, CaptureSyscall;
    SubmittedRecord(g, steps, i, j);
    var s, trace := steps[j], Run(g, steps[..j]).trace;
    var o := Exited(s.key, s.ret, s.exitEnv, Submitted(Finish(s.key, steps[i].payload, s.ret, s.exitEnv)));
    assert (trace + [o])[..|trace|] == trace;
  }
}
