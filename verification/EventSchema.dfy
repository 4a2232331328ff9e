/** The records the kernel side submits and the sink prints (include/event_schema.h). */
module EventSchema {
  import opened Primitives

  const UNIX_PATH_LEN: nat := 108

  datatype Header = Header(tsNs: u64, etype: u32, size: u32, pid: u32, tgid: u32, ppid: u32,
                           uid: u32, gid: u32, comm: string)

  datatype ProcessEvent = ProcessEvent(hdr: Header, kind: u32, exitCode: u32, childPid: u32,
                                       execPath: string)

  datatype FileEvent = FileEvent(hdr: Header, kind: u32, dfd: s32, flags: s32, mode: s32, ret: s32,
                                 pathA: string, pathB: string)

  datatype SyscallEvent = SyscallEvent(hdr: Header, isEnter: u32, syscallNr: s32,
                                       arg0: s64, arg1: s64, arg2: s64, ret: s64)

  datatype Endpoint = Endpoint(family: u32, port: u32, addrLen: u32, addr: seq<byte>, path: string)

  const NO_ENDPOINT: Endpoint := Endpoint(0, 0, 0, seq(16, _ => 0), "")

  datatype NetworkEvent = NetworkEvent(
    hdr: Header, kind: u32, fd: s32, peerFd: s32, ret: s32,
    domain: s32, sockType: s32, protocol: s32, flags: s32, backlog: s32, how: s32,
    optLevel: s32, optName: s32, optLen: s32, optvalPrefix: seq<byte>,
    flowId: u64, socketId: u64, direction: u32, transport: u32,
    bytesRequested: u64, bytesTransferred: u64, bytesCaptured: u32, bytesTruncated: u32,
    local: Endpoint, remote: Endpoint)

  const EVENT_TYPE_PROCESS: u32 := 1
  const EVENT_TYPE_FILE: u32 := 2
  const EVENT_TYPE_SYSCALL: u32 := 3
  const EVENT_TYPE_NETWORK: u32 := 4

  // `sizeof` of the header and of each record
  const SIZE_HEADER: u32 := 56
  const SIZE_PROCESS: u32 := 1120
  const SIZE_FILE: u32 := 592
  const SIZE_SYSCALL: u32 := 96
  const SIZE_NETWORK: u32 := 448

  const PROCESS_EXEC: u32 := 1
  const PROCESS_FORK: u32 := 2
  const PROCESS_EXIT: u32 := 3
  const PROCESS_CLONE: u32 := 4
  const PROCESS_CLONE3: u32 := 5
  const PROCESS_VFORK: u32 := 6

  const FILE_OPENAT: u32 := 1
  const FILE_UNLINKAT: u32 := 2
  const FILE_RENAMEAT2: u32 := 3

  const NETWORK_SOCKET: u32 := 1
  const NETWORK_CONNECT: u32 := 2
  const NETWORK_ACCEPT: u32 := 3
  const NETWORK_BIND: u32 := 4
  const NETWORK_LISTEN: u32 := 5
  const NETWORK_CLOSE: u32 := 6
  const NETWORK_SENDTO: u32 := 7
  const NETWORK_RECVFROM: u32 := 8
  const NETWORK_SHUTDOWN: u32 := 9
  const NETWORK_SOCKETPAIR: u32 := 10
  const NETWORK_ACCEPT4: u32 := 11
  const NETWORK_GETSOCKNAME: u32 := 12
  const NETWORK_GETPEERNAME: u32 := 13
  const NETWORK_SETSOCKOPT: u32 := 14
  const NETWORK_GETSOCKOPT: u32 := 15
  const NETWORK_SENDMSG: u32 := 16
  const NETWORK_RECVMSG: u32 := 17
  const NETWORK_READ: u32 := 18
  const NETWORK_WRITE: u32 := 19
  const NETWORK_READV: u32 := 20
  const NETWORK_WRITEV: u32 := 21
  const NETWORK_SENDMMSG: u32 := 22
  const NETWORK_RECVMMSG: u32 := 23
}
