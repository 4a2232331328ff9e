/** Field by field, what a reader of a printed line learns (src/sinks/json_sink.cpp:38-130, 242-360). */
module JsonContents {
  import opened Primitives
  import opened EventSchema
  import opened JsonText
  import opened JsonRecord
  import opened Sockaddr
  import KernelModel

  /** The line of an event is read back, and says what `p` says. */
  predicate Shows(c: CanonicalEvent, p: Printed)
    requires c.raw.Some?
  {
    ReadLine(Line(c)) == Some(p)
  }

  /** The process context comes from the entity's own fields, each under its own name; unresolved it is empty. */
  lemma LineShowsEntity(c: CanonicalEvent)
    requires c.raw.Some?
    ensures exists p :: Shows(c, p)
              && (match c.subjectProcess
                  case Some(e) =>
                    && p.rich.execPath == e.execPath && p.rich.cmdline == e.cmdline && p.rich.cwd == e.cwd
                    && p.rich.parentComm == e.parentComm && p.rich.startTimeTicks == e.startTimeTicks
                  case None =>
                    && p.rich.execPath == "" && p.rich.cmdline == "" && p.rich.cwd == "" && p.rich.parentComm == ""
                    && p.rich.startTimeTicks == 0)
              && p.subjectId == c.subjectId && p.objectId == c.objectId
  {
    hide ReadLine, Line, VisibleRecord;
    LineReadsBack(c);
    assert Shows(c, Visible(c));
  }

  /** The envelope: every identity number and the time, the type if it is a known one, the name up to its NUL. */
  predicate ShowsHeader(seen: Header, h: Header) {
    && seen.tsNs == h.tsNs && seen.pid == h.pid && seen.tgid == h.tgid && seen.ppid == h.ppid
    && seen.uid == h.uid && seen.gid == h.gid
    && (h.etype in {1, 2, 3, 4} ==> seen.etype == h.etype)
    && seen.comm == CString(h.comm)
  }

  /** An endpoint: numbers as they are, the counted address bytes, the path up to its NUL. */
  predicate ShowsEndpoint(seen: Endpoint, ep: Endpoint) {
    && seen.family == ep.family && seen.port == ep.port && seen.addrLen == ep.addrLen
    && (|ep.addr| == 16 ==> seen.addr == ep.addr[..if ep.addrLen < 16 then ep.addrLen else 16])
    && seen.path == CString(ep.path)
  }

  lemma VisibleHeaderShows(h: Header)
    ensures ShowsHeader(VisibleHeader(h), h)
  {
    hide CString;
  }

  lemma VisibleEndpointShows(ep: Endpoint)
    ensures ShowsEndpoint(VisibleEndpoint(ep), ep)
  {
    hide CString;
    assert |ep.addr| == 16 ==> ep.addr[..16] == ep.addr;
  }

  /** A network line shows every field of the record. */
  lemma LineShowsNetwork(c: CanonicalEvent, n: NetworkEvent)
    requires c.raw == Some(KernelModel.NetworkRecord(n))
    ensures exists p :: Shows(c, p) && p.raw.NetworkRecord?
              && var s := p.raw.netRec;
                 && ShowsHeader(s.hdr, n.hdr)
                 && s.kind == n.kind && s.fd == n.fd && s.peerFd == n.peerFd && s.ret == n.ret
                 && s.domain == n.domain && s.sockType == n.sockType && s.protocol == n.protocol
                 && s.flags == n.flags && s.backlog == n.backlog && s.how == n.how
                 && s.optLevel == n.optLevel && s.optName == n.optName && s.optLen == n.optLen
                 && s.optvalPrefix == n.optvalPrefix && s.flowId == n.flowId && s.socketId == n.socketId
                 && (n.direction in {0, 1, 2} ==> s.direction == n.direction)
                 && (n.transport in {0, 1, 2, 3, 4} ==> s.transport == n.transport)
                 && s.bytesRequested == n.bytesRequested && s.bytesTransferred == n.bytesTransferred
                 && s.bytesCaptured == n.bytesCaptured && s.bytesTruncated == n.bytesTruncated
                 && ShowsEndpoint(s.local, n.local) && ShowsEndpoint(s.remote, n.remote)
  {
    hide ReadLine, Line, RichOf, VisibleHeader, VisibleEndpoint, ShowsHeader, ShowsEndpoint;
    LineReadsBack(c);
    VisibleHeaderShows(n.hdr);
    VisibleEndpointShows(n.local);
    VisibleEndpointShows(n.remote);
    assert Shows(c, Visible(c));
  }

  /** A file line shows kind, result and both paths. */
  lemma LineShowsFile(c: CanonicalEvent, f: FileEvent)
    requires c.raw == Some(KernelModel.FileRecord(f))
    ensures exists p :: Shows(c, p) && p.raw.FileRecord?
              && var s := p.raw.fileRec;
                 && ShowsHeader(s.hdr, f.hdr) && s.kind == f.kind && s.ret == f.ret
                 && s.pathA == CString(f.pathA) && s.pathB == CString(f.pathB)
  {
    hide ReadLine, Line, RichOf, VisibleHeader, ShowsHeader, CString;
    LineReadsBack(c);
    VisibleHeaderShows(f.hdr);
    assert Shows(c, Visible(c));
  }

  /** A system-call line shows the number, whether it is an enter, and the result. */
  lemma LineShowsSyscall(c: CanonicalEvent, y: SyscallEvent)
    requires c.raw == Some(KernelModel.SyscallRecord(y))
    ensures exists p :: Shows(c, p) && p.raw.SyscallRecord?
              && var s := p.raw.sysRec;
                 ShowsHeader(s.hdr, y.hdr) && s.isEnter == y.isEnter && s.syscallNr == y.syscallNr && s.ret == y.ret
  {
    hide ReadLine, Line, RichOf, VisibleHeader, ShowsHeader;
    LineReadsBack(c);
    VisibleHeaderShows(y.hdr);
    assert Shows(c, Visible(c));
  }

  /** A process line shows kind, exit code and child. */
  lemma LineShowsProcess(c: CanonicalEvent, e: ProcessEvent)
    requires c.raw == Some(KernelModel.ProcessRecord(e))
    ensures exists p :: Shows(c, p) && p.raw.ProcessRecord?
              && var s := p.raw.procEv;
                 ShowsHeader(s.hdr, e.hdr) && s.kind == e.kind && s.exitCode == e.exitCode && s.childPid == e.childPid
  {
    hide ReadLine, Line, RichOf, VisibleHeader, ShowsHeader;
    LineReadsBack(c);
    VisibleHeaderShows(e.hdr);
    assert Shows(c, Visible(c));
  }

  // ---- labels -------------------------------------------------------------

  lemma TypeLabels()
    ensures EventTypeToString(EVENT_TYPE_PROCESS) == "process" && EventTypeToString(EVENT_TYPE_FILE) == "file"
    ensures EventTypeToString(EVENT_TYPE_SYSCALL) == "syscall" && EventTypeToString(EVENT_TYPE_NETWORK) == "network"
    ensures forall t: u32 :: t == 0 || t > 4 ==> EventTypeToString(t) == "unknown"
  {}

  lemma SetupLabels()
    ensures NetworkEventKindToString(NETWORK_SOCKET) == "socket" && NetworkEventKindToString(NETWORK_CONNECT) == "connect"
    ensures NetworkEventKindToString(NETWORK_ACCEPT) == "accept" && NetworkEventKindToString(NETWORK_BIND) == "bind"
    ensures NetworkEventKindToString(NETWORK_LISTEN) == "listen" && NetworkEventKindToString(NETWORK_CLOSE) == "close"
    ensures NetworkEventKindToString(NETWORK_SENDTO) == "sendto" && NetworkEventKindToString(NETWORK_RECVFROM) == "recvfrom"
  {}

  lemma ControlLabels()
    ensures NetworkEventKindToString(NETWORK_SHUTDOWN) == "shutdown"
    ensures NetworkEventKindToString(NETWORK_SOCKETPAIR) == "socketpair"
    ensures NetworkEventKindToString(NETWORK_ACCEPT4) == "accept4"
    ensures NetworkEventKindToString(NETWORK_GETSOCKNAME) == "getsockname"
    ensures NetworkEventKindToString(NETWORK_GETPEERNAME) == "getpeername"
    ensures NetworkEventKindToString(NETWORK_SETSOCKOPT) == "setsockopt"
    ensures NetworkEventKindToString(NETWORK_GETSOCKOPT) == "getsockopt"
  {}

  lemma TransferLabels()
    ensures NetworkEventKindToString(NETWORK_SENDMSG) == "sendmsg" && NetworkEventKindToString(NETWORK_RECVMSG) == "recvmsg"
    ensures NetworkEventKindToString(NETWORK_READ) == "read" && NetworkEventKindToString(NETWORK_WRITE) == "write"
    ensures NetworkEventKindToString(NETWORK_READV) == "readv" && NetworkEventKindToString(NETWORK_WRITEV) == "writev"
    ensures NetworkEventKindToString(NETWORK_SENDMMSG) == "sendmmsg"
    ensures NetworkEventKindToString(NETWORK_RECVMMSG) == "recvmmsg"
  {}

  /** The name of each call, at the place its schema number gives it. */
  const CALL_LABELS: map<u32, string> :=
    map[1 := "socket", 2 := "connect", 3 := "accept", 4 := "bind", 5 := "listen", 6 := "close", 7 := "sendto",
        8 := "recvfrom", 9 := "shutdown", 10 := "socketpair", 11 := "accept4", 12 := "getsockname",
        13 := "getpeername", 14 := "setsockopt", 15 := "getsockopt", 16 := "sendmsg", 17 := "recvmsg", 18 := "read",
        19 := "write", 20 := "readv", 21 := "writev", 22 := "sendmmsg", 23 := "recvmmsg"]

  /** Each kind of the schema is printed by its call's name, any other number as unknown. */
  lemma KindLabels(kind: u32)
    ensures NetworkEventKindToString(kind) == if kind in CALL_LABELS then CALL_LABELS[kind] else "unknown"
  {
    if 1 <= kind <= 23 {
      hide NetworkEventKindToString;
      SetupLabels();
      ControlLabels();
      TransferLabels();
    }
  }

  // ---- text ---------------------------------------------------------------

  /** The two-character escapes, the four-digit ones in lowercase, and bytes that are printed as they are. */
  lemma EscapeTable(c: char)
    ensures EscapeChar('"') == "\\\"" && EscapeChar('\\') == "\\\\" && EscapeChar('\n') == "\\n"
    ensures EscapeChar('\r') == "\\r" && EscapeChar('\t') == "\\t"
    ensures EscapeChar('\U{08}') == "\\b" && EscapeChar('\U{0c}') == "\\f"
    ensures EscapeChar('\U{00}') == "\\u0000" && EscapeChar('\U{0b}') == "\\u000b" && EscapeChar('\U{1f}') == "\\u001f"
    ensures c >= ' ' && c != '"' && c != '\\' ==> EscapeChar(c) == [c]
  {}

  /** Hexadecimal is printed high digit first, in lowercase. */
  lemma HexIsLowercase(b: byte)
    ensures Hex([b]) == ["0123456789abcdef"[b / 16], "0123456789abcdef"[b % 16]]
  {
    assert Hex([b][1..]) == "";
  }

  /** The option bytes are printed byte for byte. */
  lemma OptionBytesAreChars(b: seq<byte>, i: nat)
    requires i < |b|
    ensures |CharsOf(b)| == |b| && CharsOf(b)[i] as int == b[i]
  {}
}
