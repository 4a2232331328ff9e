/**
 * The printed form of an event: which members the sink writes, in which order, and a reader
 * that gets every printed field back from the line (src/sinks/json_sink.cpp).
 */
module JsonRecord {
  import opened Primitives
  import opened EventSchema
  import opened JsonText
  import opened JsonValue
  import opened Sockaddr
  import RegistryModel
  import KernelModel

  type Record = KernelModel.Record
  type ProcessEntity = RegistryModel.ProcessEntity

  /** What a sink is handed: the raw event, its resolved subject and the two entity ids. */
  datatype CanonicalEvent = CanonicalEvent(raw: Option<Record>, subjectProcess: Option<ProcessEntity>,
                                           subjectId: nat, objectId: nat)

  function HeaderOf(r: Record): Header {
    match r
    case ProcessRecord(ev) => ev.hdr
    case FileRecord(ev) => ev.hdr
    case SyscallRecord(ev) => ev.hdr
    case NetworkRecord(ev) => ev.hdr
  }

  // ---- labels -------------------------------------------------------------

  function EventTypeToString(t: u32): string {
    if t == EVENT_TYPE_PROCESS then "process"
    else if t == EVENT_TYPE_FILE then "file"
    else if t == EVENT_TYPE_SYSCALL then "syscall"
    else if t == EVENT_TYPE_NETWORK then "network"
    else "unknown"
  }

  function NetworkDirectionToString(d: u32): string {
    if d == 1 then "inbound" else if d == 2 then "outbound" else "unknown"
  }

  function NetworkTransportToString(t: u32): string {
    if t == 1 then "tcp" else if t == 2 then "udp" else if t == 3 then "unix" else if t == 4 then "raw" else "unknown"
  }

  /** The names of the network kinds from 1 on. */
  const KIND_NAMES: seq<string> :=
    ["socket", "connect", "accept", "bind", "listen", "close", "sendto", "recvfrom", "shutdown", "socketpair",
     "accept4", "getsockname", "getpeername", "setsockopt", "getsockopt", "sendmsg", "recvmsg", "read", "write",
     "readv", "writev", "sendmmsg", "recvmmsg"]

  function NetworkEventKindToString(kind: u32): string {
    if 1 <= kind <= NETWORK_RECVMMSG then KIND_NAMES[kind - 1] else "unknown"
  }

  /** The printed name tells every known kind apart; the others share "unknown". */
  lemma KindNamesTellKinds(a: u32, b: u32)
    ensures NetworkEventKindToString(a) == NetworkEventKindToString(b)
            <==> a == b || (!(1 <= a <= NETWORK_RECVMMSG) && !(1 <= b <= NETWORK_RECVMMSG))
  {
    KindNamesDiffer();
  }

  lemma KindNamesDiffer()
    ensures forall i, j :: 0 <= i < j < 23 ==> KIND_NAMES[i] != KIND_NAMES[j]
    ensures forall i :: 0 <= i < 23 ==> KIND_NAMES[i] != "unknown"
  {}

  // ---- the members of a record --------------------------------------------

  /** What the registry entity contributes; empty when the subject is unresolved. */
  datatype Rich = Rich(execPath: string, cmdline: string, cwd: string, parentComm: string, startTimeTicks: u64)

  function RichOf(pe: Option<ProcessEntity>): Rich {
    match pe
    case Some(e) => Rich(e.execPath, e.cmdline, e.cwd, e.parentComm, e.startTimeTicks)
    case None => Rich("", "", "", "", 0)
  }

  function HeaderPairs(h: Header): seq<Pair> {
    [("ts_ns", Num(h.tsNs)), ("type", Str(EventTypeToString(h.etype))), ("pid", Num(h.pid)), ("tgid", Num(h.tgid)),
     ("ppid", Num(h.ppid)), ("uid", Num(h.uid)), ("gid", Num(h.gid)), ("comm", Str(CString(h.comm)))]
  }

  function InfoPairs(h: Header, r: Rich): seq<Pair> {
    [("pid", Num(h.pid)), ("tgid", Num(h.tgid)), ("ppid", Num(h.ppid)), ("uid", Num(h.uid)), ("gid", Num(h.gid)),
     ("comm", Str(CString(h.comm))), ("exec_path", Str(r.execPath)), ("cmdline", Str(r.cmdline)),
     ("cwd", Str(r.cwd)), ("parent_comm", Str(r.parentComm)), ("start_time_ticks", Num(r.startTimeTicks))]
  }

  function IdentityPairs(h: Header, r: Rich, subjectId: nat): seq<Pair> {
    [("process_info", Obj(ListOf(InfoPairs(h, r)))), ("entity_id", Num(subjectId))]
  }

  function ObjectPairs(objectId: nat): seq<Pair> {
    if objectId != 0 then [("object_entity_id", Num(objectId))] else []
  }

  function ProcessPairs(ev: ProcessEvent, r: Rich): seq<Pair> {
    [("kind", Num(ev.kind)), ("exit_code", Num(ev.exitCode)), ("child_pid", Num(ev.childPid)),
     ("filename", Str(r.execPath)), ("exec_path", Str(r.execPath)), ("cmdline", Str(r.cmdline)),
     ("cwd", Str(r.cwd)), ("parent_comm", Str(r.parentComm)), ("start_time_ticks", Num(r.startTimeTicks))]
  }

  function FilePairs(ev: FileEvent): seq<Pair> {
    [("kind", Num(ev.kind)), ("ret", Num(ev.ret)), ("path_a", Str(CString(ev.pathA))), ("path_b", Str(CString(ev.pathB)))]
  }

  function SyscallPairs(ev: SyscallEvent): seq<Pair> {
    [("is_enter", Num(ev.isEnter)), ("syscall_nr", Num(ev.syscallNr)), ("ret", Num(ev.ret))]
  }

  /** `std::string(reinterpret_cast<const char*>(bytes), size)` */
  function CharsOf(b: seq<byte>): string { seq(|b|, i requires 0 <= i < |b| => b[i] as char) }

  /** What a socket call is and was given. */
  function CallPairs(ev: NetworkEvent): seq<Pair> {
    [("event_name", Str(NetworkEventKindToString(ev.kind))), ("kind", Num(ev.kind)), ("fd", Num(ev.fd)),
     ("peer_fd", Num(ev.peerFd)), ("ret", Num(ev.ret)), ("domain", Num(ev.domain)), ("sock_type", Num(ev.sockType)),
     ("protocol", Num(ev.protocol)), ("flags", Num(ev.flags)), ("backlog", Num(ev.backlog)), ("how", Num(ev.how)),
     ("opt_level", Num(ev.optLevel)), ("opt_name", Num(ev.optName)), ("opt_len", Num(ev.optLen)),
     ("optval_prefix", Str(CharsOf(ev.optvalPrefix)))]
  }

  /** How it fits into a flow and what it moved. */
  function FlowPairs(ev: NetworkEvent): seq<Pair> {
    [("flow_id", Num(ev.flowId)), ("socket_id", Num(ev.socketId)),
     ("direction", Str(NetworkDirectionToString(ev.direction))),
     ("transport", Str(NetworkTransportToString(ev.transport))),
     ("bytes_requested", Num(ev.bytesRequested)), ("bytes_transferred", Num(ev.bytesTransferred)),
     ("bytes_captured", Num(ev.bytesCaptured)), ("bytes_truncated", Num(ev.bytesTruncated))]
  }

  /** The address bytes that are printed: the counted ones, at most the field. */
  function PrintedAddr(ep: Endpoint): seq<byte> { if ep.addrLen < |ep.addr| then ep.addr[..ep.addrLen] else ep.addr }

  function EndpointPairs(side: string, ep: Endpoint): seq<Pair> {
    [(side + "_family", Num(ep.family)), (side + "_port", Num(ep.port)), (side + "_addr_len", Num(ep.addrLen)),
     (side + "_addr", Str(Hex(PrintedAddr(ep)))), (side + "_path", Str(CString(ep.path)))]
  }

  function FamilyPairs(raw: Record, r: Rich): seq<Pair> {
    match raw
    case ProcessRecord(ev) => ProcessPairs(ev, r)
    case FileRecord(ev) => FilePairs(ev)
    case SyscallRecord(ev) => SyscallPairs(ev)
    case NetworkRecord(ev) =>
      CallPairs(ev) + FlowPairs(ev) + EndpointPairs("local", ev.local) + EndpointPairs("remote", ev.remote)
  }

  function EventPairs(raw: Record, r: Rich, subjectId: nat, objectId: nat): seq<Pair> {
    HeaderPairs(HeaderOf(raw)) + IdentityPairs(HeaderOf(raw), r, subjectId) + ObjectPairs(objectId) + FamilyPairs(raw, r)
  }

  /** One JSON object and a line feed. */
  function Line(c: CanonicalEvent): string
    requires c.raw.Some?
  {
    Render(Obj(ListOf(EventPairs(c.raw.value, RichOf(c.subjectProcess), c.subjectId, c.objectId)))) + "\n"
  }

  // ---- no object repeats a name -------------------------------------------

  function Names(ps: seq<Pair>): seq<string> { seq(|ps|, i requires 0 <= i < |ps| => ps[i].0) }

  predicate NoRepeats(ns: seq<string>) { forall i, j :: 0 <= i < j < |ns| ==> ns[i] != ns[j] }

  predicate Apart(a: seq<string>, b: seq<string>) {
    forall i, j :: 0 <= i < |a| && 0 <= j < |b| ==> a[i] != b[j]
  }

  const COMMON_NAMES: seq<string> :=
    ["ts_ns", "type", "pid", "tgid", "ppid", "uid", "gid", "comm", "process_info", "entity_id"]

  const OBJECT_NAME: seq<string> := ["object_entity_id"]

  const INFO_NAMES: seq<string> :=
    ["pid", "tgid", "ppid", "uid", "gid", "comm", "exec_path", "cmdline", "cwd", "parent_comm", "start_time_ticks"]

  const CALL_NAMES: seq<string> :=
    ["event_name", "kind", "fd", "peer_fd", "ret", "domain", "sock_type", "protocol", "flags", "backlog", "how",
     "opt_level", "opt_name", "opt_len", "optval_prefix"]

  const FLOW_NAMES: seq<string> :=
    ["flow_id", "socket_id", "direction", "transport", "bytes_requested", "bytes_transferred", "bytes_captured",
     "bytes_truncated"]

  const LOCAL_NAMES: seq<string> := ["local_family", "local_port", "local_addr_len", "local_addr", "local_path"]

  const REMOTE_NAMES: seq<string> := ["remote_family", "remote_port", "remote_addr_len", "remote_addr", "remote_path"]

  const ENDPOINT_NAMES: seq<string> := LOCAL_NAMES + REMOTE_NAMES

  const PROCESS_NAMES: seq<string> :=
    ["kind", "exit_code", "child_pid", "filename", "exec_path", "cmdline", "cwd", "parent_comm", "start_time_ticks"]

  const FILE_NAMES: seq<string> := ["kind", "ret", "path_a", "path_b"]

  const SYSCALL_NAMES: seq<string> := ["is_enter", "syscall_nr", "ret"]

  function FamilyNames(raw: Record): seq<string> {
    match raw
    case ProcessRecord(_) => PROCESS_NAMES
    case FileRecord(_) => FILE_NAMES
    case SyscallRecord(_) => SYSCALL_NAMES
    case NetworkRecord(_) => CALL_NAMES + (FLOW_NAMES + ENDPOINT_NAMES)
  }

  lemma JoinNoRepeats(a: seq<string>, b: seq<string>)
    requires NoRepeats(a) && NoRepeats(b) && Apart(a, b)
    ensures NoRepeats(a + b)
  {}

  lemma JoinApart(a: seq<string>, b: seq<string>, c: seq<string>)
    requires Apart(a, b) && Apart(a, c)
    ensures Apart(a, b + c)
  {}

  lemma CallNamesDiffer()
    ensures NoRepeats(CALL_NAMES) && Apart(CALL_NAMES, FLOW_NAMES)
  {}

  lemma CallNamesAreNotEndpointNames()
    ensures Apart(CALL_NAMES, ENDPOINT_NAMES)
  {}

  lemma FlowNamesDiffer()
    ensures NoRepeats(FLOW_NAMES) && NoRepeats(ENDPOINT_NAMES) && Apart(FLOW_NAMES, ENDPOINT_NAMES)
  {}

  lemma CommonNamesDiffer()
    ensures NoRepeats(COMMON_NAMES) && NoRepeats(OBJECT_NAME)
    ensures Apart(COMMON_NAMES, OBJECT_NAME) && Apart(COMMON_NAMES, CALL_NAMES)
  {}

  lemma CommonNamesAreNotFlowNames()
    ensures Apart(COMMON_NAMES, FLOW_NAMES) && Apart(COMMON_NAMES, ENDPOINT_NAMES)
  {}

  lemma ObjectNameDiffers()
    ensures Apart(OBJECT_NAME, CALL_NAMES) && Apart(OBJECT_NAME, FLOW_NAMES) && Apart(OBJECT_NAME, ENDPOINT_NAMES)
    ensures Apart(OBJECT_NAME, PROCESS_NAMES) && Apart(OBJECT_NAME, FILE_NAMES) && Apart(OBJECT_NAME, SYSCALL_NAMES)
  {}

  lemma SmallFamiliesDiffer()
    ensures NoRepeats(PROCESS_NAMES) && NoRepeats(FILE_NAMES) && NoRepeats(SYSCALL_NAMES) && NoRepeats(INFO_NAMES)
  {}

  lemma SmallFamiliesAreNotCommon()
    ensures Apart(COMMON_NAMES, PROCESS_NAMES) && Apart(COMMON_NAMES, FILE_NAMES) && Apart(COMMON_NAMES, SYSCALL_NAMES)
  {}

  lemma FamilyNamesDiffer(raw: Record)
    ensures var f := FamilyNames(raw); NoRepeats(f) && Apart(COMMON_NAMES, f) && Apart(OBJECT_NAME, f)
  {
    hide NoRepeats, Apart, COMMON_NAMES, OBJECT_NAME, CALL_NAMES, FLOW_NAMES, ENDPOINT_NAMES;
    CommonNamesDiffer();
    ObjectNameDiffers();
    SmallFamiliesDiffer();
    SmallFamiliesAreNotCommon();
    if raw.NetworkRecord? {
      CallNamesDiffer();
      FlowNamesDiffer();
      CallNamesAreNotEndpointNames();
      CommonNamesAreNotFlowNames();
      JoinNoRepeats(FLOW_NAMES, ENDPOINT_NAMES);
      JoinApart(CALL_NAMES, FLOW_NAMES, ENDPOINT_NAMES);
      JoinNoRepeats(CALL_NAMES, FLOW_NAMES + ENDPOINT_NAMES);
      JoinApart(COMMON_NAMES, FLOW_NAMES, ENDPOINT_NAMES);
      JoinApart(COMMON_NAMES, CALL_NAMES, FLOW_NAMES + ENDPOINT_NAMES);
      JoinApart(OBJECT_NAME, FLOW_NAMES, ENDPOINT_NAMES);
      JoinApart(OBJECT_NAME, CALL_NAMES, FLOW_NAMES + ENDPOINT_NAMES);
    }
  }

  function AllNames(raw: Record, objectId: nat): seq<string> {
    COMMON_NAMES + ((if objectId != 0 then OBJECT_NAME else []) + FamilyNames(raw))
  }

  lemma AllNamesDiffer(raw: Record, objectId: nat)
    ensures NoRepeats(AllNames(raw, objectId))
  {
    hide COMMON_NAMES, OBJECT_NAME, FamilyNames;
    FamilyNamesDiffer(raw);
    CommonNamesDiffer();
    var middle := if objectId != 0 then OBJECT_NAME else [];
    JoinNoRepeats(middle, FamilyNames(raw));
    JoinApart(COMMON_NAMES, middle, FamilyNames(raw));
    JoinNoRepeats(COMMON_NAMES, middle + FamilyNames(raw));
  }

  lemma NamesAppend(a: seq<Pair>, b: seq<Pair>)
    ensures Names(a + b) == Names(a) + Names(b)
  {}

  lemma LocalNamesOf(ep: Endpoint)
    ensures Names(EndpointPairs("local", ep)) == LOCAL_NAMES
  {
    assert "local" + "_family" == "local_family" && "local" + "_port" == "local_port";
    assert "local" + "_addr_len" == "local_addr_len" && "local" + "_addr" == "local_addr";
    assert "local" + "_path" == "local_path";
  }

  lemma RemoteNamesOf(ep: Endpoint)
    ensures Names(EndpointPairs("remote", ep)) == REMOTE_NAMES
  {
    assert "remote" + "_family" == "remote_family" && "remote" + "_port" == "remote_port";
    assert "remote" + "_addr_len" == "remote_addr_len" && "remote" + "_addr" == "remote_addr";
    assert "remote" + "_path" == "remote_path";
  }

  lemma EndpointNamesOf(l: Endpoint, r: Endpoint)
    ensures Names(EndpointPairs("local", l) + EndpointPairs("remote", r)) == ENDPOINT_NAMES
  {
    hide EndpointPairs, Names, LOCAL_NAMES, REMOTE_NAMES;
    LocalNamesOf(l);
    RemoteNamesOf(r);
    NamesAppend(EndpointPairs("local", l), EndpointPairs("remote", r));
  }

  lemma NetworkNamesOf(ev: NetworkEvent, r: Rich)
    ensures Names(FamilyPairs(KernelModel.NetworkRecord(ev), r)) == CALL_NAMES + (FLOW_NAMES + ENDPOINT_NAMES)
  {
    var c, f := CallPairs(ev), FlowPairs(ev);
    var e := EndpointPairs("local", ev.local) + EndpointPairs("remote", ev.remote);
    assert Names(c) == CALL_NAMES;
    assert Names(f) == FLOW_NAMES;
    EndpointNamesOf(ev.local, ev.remote);
    hide CallPairs, FlowPairs, EndpointPairs, Names, CALL_NAMES, FLOW_NAMES, ENDPOINT_NAMES;
    NamesAppend(f, e);
    NamesAppend(c, f + e);
    assert FamilyPairs(KernelModel.NetworkRecord(ev), r) == c + (f + e);
  }

  lemma FamilyNamesOf(raw: Record, r: Rich)
    ensures Names(FamilyPairs(raw, r)) == FamilyNames(raw)
  {
    if raw.NetworkRecord? {
      hide FamilyPairs;
      NetworkNamesOf(raw.netRec, r);
    }
  }

  lemma CommonNamesOf(h: Header, r: Rich, subjectId: nat, objectId: nat)
    ensures Names(HeaderPairs(h) + IdentityPairs(h, r, subjectId)) == COMMON_NAMES
    ensures Names(ObjectPairs(objectId)) == if objectId != 0 then OBJECT_NAME else []
  {}

  lemma EventNamesOf(raw: Record, r: Rich, subjectId: nat, objectId: nat)
    ensures Names(EventPairs(raw, r, subjectId, objectId)) == AllNames(raw, objectId)
  {
    hide FamilyPairs, HeaderPairs, IdentityPairs, ObjectPairs, Names, FamilyNames, HeaderOf, COMMON_NAMES, OBJECT_NAME;
    var h, i, o, f := HeaderPairs(HeaderOf(raw)), IdentityPairs(HeaderOf(raw), r, subjectId), ObjectPairs(objectId), FamilyPairs(raw, r);
    CommonNamesOf(HeaderOf(raw), r, subjectId, objectId);
    FamilyNamesOf(raw, r);
    NamesAppend(o, f);
    NamesAppend(h + i, o + f);
    assert EventPairs(raw, r, subjectId, objectId) == h + i + (o + f);
  }

  /** RFC 8259 section 4 asks for unique names: the record and its process_info have them. */
  lemma NamesAreUnique(raw: Record, r: Rich, subjectId: nat, objectId: nat)
    ensures DistinctNames(EventPairs(raw, r, subjectId, objectId))
    ensures DistinctNames(InfoPairs(HeaderOf(raw), r))
  {
    hide EventPairs, AllNames, HeaderOf;
    EventNamesOf(raw, r, subjectId, objectId);
    AllNamesDiffer(raw, objectId);
    DistinctByNames(EventPairs(raw, r, subjectId, objectId));
    SmallFamiliesDiffer();
    assert Names(InfoPairs(HeaderOf(raw), r)) == INFO_NAMES;
    DistinctByNames(InfoPairs(HeaderOf(raw), r));
  }

  lemma DistinctByNames(ps: seq<Pair>)
    requires NoRepeats(Names(ps))
    ensures DistinctNames(ps)
  {
    assert forall i :: 0 <= i < |ps| ==> Names(ps)[i] == ps[i].0;
  }

  // ---- reading a record back ----------------------------------------------

  /** The fields of an event that are printed, the others blanked. */
  datatype Printed = Printed(raw: Record, rich: Rich, subjectId: nat, objectId: nat)

  function NumAt(ms: Members, name: string): int {
    match Lookup(ms, name) case Some(Num(n)) => n case _ => 0
  }

  function TextAt(ms: Members, name: string): string {
    match Lookup(ms, name) case Some(Str(s)) => s case _ => ""
  }

  function U32At(ms: Members, name: string): u32 {
    var n := NumAt(ms, name); if 0 <= n < TWO_32 then n else 0
  }

  function U64At(ms: Members, name: string): u64 {
    var n := NumAt(ms, name); if 0 <= n < TWO_64 then n else 0
  }

  function NatAt(ms: Members, name: string): nat {
    var n := NumAt(ms, name); if 0 <= n then n else 0
  }

  function S32At(ms: Members, name: string): s32 {
    var n := NumAt(ms, name); if -TWO_31 <= n < TWO_31 then n else 0
  }

  function S64At(ms: Members, name: string): s64 {
    var n := NumAt(ms, name); if -TWO_63 <= n < TWO_63 then n else 0
  }

  function BytesOf(s: string): seq<byte> {
    seq(|s|, i requires 0 <= i < |s| => if s[i] < '\U{100}' then s[i] as int else 0)
  }

  function HexAt(ms: Members, name: string): seq<byte> {
    match Unhex(TextAt(ms, name)) case Some(b) => b case None => []
  }

  function TypeOfLabel(t: string): u32 {
    if t == "process" then EVENT_TYPE_PROCESS else if t == "file" then EVENT_TYPE_FILE
    else if t == "syscall" then EVENT_TYPE_SYSCALL else if t == "network" then EVENT_TYPE_NETWORK else 0
  }

  function DirectionOfLabel(t: string): u32 { if t == "inbound" then 1 else if t == "outbound" then 2 else 0 }

  function TransportOfLabel(t: string): u32 {
    if t == "tcp" then 1 else if t == "udp" then 2 else if t == "unix" then 3 else if t == "raw" then 4 else 0
  }

  function ReadHeader(ms: Members): Header {
    Header(U64At(ms, "ts_ns"), TypeOfLabel(TextAt(ms, "type")), 0, U32At(ms, "pid"), U32At(ms, "tgid"),
           U32At(ms, "ppid"), U32At(ms, "uid"), U32At(ms, "gid"), TextAt(ms, "comm"))
  }

  function ReadRich(ms: Members): Rich {
    match Lookup(ms, "process_info")
    case Some(Obj(info)) =>
      Rich(TextAt(info, "exec_path"), TextAt(info, "cmdline"), TextAt(info, "cwd"), TextAt(info, "parent_comm"),
           U64At(info, "start_time_ticks"))
    case _ => Rich("", "", "", "", 0)
  }

  function ReadEndpoint(ms: Members, side: string): Endpoint {
    Endpoint(U32At(ms, side + "_family"), U32At(ms, side + "_port"), U32At(ms, side + "_addr_len"),
             HexAt(ms, side + "_addr"), TextAt(ms, side + "_path"))
  }

  function ReadNetwork(ms: Members): NetworkEvent {
    NetworkEvent(
      ReadHeader(ms), U32At(ms, "kind"), S32At(ms, "fd"), S32At(ms, "peer_fd"), S32At(ms, "ret"),
      S32At(ms, "domain"), S32At(ms, "sock_type"), S32At(ms, "protocol"), S32At(ms, "flags"), S32At(ms, "backlog"),
      S32At(ms, "how"), S32At(ms, "opt_level"), S32At(ms, "opt_name"), S32At(ms, "opt_len"),
      BytesOf(TextAt(ms, "optval_prefix")), U64At(ms, "flow_id"), U64At(ms, "socket_id"),
      DirectionOfLabel(TextAt(ms, "direction")), TransportOfLabel(TextAt(ms, "transport")),
      U64At(ms, "bytes_requested"), U64At(ms, "bytes_transferred"), U32At(ms, "bytes_captured"),
      U32At(ms, "bytes_truncated"), ReadEndpoint(ms, "local"), ReadEndpoint(ms, "remote"))
  }

  /** The family shows in the members only that family has. */
  function ReadRecord(ms: Members): Record {
    if Lookup(ms, "exit_code").Some? then
      KernelModel.ProcessRecord(ProcessEvent(ReadHeader(ms), U32At(ms, "kind"), U32At(ms, "exit_code"), U32At(ms, "child_pid"), ""))
    else if Lookup(ms, "path_a").Some? then
      KernelModel.FileRecord(FileEvent(ReadHeader(ms), U32At(ms, "kind"), 0, 0, 0, S32At(ms, "ret"),
                                       TextAt(ms, "path_a"), TextAt(ms, "path_b")))
    else if Lookup(ms, "syscall_nr").Some? then
      KernelModel.SyscallRecord(SyscallEvent(ReadHeader(ms), U32At(ms, "is_enter"), S32At(ms, "syscall_nr"), 0, 0, 0, S64At(ms, "ret")))
    else
      KernelModel.NetworkRecord(ReadNetwork(ms))
  }

  /** The identity that process_info repeats is that of the event. */
  predicate InfoAgrees(ms: Members) {
    match Lookup(ms, "process_info")
    case Some(Obj(info)) =>
      && Lookup(info, "pid") == Lookup(ms, "pid") && Lookup(info, "tgid") == Lookup(ms, "tgid")
      && Lookup(info, "ppid") == Lookup(ms, "ppid") && Lookup(info, "uid") == Lookup(ms, "uid")
      && Lookup(info, "gid") == Lookup(ms, "gid") && Lookup(info, "comm") == Lookup(ms, "comm")
    case _ => false
  }

  /** A process event repeats what process_info says, and a network event's name is that of its kind. */
  predicate FamilyAgrees(ms: Members) {
    match ReadRecord(ms)
    case ProcessRecord(_) =>
      var r := ReadRich(ms);
      && Lookup(ms, "filename") == Some(Str(r.execPath)) && Lookup(ms, "exec_path") == Some(Str(r.execPath))
      && Lookup(ms, "cmdline") == Some(Str(r.cmdline)) && Lookup(ms, "cwd") == Some(Str(r.cwd))
      && Lookup(ms, "parent_comm") == Some(Str(r.parentComm))
      && Lookup(ms, "start_time_ticks") == Some(Num(r.startTimeTicks))
    case NetworkRecord(ev) => Lookup(ms, "event_name") == Some(Str(NetworkEventKindToString(ev.kind)))
    case _ => true
  }

  /** Read a printed line; what it says twice must be said alike. */
  function ReadLine(t: string): Option<Printed> {
    match ReadValue(t)
    case Some((Obj(ms), "\n")) =>
      if !InfoAgrees(ms) || !FamilyAgrees(ms) then None else
      Some(Printed(ReadRecord(ms), ReadRich(ms), NatAt(ms, "entity_id"), NatAt(ms, "object_entity_id")))
    case _ => None
  }

  // ---- what a line shows --------------------------------------------------

  function VisibleHeader(h: Header): Header {
    h.(etype := if 1 <= h.etype <= 4 then h.etype else 0, size := 0, comm := CString(h.comm))
  }

  function VisibleEndpoint(ep: Endpoint): Endpoint { ep.(addr := PrintedAddr(ep), path := CString(ep.path)) }

  function VisibleNetwork(ev: NetworkEvent): NetworkEvent {
    ev.(hdr := VisibleHeader(ev.hdr),
        direction := if 1 <= ev.direction <= 2 then ev.direction else 0,
        transport := if 1 <= ev.transport <= 4 then ev.transport else 0,
        local := VisibleEndpoint(ev.local), remote := VisibleEndpoint(ev.remote))
  }

  function VisibleRecord(raw: Record): Record {
    match raw
    case ProcessRecord(ev) => KernelModel.ProcessRecord(ev.(hdr := VisibleHeader(ev.hdr), execPath := ""))
    case FileRecord(ev) =>
      KernelModel.FileRecord(ev.(hdr := VisibleHeader(ev.hdr), dfd := 0, flags := 0, mode := 0,
                                 pathA := CString(ev.pathA), pathB := CString(ev.pathB)))
    case SyscallRecord(ev) => KernelModel.SyscallRecord(ev.(hdr := VisibleHeader(ev.hdr), arg0 := 0, arg1 := 0, arg2 := 0))
    case NetworkRecord(ev) => KernelModel.NetworkRecord(VisibleNetwork(ev))
  }

  function Visible(c: CanonicalEvent): Printed
    requires c.raw.Some?
  {
    Printed(VisibleRecord(c.raw.value), RichOf(c.subjectProcess), c.subjectId, c.objectId)
  }

  // ---- the round trip -----------------------------------------------------

  /** Every pair of `block` can be looked up in the object. */
  predicate Found(ms: Members, block: seq<Pair>) {
    forall i :: 0 <= i < |block| ==> Lookup(ms, block[i].0) == Some(block[i].1)
  }

  lemma BlockIsFound(before: seq<Pair>, block: seq<Pair>, after: seq<Pair>)
    requires DistinctNames(before + block + after)
    ensures Found(ListOf(before + block + after), block)
  {
    hide DistinctNames, ListOf, Lookup;
    var ps := before + block + after;
    forall i | 0 <= i < |block|
      ensures Lookup(ListOf(ps), block[i].0) == Some(block[i].1)
    {
      LookupFinds(ps, |before| + i);
      assert ps[|before| + i] == block[i];
    }
  }

  lemma HeaderReadsBack(ms: Members, h: Header)
    requires Found(ms, HeaderPairs(h))
    ensures ReadHeader(ms) == VisibleHeader(h)
  {
    hide Lookup, CString;
    var ps := HeaderPairs(h);
    assert ps[0].0 == "ts_ns" && ps[1].0 == "type" && ps[2].0 == "pid" && ps[3].0 == "tgid";
    assert ps[4].0 == "ppid" && ps[5].0 == "uid" && ps[6].0 == "gid" && ps[7].0 == "comm";
  }

  lemma RichReadsBack(ms: Members, h: Header, r: Rich, subjectId: nat)
    requires Found(ms, IdentityPairs(h, r, subjectId)) && DistinctNames(InfoPairs(h, r))
    ensures ReadRich(ms) == r && NatAt(ms, "entity_id") == subjectId
  {
    hide CString, DistinctNames, Lookup;
    var ps, info := IdentityPairs(h, r, subjectId), InfoPairs(h, r);
    assert ps[0].0 == "process_info" && ps[1].0 == "entity_id";
    assert [] + info + [] == info;
    BlockIsFound([], info, []);
    assert info[6].0 == "exec_path" && info[7].0 == "cmdline" && info[8].0 == "cwd";
    assert info[9].0 == "parent_comm" && info[10].0 == "start_time_ticks";
  }

  lemma InfoIsRepeated(ms: Members, h: Header, r: Rich, subjectId: nat)
    requires Found(ms, HeaderPairs(h)) && Found(ms, IdentityPairs(h, r, subjectId)) && DistinctNames(InfoPairs(h, r))
    ensures InfoAgrees(ms)
  {
    hide CString, DistinctNames, Lookup;
    var hs, ps, info := HeaderPairs(h), IdentityPairs(h, r, subjectId), InfoPairs(h, r);
    assert hs[2].0 == "pid" && hs[3].0 == "tgid" && hs[4].0 == "ppid" && hs[5].0 == "uid" && hs[6].0 == "gid" && hs[7].0 == "comm";
    assert ps[0].0 == "process_info";
    assert [] + info + [] == info;
    BlockIsFound([], info, []);
    assert info[0].0 == "pid" && info[1].0 == "tgid" && info[2].0 == "ppid" && info[3].0 == "uid" && info[4].0 == "gid";
    assert info[5].0 == "comm";
  }

  lemma ProcessIsRepeated(ms: Members, ev: ProcessEvent, r: Rich)
    requires Found(ms, ProcessPairs(ev, r)) && ReadRich(ms) == r
    ensures FamilyAgrees(ms)
  {
    hide CString, Lookup, ReadHeader, ReadRich;
    var ps := ProcessPairs(ev, r);
    assert ps[1].0 == "exit_code" && ps[3].0 == "filename" && ps[4].0 == "exec_path" && ps[5].0 == "cmdline";
    assert ps[6].0 == "cwd" && ps[7].0 == "parent_comm" && ps[8].0 == "start_time_ticks";
  }

  lemma NameFitsKind(ms: Members, ev: NetworkEvent)
    requires Found(ms, CallPairs(ev)) && ReadRecord(ms) == VisibleRecord(KernelModel.NetworkRecord(ev))
    ensures FamilyAgrees(ms)
  {
    hide Lookup, ReadRecord, NetworkEventKindToString;
    var ps := CallPairs(ev);
    assert ps[0].0 == "event_name";
  }

  lemma FamilyIsRepeated(ms: Members, raw: Record, r: Rich)
    requires Found(ms, FamilyPairs(raw, r)) && ReadRich(ms) == r && ReadRecord(ms) == VisibleRecord(raw)
    ensures FamilyAgrees(ms)
  {
    hide ReadRecord, ReadRich, ProcessPairs, CallPairs, FlowPairs, EndpointPairs, VisibleHeader, FamilyAgrees, Lookup;
    match raw {
      case ProcessRecord(ev) => ProcessIsRepeated(ms, ev, r);
      case NetworkRecord(ev) =>
        SplitNetwork(ms, ev, r);
        NameFitsKind(ms, ev);
      case FileRecord(_) => OthersRepeatNothing(ms);
      case SyscallRecord(_) => OthersRepeatNothing(ms);
    }
  }

  lemma OthersRepeatNothing(ms: Members)
    requires ReadRecord(ms).FileRecord? || ReadRecord(ms).SyscallRecord?
    ensures FamilyAgrees(ms)
  {
    hide ReadRecord;
  }

  lemma ProcessReadsBack(ms: Members, ev: ProcessEvent, r: Rich)
    requires Found(ms, ProcessPairs(ev, r)) && ReadHeader(ms) == VisibleHeader(ev.hdr)
    ensures ReadRecord(ms) == VisibleRecord(KernelModel.ProcessRecord(ev))
  {
    hide CString, Lookup, ReadHeader, VisibleHeader;
    var ps := ProcessPairs(ev, r);
    assert ps[0].0 == "kind" && ps[1].0 == "exit_code" && ps[2].0 == "child_pid";
  }

  lemma FileReadsBack(ms: Members, ev: FileEvent)
    requires Found(ms, FilePairs(ev)) && Lookup(ms, "exit_code") == None && ReadHeader(ms) == VisibleHeader(ev.hdr)
    ensures ReadRecord(ms) == VisibleRecord(KernelModel.FileRecord(ev))
  {
    hide CString, Lookup, ReadHeader, VisibleHeader;
    var ps := FilePairs(ev);
    assert ps[0].0 == "kind" && ps[1].0 == "ret" && ps[2].0 == "path_a" && ps[3].0 == "path_b";
  }

  lemma SyscallReadsBack(ms: Members, ev: SyscallEvent)
    requires Found(ms, SyscallPairs(ev)) && ReadHeader(ms) == VisibleHeader(ev.hdr)
    requires Lookup(ms, "exit_code") == None && Lookup(ms, "path_a") == None
    ensures ReadRecord(ms) == VisibleRecord(KernelModel.SyscallRecord(ev))
  {
    hide CString, Lookup, ReadHeader, VisibleHeader;
    var ps := SyscallPairs(ev);
    assert ps[0].0 == "is_enter" && ps[1].0 == "syscall_nr" && ps[2].0 == "ret";
  }

  lemma EndpointReadsBack(ms: Members, side: string, ep: Endpoint)
    requires Found(ms, EndpointPairs(side, ep))
    ensures ReadEndpoint(ms, side) == VisibleEndpoint(ep)
  {
    hide CString, Lookup;
    var ps := EndpointPairs(side, ep);
    assert ps[0].0 == side + "_family" && ps[1].0 == side + "_port" && ps[2].0 == side + "_addr_len";
    assert ps[3].0 == side + "_addr" && ps[4].0 == side + "_path";
    HexReadsBack(PrintedAddr(ep));
  }

  lemma CallReadsBack(ms: Members, ev: NetworkEvent)
    requires Found(ms, CallPairs(ev))
    ensures U32At(ms, "kind") == ev.kind && S32At(ms, "fd") == ev.fd && S32At(ms, "peer_fd") == ev.peerFd
    ensures S32At(ms, "ret") == ev.ret && S32At(ms, "domain") == ev.domain && S32At(ms, "sock_type") == ev.sockType
    ensures S32At(ms, "protocol") == ev.protocol && S32At(ms, "flags") == ev.flags && S32At(ms, "backlog") == ev.backlog
    ensures S32At(ms, "how") == ev.how && S32At(ms, "opt_level") == ev.optLevel && S32At(ms, "opt_name") == ev.optName
    ensures S32At(ms, "opt_len") == ev.optLen && BytesOf(TextAt(ms, "optval_prefix")) == ev.optvalPrefix
  {
    hide Lookup, NetworkEventKindToString;
    var ps := CallPairs(ev);
    assert ps[1].0 == "kind" && ps[2].0 == "fd" && ps[3].0 == "peer_fd" && ps[4].0 == "ret" && ps[5].0 == "domain";
    assert ps[6].0 == "sock_type" && ps[7].0 == "protocol" && ps[8].0 == "flags" && ps[9].0 == "backlog";
    assert ps[10].0 == "how" && ps[11].0 == "opt_level" && ps[12].0 == "opt_name" && ps[13].0 == "opt_len";
    assert ps[14].0 == "optval_prefix";
    assert BytesOf(CharsOf(ev.optvalPrefix)) == ev.optvalPrefix;
  }

  lemma FlowReadsBack(ms: Members, ev: NetworkEvent)
    requires Found(ms, FlowPairs(ev))
    ensures U64At(ms, "flow_id") == ev.flowId && U64At(ms, "socket_id") == ev.socketId
    ensures DirectionOfLabel(TextAt(ms, "direction")) == if 1 <= ev.direction <= 2 then ev.direction else 0
    ensures TransportOfLabel(TextAt(ms, "transport")) == if 1 <= ev.transport <= 4 then ev.transport else 0
    ensures U64At(ms, "bytes_requested") == ev.bytesRequested && U64At(ms, "bytes_transferred") == ev.bytesTransferred
    ensures U32At(ms, "bytes_captured") == ev.bytesCaptured && U32At(ms, "bytes_truncated") == ev.bytesTruncated
  {
    hide Lookup;
    var ps := FlowPairs(ev);
    assert ps[0].0 == "flow_id" && ps[1].0 == "socket_id" && ps[2].0 == "direction" && ps[3].0 == "transport";
    assert ps[4].0 == "bytes_requested" && ps[5].0 == "bytes_transferred";
    assert ps[6].0 == "bytes_captured" && ps[7].0 == "bytes_truncated";
  }

  lemma NetworkReadsBack(ms: Members, ev: NetworkEvent)
    requires Found(ms, CallPairs(ev)) && Found(ms, FlowPairs(ev))
    requires Found(ms, EndpointPairs("local", ev.local)) && Found(ms, EndpointPairs("remote", ev.remote))
    requires ReadHeader(ms) == VisibleHeader(ev.hdr)
    requires Lookup(ms, "exit_code") == None && Lookup(ms, "path_a") == None && Lookup(ms, "syscall_nr") == None
    ensures ReadRecord(ms) == VisibleRecord(KernelModel.NetworkRecord(ev))
  {
    hide Lookup, Found, CallPairs, FlowPairs, EndpointPairs, VisibleHeader, ReadHeader, VisibleEndpoint, ReadEndpoint;
    hide U32At, U64At, S32At, TextAt, BytesOf, DirectionOfLabel, TransportOfLabel;
    CallReadsBack(ms, ev);
    FlowReadsBack(ms, ev);
    EndpointReadsBack(ms, "local", ev.local);
    EndpointReadsBack(ms, "remote", ev.remote);
  }

  // ---- members a family does not have -------------------------------------

  lemma Lacks(ps: seq<Pair>, name: string, ns: seq<string>)
    requires Names(ps) == ns && name !in ns
    ensures Lookup(ListOf(ps), name) == None
  {
    forall i | 0 <= i < |ps|
      ensures ps[i].0 != name
    {
      assert Names(ps)[i] == ps[i].0;
      assert ns[i] in ns;
    }
    LookupMisses(ps, name);
  }

  lemma MarkersOutsideCommon()
    ensures "exit_code" !in COMMON_NAMES && "path_a" !in COMMON_NAMES && "syscall_nr" !in COMMON_NAMES
    ensures "exit_code" !in OBJECT_NAME && "path_a" !in OBJECT_NAME && "syscall_nr" !in OBJECT_NAME
    ensures "exit_code" !in FILE_NAMES && "exit_code" !in SYSCALL_NAMES && "path_a" !in SYSCALL_NAMES
  {}

  lemma MarkersOutsideNetwork()
    ensures "exit_code" !in CALL_NAMES && "path_a" !in CALL_NAMES && "syscall_nr" !in CALL_NAMES
    ensures "exit_code" !in FLOW_NAMES && "path_a" !in FLOW_NAMES && "syscall_nr" !in FLOW_NAMES
  {}

  lemma MarkersOutsideEndpoints()
    ensures "exit_code" !in ENDPOINT_NAMES && "path_a" !in ENDPOINT_NAMES && "syscall_nr" !in ENDPOINT_NAMES
  {}

  predicate LacksMarkers(raw: Record, ms: Members) {
    && (!raw.ProcessRecord? ==> Lookup(ms, "exit_code") == None)
    && (raw.SyscallRecord? || raw.NetworkRecord? ==> Lookup(ms, "path_a") == None)
    && (raw.NetworkRecord? ==> Lookup(ms, "syscall_nr") == None)
  }

  lemma MarkersTellFamilies(raw: Record, r: Rich, subjectId: nat, objectId: nat)
    ensures LacksMarkers(raw, ListOf(EventPairs(raw, r, subjectId, objectId)))
  {
    hide EventPairs, COMMON_NAMES, OBJECT_NAME, FILE_NAMES, SYSCALL_NAMES, CALL_NAMES, FLOW_NAMES, ENDPOINT_NAMES;
    hide Names, Lookup, ListOf;
    var ps := EventPairs(raw, r, subjectId, objectId);
    EventNamesOf(raw, r, subjectId, objectId);
    MarkersOutsideCommon();
    MarkersOutsideNetwork();
    MarkersOutsideEndpoints();
    if !raw.ProcessRecord? { Lacks(ps, "exit_code", AllNames(raw, objectId)); }
    if raw.SyscallRecord? || raw.NetworkRecord? { Lacks(ps, "path_a", AllNames(raw, objectId)); }
    if raw.NetworkRecord? { Lacks(ps, "syscall_nr", AllNames(raw, objectId)); }
  }

  lemma NoObjectNameInFamilies(raw: Record)
    ensures "object_entity_id" !in AllNames(raw, 0)
  {
    hide COMMON_NAMES, OBJECT_NAME, FamilyNames;
    assert OBJECT_NAME[0] == "object_entity_id" by { ObjectNameIs(); }
    CommonNamesDiffer();
    FamilyNamesDiffer(raw);
  }

  lemma ObjectNameIs()
    ensures OBJECT_NAME == ["object_entity_id"]
  {}

  lemma ObjectIdReadsBack(raw: Record, r: Rich, subjectId: nat, objectId: nat)
    ensures NatAt(ListOf(EventPairs(raw, r, subjectId, objectId)), "object_entity_id") == objectId
  {
    hide EventPairs, HeaderPairs, IdentityPairs, FamilyPairs, DistinctNames, HeaderOf, AllNames, Lookup, ListOf;
    var ps := EventPairs(raw, r, subjectId, objectId);
    if objectId == 0 {
      EventNamesOf(raw, r, subjectId, 0);
      NoObjectNameInFamilies(raw);
      Lacks(ps, "object_entity_id", AllNames(raw, 0));
    } else {
      NamesAreUnique(raw, r, subjectId, objectId);
      SplitEvent(raw, r, subjectId, objectId);
      var o := ObjectPairs(objectId);
      assert o[0] == ("object_entity_id", Num(objectId));
      BlockIsFound(HeaderPairs(HeaderOf(raw)) + IdentityPairs(HeaderOf(raw), r, subjectId), o, FamilyPairs(raw, r));
    }
  }

  /** The event's members, cut at each block. */
  lemma SplitEvent(raw: Record, r: Rich, subjectId: nat, objectId: nat)
    ensures var h, i, o, f := HeaderPairs(HeaderOf(raw)), IdentityPairs(HeaderOf(raw), r, subjectId), ObjectPairs(objectId), FamilyPairs(raw, r);
            var ps := EventPairs(raw, r, subjectId, objectId);
            ps == [] + h + (i + o + f) && ps == h + i + (o + f) && ps == (h + i) + o + f && ps == (h + i + o) + f + []
  {
    hide HeaderPairs, IdentityPairs, ObjectPairs, FamilyPairs, HeaderOf;
  }

  lemma RecordReadsBack(raw: Record, r: Rich, subjectId: nat, objectId: nat)
    ensures var ms := ListOf(EventPairs(raw, r, subjectId, objectId));
            && ReadRecord(ms) == VisibleRecord(raw) && ReadRich(ms) == r && NatAt(ms, "entity_id") == subjectId
            && InfoAgrees(ms) && FamilyAgrees(ms)
  {
    hide InfoAgrees, FamilyAgrees, EventPairs, HeaderPairs, IdentityPairs, ObjectPairs, FamilyPairs, DistinctNames, ListOf, Found;
    hide ReadRecord, ReadRich, NatAt, VisibleRecord, ReadHeader, VisibleHeader, Lookup;
    var h, i, o, f := HeaderPairs(HeaderOf(raw)), IdentityPairs(HeaderOf(raw), r, subjectId), ObjectPairs(objectId), FamilyPairs(raw, r);
    var ps := EventPairs(raw, r, subjectId, objectId);
    var ms := ListOf(ps);
    SplitEvent(raw, r, subjectId, objectId);
    NamesAreUnique(raw, r, subjectId, objectId);
    BlockIsFound([], h, i + o + f);
    BlockIsFound(h, i, o + f);
    BlockIsFound(h + i + o, f, []);
    HeaderReadsBack(ms, HeaderOf(raw));
    RichReadsBack(ms, HeaderOf(raw), r, subjectId);
    MarkersTellFamilies(raw, r, subjectId, objectId);
    FamilyReadsBack(ms, raw, r);
    InfoIsRepeated(ms, HeaderOf(raw), r, subjectId);
    FamilyIsRepeated(ms, raw, r);
  }

  lemma FamilyReadsBack(ms: Members, raw: Record, r: Rich)
    requires Found(ms, FamilyPairs(raw, r)) && ReadHeader(ms) == VisibleHeader(HeaderOf(raw)) && LacksMarkers(raw, ms)
    ensures ReadRecord(ms) == VisibleRecord(raw)
  {
    hide ReadRecord, VisibleRecord, ReadHeader, VisibleHeader, Lookup, ProcessPairs, FilePairs, SyscallPairs;
    match raw {
      case ProcessRecord(ev) => ProcessReadsBack(ms, ev, r);
      case FileRecord(ev) => FileReadsBack(ms, ev);
      case SyscallRecord(ev) => SyscallReadsBack(ms, ev);
      case NetworkRecord(ev) =>
        SplitNetwork(ms, ev, r);
        NetworkReadsBack(ms, ev);
    }
  }

  lemma SplitNetwork(ms: Members, ev: NetworkEvent, r: Rich)
    requires Found(ms, FamilyPairs(KernelModel.NetworkRecord(ev), r))
    ensures Found(ms, CallPairs(ev)) && Found(ms, FlowPairs(ev))
    ensures Found(ms, EndpointPairs("local", ev.local)) && Found(ms, EndpointPairs("remote", ev.remote))
  {
    hide CallPairs, FlowPairs, EndpointPairs, Found;
    var c, f, l, e := CallPairs(ev), FlowPairs(ev), EndpointPairs("local", ev.local), EndpointPairs("remote", ev.remote);
    FoundParts(ms, c + f + l, e);
    FoundParts(ms, c + f, l);
    FoundParts(ms, c, f);
  }

  lemma FoundParts(ms: Members, a: seq<Pair>, b: seq<Pair>)
    requires Found(ms, a + b)
    ensures Found(ms, a) && Found(ms, b)
  {
    forall i | 0 <= i < |a| ensures Lookup(ms, a[i].0) == Some(a[i].1) { assert (a + b)[i] == a[i]; }
    forall i | 0 <= i < |b| ensures Lookup(ms, b[i].0) == Some(b[i].1) { assert (a + b)[|a| + i] == b[i]; }
  }

  /** A printed line is one JSON object from which a reader gets every printed field back. */
  lemma LineReadsBack(c: CanonicalEvent)
    requires c.raw.Some?
    ensures ReadLine(Line(c)) == Some(Visible(c))
  {
    hide ReadRecord, ReadRich, NatAt, VisibleRecord, RichOf, EventPairs, ListOf, Render, ReadValue, InfoAgrees, FamilyAgrees;
    var r := RichOf(c.subjectProcess);
    var ms := ListOf(EventPairs(c.raw.value, r, c.subjectId, c.objectId));
    RenderReadsBack(Obj(ms), "\n");
    RecordReadsBack(c.raw.value, r, c.subjectId, c.objectId);
    ObjectIdReadsBack(c.raw.value, r, c.subjectId, c.objectId);
  }

  lemma HeaderPairsShowTheVisible(g: Header, h: Header, r: Rich, subjectId: nat)
    requires VisibleHeader(g) == VisibleHeader(h)
    ensures HeaderPairs(g) == HeaderPairs(h) && IdentityPairs(g, r, subjectId) == IdentityPairs(h, r, subjectId)
  {
    hide CString, ListOf;
  }

  lemma NetworkPairsShowTheVisible(a: NetworkEvent, b: NetworkEvent)
    requires VisibleNetwork(a) == VisibleNetwork(b)
    ensures CallPairs(a) == CallPairs(b) && FlowPairs(a) == FlowPairs(b)
    ensures EndpointPairs("local", a.local) == EndpointPairs("local", b.local)
    ensures EndpointPairs("remote", a.remote) == EndpointPairs("remote", b.remote)
  {
    hide CString, NetworkEventKindToString, CharsOf, PrintedAddr, Hex;
  }

  lemma PairsShowTheVisible(a: Record, b: Record, r: Rich)
    requires VisibleRecord(a) == VisibleRecord(b)
    ensures VisibleHeader(HeaderOf(a)) == VisibleHeader(HeaderOf(b)) && FamilyPairs(a, r) == FamilyPairs(b, r)
  {
    hide CString, VisibleHeader, VisibleEndpoint, CallPairs, FlowPairs, EndpointPairs;
    if a.NetworkRecord? {
      NetworkPairsShowTheVisible(a.netRec, b.netRec);
    }
  }

  lemma LineShowsTheVisible(c: CanonicalEvent, d: CanonicalEvent)
    requires c.raw.Some? && d.raw.Some? && Visible(c) == Visible(d)
    ensures Line(c) == Line(d)
  {
    hide RichOf, VisibleRecord, VisibleHeader, HeaderPairs, IdentityPairs, FamilyPairs, Render, ListOf;
    PairsShowTheVisible(c.raw.value, d.raw.value, RichOf(c.subjectProcess));
    HeaderPairsShowTheVisible(HeaderOf(c.raw.value), HeaderOf(d.raw.value), RichOf(c.subjectProcess), c.subjectId);
  }

  /** Two events print the same line exactly when they agree on every printed field. */
  lemma SameLineIff(c: CanonicalEvent, d: CanonicalEvent)
    requires c.raw.Some? && d.raw.Some?
    ensures Line(c) == Line(d) <==> Visible(c) == Visible(d)
  {
    hide Line, Visible;
    LineReadsBack(c);
    LineReadsBack(d);
    if Visible(c) == Visible(d) {
      LineShowsTheVisible(c, d);
    }
  }

  /** A line ends in its only line feed. */
  lemma LineHasOneLineFeed(c: CanonicalEvent)
    requires c.raw.Some?
    ensures var t := Line(c); t != "" && t[|t| - 1] == '\n' && '\n' !in t[..|t| - 1]
  {
    hide EventPairs, ListOf, Render;
    var body := Render(Obj(ListOf(EventPairs(c.raw.value, RichOf(c.subjectProcess), c.subjectId, c.objectId))));
    RenderIsPrintable(Obj(ListOf(EventPairs(c.raw.value, RichOf(c.subjectProcess), c.subjectId, c.objectId))));
    assert Line(c)[..|Line(c)| - 1] == body;
  }
}
