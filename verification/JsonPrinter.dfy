/**
 * The serializer as the program has it: members are appended to one output text, one after the
 * other (src/sinks/json_sink.cpp). Every method is tied to the members JsonRecord lists.
 */
module JsonPrinter {
  import opened Primitives
  import opened EventSchema
  import opened JsonText
  import opened JsonValue
  import opened JsonRecord
  import opened Sockaddr

  /** An output stream inside an object that is not yet closed. */
  class ObjectText {
    var text: string
    ghost var printed: seq<Pair>

    ghost predicate Valid()
      reads this
    {
      text == "{" + Joined(printed)
    }

    constructor ()
      ensures Valid() && printed == []
    {
      text, printed := "{", [];
    }

    /** `,"name":` and the text of a value. */
    method Member(name: string, valueText: string, ghost value: Json)
      requires Valid() && Plain(name) && valueText == Render(value)
      modifies this
      ensures Valid() && printed == old(printed) + [(name, value)]
    {
      hide Render, PairText, Escape;
      ghost var p := (name, value);
      PlainEscapesToItself(name);
      MemberText(name, value);
      JoinedAppend(printed, p);
      if text != "{" {
        text := text + ",";
      }
      text := text + "\"" + name + "\":" + valueText;
      printed := printed + [p];
    }

    method Number(name: string, n: int)
      requires Valid() && Plain(name)
      modifies this
      ensures Valid() && printed == old(printed) + [(name, Num(n))]
    {
      Member(name, IntText(n), Num(n));
    }

    /** A quoted member whose text is escaped already. */
    method Text(name: string, escaped: string, ghost meant: string)
      requires Valid() && Plain(name) && escaped == Escape(meant)
      modifies this
      ensures Valid() && printed == old(printed) + [(name, Str(meant))]
    {
      Member(name, "\"" + escaped + "\"", Str(meant));
    }

    /** A quoted member of ordinary characters. */
    method Word(name: string, word: string)
      requires Valid() && Plain(name) && Plain(word)
      modifies this
      ensures Valid() && printed == old(printed) + [(name, Str(word))]
    {
      PlainEscapesToItself(word);
      Text(name, word, word);
    }

    method Object(name: string, inner: ObjectText)
      requires Valid() && Plain(name) && inner.Valid() && inner != this
      modifies this
      ensures Valid() && printed == old(printed) + [(name, Obj(ListOf(inner.printed)))]
    {
      JoinedIsRendered(inner.printed);
      Member(name, inner.text + "}", Obj(ListOf(inner.printed)));
    }
  }

  lemma MemberText(name: string, value: Json)
    requires Escape(name) == name
    ensures PairText((name, value)) == "\"" + name + "\":" + Render(value)
  {
    hide Escape, Render;
    assert [QUOTE] == "\"";
    assert PairText((name, value)) == [QUOTE] + name + [QUOTE] + ":" + Render(value);
    assert "\"" + name + "\":" == [QUOTE] + name + [QUOTE] + ":";
  }

  lemma JoinedAppend(ps: seq<Pair>, p: Pair)
    ensures Joined(ps + [p]) == if ps == [] then PairText(p) else Joined(ps) + "," + PairText(p)
    ensures ps != [] ==> Joined(ps) != ""
  {
    hide PairText;
    assert (ps + [p])[..|ps|] == ps;
    if ps != [] {
      assert PairText(ps[|ps| - 1]) != "" by { PairTextIsNotEmpty(ps[|ps| - 1]); }
    }
  }

  lemma PairTextIsNotEmpty(p: Pair)
    ensures PairText(p) != ""
  {}

  /** A NUL-terminated field of the record. */
  method EscapedField(field: string) returns (out: string)
    ensures out == Escape(CString(field))
  {
    out := JsonEscapeCString(Some(field + [NUL]));
    CStringOfTerminated(field);
  }

  lemma CStringOfTerminated(field: string)
    ensures CString(field + [NUL]) == CString(field)
  {
    CStringFacts(field);
    CStringIsUnique(field + [NUL], CString(field));
  }

  lemma HeaderNamesArePlain()
    ensures Plain("ts_ns") && Plain("type") && Plain("pid") && Plain("tgid") && Plain("ppid") && Plain("uid")
    ensures Plain("gid") && Plain("comm") && Plain("process_info")
  {}

  method WriteHeader(out: ObjectText, h: Header)
    requires out.Valid()
    modifies out
    ensures out.Valid() && out.printed == old(out.printed) + HeaderPairs(h)
  {
    hide Escape, CString, ObjectText.Valid, EventTypeToString, Plain;
    HeaderNamesArePlain();
    TypeLabelsArePlain(h.etype);
    out.Number("ts_ns", h.tsNs);
    out.Word("type", EventTypeToString(h.etype));
    out.Number("pid", h.pid);
    out.Number("tgid", h.tgid);
    out.Number("ppid", h.ppid);
    out.Number("uid", h.uid);
    out.Number("gid", h.gid);
    var comm := EscapedField(h.comm);
    out.Text("comm", comm, CString(h.comm));
  }

  /** The block shared by every event: identity from the header, the rest from the registry entity. */
  method WriteProcessInfo(out: ObjectText, h: Header, pe: Option<ProcessEntity>)
    requires out.Valid()
    modifies out
    ensures out.Valid()
    ensures out.printed == old(out.printed) + [("process_info", Obj(ListOf(InfoPairs(h, RichOf(pe)))))]
  {
    hide Escape, CString, ObjectText.Valid, RichOf, ListOf, Plain;
    HeaderNamesArePlain();
    var r := RichOf(pe);
    var info := new ObjectText();
    info.Number("pid", h.pid);
    info.Number("tgid", h.tgid);
    info.Number("ppid", h.ppid);
    info.Number("uid", h.uid);
    info.Number("gid", h.gid);
    var comm := EscapedField(h.comm);
    info.Text("comm", comm, CString(h.comm));
    WriteRich(info, r);
    assert info.printed == InfoPairs(h, r);
    out.Object("process_info", info);
  }

  method WriteRich(out: ObjectText, r: Rich)
    requires out.Valid()
    modifies out
    ensures out.Valid()
    ensures out.printed == old(out.printed) + [("exec_path", Str(r.execPath)), ("cmdline", Str(r.cmdline)), ("cwd", Str(r.cwd)),
                                               ("parent_comm", Str(r.parentComm)), ("start_time_ticks", Num(r.startTimeTicks))]
  {
    hide Escape, ObjectText.Valid;
    var t := JsonEscape(r.execPath);
    out.Text("exec_path", t, r.execPath);
    t := JsonEscape(r.cmdline);
    out.Text("cmdline", t, r.cmdline);
    t := JsonEscape(r.cwd);
    out.Text("cwd", t, r.cwd);
    t := JsonEscape(r.parentComm);
    out.Text("parent_comm", t, r.parentComm);
    out.Number("start_time_ticks", r.startTimeTicks);
  }

  lemma SideNamesArePlain(side: string)
    requires side == "local" || side == "remote"
    ensures Plain(side + "_family") && Plain(side + "_port") && Plain(side + "_addr_len")
    ensures Plain(side + "_addr") && Plain(side + "_path")
  {
    assert Plain(side) && Plain("_family") && Plain("_port") && Plain("_addr_len") && Plain("_addr") && Plain("_path");
    hide Plain;
    PlainAppend(side, "_family");
    PlainAppend(side, "_port");
    PlainAppend(side, "_addr_len");
    PlainAppend(side, "_addr");
    PlainAppend(side, "_path");
  }

  lemma PlainAppend(s: string, t: string)
    requires Plain(s) && Plain(t)
    ensures Plain(s + t)
  {}

  method WriteNetworkEndpoint(out: ObjectText, side: string, ep: Endpoint)
    requires out.Valid() && (side == "local" || side == "remote") && |ep.addr| == 16
    modifies out
    ensures out.Valid() && out.printed == old(out.printed) + EndpointPairs(side, ep)
  {
    hide Escape, Hex, CString, ObjectText.Valid, Plain;
    SideNamesArePlain(side);
    var addrLen := if ep.addrLen < 16 then ep.addrLen else 16;
    out.Number(side + "_family", ep.family);
    out.Number(side + "_port", ep.port);
    out.Number(side + "_addr_len", ep.addrLen);
    var hex := BytesToHex(Some(ep.addr), addrLen);
    assert ep.addr[..addrLen] == PrintedAddr(ep);
    HexIsPlain(PrintedAddr(ep));
    out.Word(side + "_addr", hex);
    var path := EscapedField(ep.path);
    out.Text(side + "_path", path, CString(ep.path));
  }

  lemma {:induction false} HexIsPlain(b: seq<byte>)
    ensures Plain(Hex(b))
  {
    if b != [] {
      HexIsPlain(b[1..]);
      HexDigitReadsBack(b[0] / 16);
      HexDigitReadsBack(b[0] % 16);
    }
  }

  method WriteProcessEvent(out: ObjectText, ev: ProcessEvent, pe: Option<ProcessEntity>)
    requires out.Valid()
    modifies out
    ensures out.Valid() && out.printed == old(out.printed) + ProcessPairs(ev, RichOf(pe))
  {
    hide Escape, ObjectText.Valid, RichOf;
    var r := RichOf(pe);
    out.Number("kind", ev.kind);
    out.Number("exit_code", ev.exitCode);
    out.Number("child_pid", ev.childPid);
    var t := JsonEscape(r.execPath);
    out.Text("filename", t, r.execPath);
    WriteRich(out, r);
  }

  method WriteFileEvent(out: ObjectText, ev: FileEvent)
    requires out.Valid()
    modifies out
    ensures out.Valid() && out.printed == old(out.printed) + FilePairs(ev)
  {
    hide Escape, CString, ObjectText.Valid;
    out.Number("kind", ev.kind);
    out.Number("ret", ev.ret);
    var a := EscapedField(ev.pathA);
    out.Text("path_a", a, CString(ev.pathA));
    var b := EscapedField(ev.pathB);
    out.Text("path_b", b, CString(ev.pathB));
  }

  method WriteSyscallEvent(out: ObjectText, ev: SyscallEvent)
    requires out.Valid()
    modifies out
    ensures out.Valid() && out.printed == old(out.printed) + SyscallPairs(ev)
  {
    hide ObjectText.Valid;
    out.Number("is_enter", ev.isEnter);
    out.Number("syscall_nr", ev.syscallNr);
    out.Number("ret", ev.ret);
  }

  method WriteCall(out: ObjectText, ev: NetworkEvent)
    requires out.Valid()
    modifies out
    ensures out.Valid() && out.printed == old(out.printed) + CallPairs(ev)
  {
    hide Escape, ObjectText.Valid, NetworkEventKindToString, CharsOf, Plain;
    KindNamesArePlain(ev.kind);
    CallNamesArePlain();
    out.Word("event_name", NetworkEventKindToString(ev.kind));
    out.Number("kind", ev.kind);
    out.Number("fd", ev.fd);
    out.Number("peer_fd", ev.peerFd);
    out.Number("ret", ev.ret);
    out.Number("domain", ev.domain);
    out.Number("sock_type", ev.sockType);
    out.Number("protocol", ev.protocol);
    WriteOptions(out, ev);
  }

  method WriteOptions(out: ObjectText, ev: NetworkEvent)
    requires out.Valid()
    modifies out
    ensures out.Valid()
    ensures out.printed == old(out.printed) +
      [("flags", Num(ev.flags)), ("backlog", Num(ev.backlog)), ("how", Num(ev.how)), ("opt_level", Num(ev.optLevel)),
       ("opt_name", Num(ev.optName)), ("opt_len", Num(ev.optLen)), ("optval_prefix", Str(CharsOf(ev.optvalPrefix)))]
  {
    hide Escape, ObjectText.Valid, CharsOf, Plain;
    OptionNamesArePlain();
    out.Number("flags", ev.flags);
    out.Number("backlog", ev.backlog);
    out.Number("how", ev.how);
    out.Number("opt_level", ev.optLevel);
    out.Number("opt_name", ev.optName);
    out.Number("opt_len", ev.optLen);
    var optval := JsonEscape(CharsOf(ev.optvalPrefix));
    out.Text("optval_prefix", optval, CharsOf(ev.optvalPrefix));
  }

  lemma KindNamesArePlain(kind: u32)
    ensures Plain(NetworkEventKindToString(kind))
  {
    hide Plain, KIND_NAMES;
    FirstKindNamesArePlain();
    MiddleKindNamesArePlain();
    LastKindNamesArePlain();
    UnknownIsPlain();
  }

  lemma FirstKindNamesArePlain()
    ensures forall i :: 0 <= i < 8 ==> Plain(KIND_NAMES[i])
  {}

  lemma MiddleKindNamesArePlain()
    ensures forall i :: 8 <= i < 16 ==> Plain(KIND_NAMES[i])
  {}

  lemma LastKindNamesArePlain()
    ensures forall i :: 16 <= i < 23 ==> Plain(KIND_NAMES[i])
  {}

  lemma UnknownIsPlain()
    ensures Plain("unknown") && |KIND_NAMES| == 23
  {}

  lemma CallNamesArePlain()
    ensures Plain("event_name") && Plain("kind") && Plain("fd") && Plain("peer_fd") && Plain("ret") && Plain("domain")
    ensures Plain("sock_type") && Plain("protocol")
  {}

  lemma OptionNamesArePlain()
    ensures Plain("flags") && Plain("backlog") && Plain("how") && Plain("opt_level") && Plain("opt_name")
    ensures Plain("opt_len") && Plain("optval_prefix")
  {}

  lemma TypeLabelsArePlain(t: u32)
    ensures Plain(EventTypeToString(t))
  {}

  lemma FlowLabelsArePlain(d: u32, t: u32)
    ensures Plain(NetworkDirectionToString(d)) && Plain(NetworkTransportToString(t))
  {}

  lemma FlowNamesArePlain()
    ensures Plain("flow_id") && Plain("socket_id") && Plain("direction") && Plain("transport")
  {}

  lemma VolumeNamesArePlain()
    ensures Plain("bytes_requested") && Plain("bytes_transferred") && Plain("bytes_captured") && Plain("bytes_truncated")
  {}

  method WriteFlow(out: ObjectText, ev: NetworkEvent)
    requires out.Valid()
    modifies out
    ensures out.Valid() && out.printed == old(out.printed) + FlowPairs(ev)
  {
    hide ObjectText.Valid, NetworkDirectionToString, NetworkTransportToString, Plain;
    FlowLabelsArePlain(ev.direction, ev.transport);
    FlowNamesArePlain();
    VolumeNamesArePlain();
    out.Number("flow_id", ev.flowId);
    out.Number("socket_id", ev.socketId);
    out.Word("direction", NetworkDirectionToString(ev.direction));
    out.Word("transport", NetworkTransportToString(ev.transport));
    out.Number("bytes_requested", ev.bytesRequested);
    out.Number("bytes_transferred", ev.bytesTransferred);
    out.Number("bytes_captured", ev.bytesCaptured);
    out.Number("bytes_truncated", ev.bytesTruncated);
  }

  /** Address fields have the size the schema gives them. */
  predicate WellSized(raw: Record) { raw.NetworkRecord? ==> |raw.netRec.local.addr| == |raw.netRec.remote.addr| == 16 }

  method WriteFamily(out: ObjectText, raw: Record, pe: Option<ProcessEntity>)
    requires out.Valid() && WellSized(raw)
    modifies out
    ensures out.Valid() && out.printed == old(out.printed) + FamilyPairs(raw, RichOf(pe))
  {
    hide ObjectText.Valid, ProcessPairs, FilePairs, SyscallPairs, CallPairs, FlowPairs, EndpointPairs, RichOf;
    match raw {
      case ProcessRecord(ev) => WriteProcessEvent(out, ev, pe);
      case FileRecord(ev) => WriteFileEvent(out, ev);
      case SyscallRecord(ev) => WriteSyscallEvent(out, ev);
      case NetworkRecord(ev) =>
        WriteCall(out, ev);
        WriteFlow(out, ev);
        WriteNetworkEndpoint(out, "local", ev.local);
        WriteNetworkEndpoint(out, "remote", ev.remote);
    }
  }

  method WriteEventBody(out: ObjectText, c: CanonicalEvent)
    requires out.Valid() && out.printed == [] && c.raw.Some? && WellSized(c.raw.value)
    modifies out
    ensures out.Valid() && out.printed == EventPairs(c.raw.value, RichOf(c.subjectProcess), c.subjectId, c.objectId)
  {
    hide ObjectText.Valid, HeaderPairs, InfoPairs, FamilyPairs, RichOf, HeaderOf, ListOf, WellSized;
    var raw := c.raw.value;
    var h := HeaderOf(raw);
    WriteHeader(out, h);
    WriteProcessInfo(out, h, c.subjectProcess);
    out.Number("entity_id", c.subjectId);
    if c.objectId != 0 {
      out.Number("object_entity_id", c.objectId);
    }
    WriteFamily(out, raw, c.subjectProcess);
  }

  /** The whole line `Write` hands to the file. */
  method Serialize(c: CanonicalEvent) returns (line: string)
    requires c.raw.Some? && WellSized(c.raw.value)
    ensures line == Line(c)
  {
    hide EventPairs, ListOf, WellSized, RichOf;
    var out := new ObjectText();
    WriteEventBody(out, c);
    JoinedIsRendered(out.printed);
    line := out.text + "}\n";
    assert "}\n" == "}" + "\n";
  }
}
