/**
 * The decoder: which byte strings it accepts and what it makes of them
 * (src/decoder/decoder.cpp, include/event_schema.h).
 */
module Decoder {
  import opened Primitives
  import opened EventSchema
  import opened WireFormat
  import KernelModel
  import JsonRecord

  type Record = KernelModel.Record

  /** The process fields that the other modules do not use: copied with the record. */
  datatype ProcessExtras = ProcessExtras(filename: string, cmdline: string, cwd: string, parentComm: string,
                                         startTimeTicks: u64)

  const NO_EXTRAS: ProcessExtras := ProcessExtras("", "", "", "", 0)

  datatype EventVariant = EventVariant(record: Record, extras: ProcessExtras)

  // ---- what the producer lays out -----------------------------------------

  function U32Slot(at: nat, n: u32): Slot { Slot(at, 4, 4, U32Bytes(n)) }
  function S32Slot(at: nat, n: s32): Slot { Slot(at, 4, 4, S32Bytes(n)) }
  function U64Slot(at: nat, n: u64): Slot { Slot(at, 8, 8, U64Bytes(n)) }
  function S64Slot(at: nat, n: s64): Slot { Slot(at, 8, 8, S64Bytes(n)) }
  function TextSlot(at: nat, s: string, n: nat): Slot { Slot(at, 1, n, CStringBytes(s)) }

  /** The end of a struct of 8-byte alignment. */
  function StructEnd(at: nat): Slot { Slot(at, 8, 0, []) }

  function HeaderSlots(h: Header): seq<Slot> {
    [U64Slot(0, h.tsNs), U32Slot(8, h.etype), U32Slot(12, h.size), U32Slot(16, h.pid), U32Slot(20, h.tgid),
     U32Slot(24, h.ppid), U32Slot(28, h.uid), U32Slot(32, h.gid), TextSlot(36, h.comm, 16), StructEnd(SIZE_HEADER)]
  }

  function ProcessSlots(ev: ProcessEvent, x: ProcessExtras): seq<Slot> {
    [U32Slot(56, ev.kind), U32Slot(60, ev.exitCode), U32Slot(64, ev.childPid), TextSlot(68, x.filename, 256),
     TextSlot(324, ev.execPath, 256), TextSlot(580, x.cmdline, 256), TextSlot(836, x.cwd, 256),
     TextSlot(1092, x.parentComm, 16), U64Slot(1112, x.startTimeTicks), StructEnd(SIZE_PROCESS)]
  }

  function FileSlots(ev: FileEvent): seq<Slot> {
    [U32Slot(56, ev.kind), S32Slot(60, ev.dfd), S32Slot(64, ev.flags), S32Slot(68, ev.mode), S32Slot(72, ev.ret),
     TextSlot(76, ev.pathA, 256), TextSlot(332, ev.pathB, 256), StructEnd(SIZE_FILE)]
  }

  function SyscallSlots(ev: SyscallEvent): seq<Slot> {
    [U32Slot(56, ev.isEnter), S32Slot(60, ev.syscallNr), S64Slot(64, ev.arg0), S64Slot(72, ev.arg1),
     S64Slot(80, ev.arg2), S64Slot(88, ev.ret), StructEnd(SIZE_SYSCALL)]
  }

  function CallSlots(ev: NetworkEvent): seq<Slot> {
    [U32Slot(56, ev.kind), S32Slot(60, ev.fd), S32Slot(64, ev.peerFd), S32Slot(68, ev.ret), S32Slot(72, ev.domain),
     S32Slot(76, ev.sockType), S32Slot(80, ev.protocol), S32Slot(84, ev.flags), S32Slot(88, ev.backlog),
     S32Slot(92, ev.how), S32Slot(96, ev.optLevel), S32Slot(100, ev.optName), S32Slot(104, ev.optLen),
     Slot(108, 1, 16, ev.optvalPrefix)]
  }

  function FlowSlots(ev: NetworkEvent): seq<Slot> {
    [U64Slot(128, ev.flowId), U64Slot(136, ev.socketId), U32Slot(144, ev.direction), U32Slot(148, ev.transport),
     U64Slot(152, ev.bytesRequested), U64Slot(160, ev.bytesTransferred), U32Slot(168, ev.bytesCaptured),
     U32Slot(172, ev.bytesTruncated)]
  }

  function EndpointSlots(at: nat, ep: Endpoint): seq<Slot> {
    [U32Slot(at, ep.family), U32Slot(at + 4, ep.port), U32Slot(at + 8, ep.addrLen), Slot(at + 12, 1, 16, ep.addr),
     TextSlot(at + 28, ep.path, UNIX_PATH_LEN)]
  }

  function NetworkSlots(ev: NetworkEvent): seq<Slot> {
    CallSlots(ev) + FlowSlots(ev) + EndpointSlots(176, ev.local) + EndpointSlots(312, ev.remote) + [StructEnd(SIZE_NETWORK)]
  }

  function FamilySlots(v: EventVariant): seq<Slot> {
    match v.record
    case ProcessRecord(ev) => ProcessSlots(ev, v.extras)
    case FileRecord(ev) => FileSlots(ev)
    case SyscallRecord(ev) => SyscallSlots(ev)
    case NetworkRecord(ev) => NetworkSlots(ev)
  }

  function FamilyType(r: Record): u32 {
    match r
    case ProcessRecord(_) => EVENT_TYPE_PROCESS
    case FileRecord(_) => EVENT_TYPE_FILE
    case SyscallRecord(_) => EVENT_TYPE_SYSCALL
    case NetworkRecord(_) => EVENT_TYPE_NETWORK
  }

  function FamilySize(r: Record): nat {
    match r
    case ProcessRecord(_) => SIZE_PROCESS
    case FileRecord(_) => SIZE_FILE
    case SyscallRecord(_) => SIZE_SYSCALL
    case NetworkRecord(_) => SIZE_NETWORK
  }

  function AllSlots(v: EventVariant): seq<Slot> { HeaderSlots(JsonRecord.HeaderOf(v.record)) + FamilySlots(v) }

  // ---- what the decoder reads ---------------------------------------------

  function U32At(b: Bytes, at: nat): u32 requires at + 4 <= |b| { U32Of(b[at..at + 4]) }
  function S32At(b: Bytes, at: nat): s32 requires at + 4 <= |b| { S32Of(b[at..at + 4]) }
  function U64At(b: Bytes, at: nat): u64 requires at + 8 <= |b| { U64Of(b[at..at + 8]) }
  function S64At(b: Bytes, at: nat): s64 requires at + 8 <= |b| { S64Of(b[at..at + 8]) }
  function TextAt(b: Bytes, at: nat, n: nat): string requires at + n <= |b| { TextOf(b[at..at + n]) }

  function ReadHeader(b: Bytes): Header
    requires |b| >= SIZE_HEADER
  {
    Header(U64At(b, 0), U32At(b, 8), U32At(b, 12), U32At(b, 16), U32At(b, 20), U32At(b, 24), U32At(b, 28),
           U32At(b, 32), TextAt(b, 36, 16))
  }

  function ReadEndpoint(b: Bytes, at: nat): Endpoint
    requires at + 136 <= |b|
  {
    Endpoint(U32At(b, at), U32At(b, at + 4), U32At(b, at + 8), b[at + 12..at + 28], TextAt(b, at + 28, UNIX_PATH_LEN))
  }

  function ReadProcess(b: Bytes): EventVariant
    requires |b| >= SIZE_PROCESS
  {
    EventVariant(
      KernelModel.ProcessRecord(ProcessEvent(ReadHeader(b), U32At(b, 56), U32At(b, 60), U32At(b, 64), TextAt(b, 324, 256))),
      ProcessExtras(TextAt(b, 68, 256), TextAt(b, 580, 256), TextAt(b, 836, 256), TextAt(b, 1092, 16), U64At(b, 1112)))
  }

  function ReadFile(b: Bytes): FileEvent
    requires |b| >= SIZE_FILE
  {
    FileEvent(ReadHeader(b), U32At(b, 56), S32At(b, 60), S32At(b, 64), S32At(b, 68), S32At(b, 72), TextAt(b, 76, 256),
              TextAt(b, 332, 256))
  }

  function ReadSyscall(b: Bytes): SyscallEvent
    requires |b| >= SIZE_SYSCALL
  {
    SyscallEvent(ReadHeader(b), U32At(b, 56), S32At(b, 60), S64At(b, 64), S64At(b, 72), S64At(b, 80), S64At(b, 88))
  }

  function ReadNetwork(b: Bytes): NetworkEvent
    requires |b| >= SIZE_NETWORK
  {
    NetworkEvent(
      ReadHeader(b), U32At(b, 56), S32At(b, 60), S32At(b, 64), S32At(b, 68), S32At(b, 72), S32At(b, 76), S32At(b, 80),
      S32At(b, 84), S32At(b, 88), S32At(b, 92), S32At(b, 96), S32At(b, 100), S32At(b, 104), b[108..124],
      U64At(b, 128), U64At(b, 136), U32At(b, 144), U32At(b, 148), U64At(b, 152), U64At(b, 160), U32At(b, 168),
      U32At(b, 172), ReadEndpoint(b, 176), ReadEndpoint(b, 312))
  }

  /** `Decoder::Decode` */
  function Decode(data: Bytes): Option<EventVariant> {
    if |data| < SIZE_HEADER then None
    else
      var wireSize := U32At(data, 12);
      var etype := U32At(data, 8);
      if wireSize < SIZE_HEADER || wireSize > |data| then None
      else if etype == EVENT_TYPE_PROCESS && wireSize == SIZE_PROCESS then Some(ReadProcess(data))
      else if etype == EVENT_TYPE_FILE && wireSize == SIZE_FILE then
        Some(EventVariant(KernelModel.FileRecord(ReadFile(data)), NO_EXTRAS))
      else if etype == EVENT_TYPE_SYSCALL && wireSize == SIZE_SYSCALL then
        Some(EventVariant(KernelModel.SyscallRecord(ReadSyscall(data)), NO_EXTRAS))
      else if etype == EVENT_TYPE_NETWORK && wireSize == SIZE_NETWORK then
        Some(EventVariant(KernelModel.NetworkRecord(ReadNetwork(data)), NO_EXTRAS))
      else None
  }

  // ---- what is accepted -------------------------------------------------

  /** `sizeof` of the record a type code announces. */
  function SizeOfType(etype: u32): Option<u32> {
    if etype == EVENT_TYPE_PROCESS then Some(SIZE_PROCESS)
    else if etype == EVENT_TYPE_FILE then Some(SIZE_FILE)
    else if etype == EVENT_TYPE_SYSCALL then Some(SIZE_SYSCALL)
    else if etype == EVENT_TYPE_NETWORK then Some(SIZE_NETWORK)
    else None
  }

  predicate Consistent(r: Record) {
    JsonRecord.HeaderOf(r).etype == FamilyType(r) && JsonRecord.HeaderOf(r).size == FamilySize(r)
  }

  /** Bytes are accepted exactly when they hold a header whose size is that of its type and is all there. */
  lemma DecodeAcceptsIff(data: Bytes)
    ensures Decode(data).Some?
            <==> |data| >= SIZE_HEADER
                 && SizeOfType(U32At(data, 8)) == Some(U32At(data, 12))
                 && U32At(data, 12) <= |data|
  {
    hide U32At;
  }

  /** What comes out says about itself what it is. */
  lemma DecodedIsConsistent(data: Bytes)
    requires Decode(data).Some?
    ensures Consistent(Decode(data).value.record)
    ensures !Decode(data).value.record.ProcessRecord? ==> Decode(data).value.extras == NO_EXTRAS
  {
    hide U32At, S32At, U64At, S64At, TextAt, ReadEndpoint;
  }

  // ---- where each field is read -------------------------------------------

  function Spelled(b0: int, b1: int, b2: int, b3: int): int { b0 + 256 * b1 + 65536 * b2 + 16777216 * b3 }

  /** Numbers are stored least significant byte first, signed ones in two's complement. */
  lemma NumbersAt(b: Bytes, at: nat)
    requires at + 8 <= |b|
    ensures U32At(b, at) == Spelled(b[at], b[at + 1], b[at + 2], b[at + 3])
    ensures U64At(b, at) == U32At(b, at) + 0x1_0000_0000 * U32At(b, at + 4)
    ensures S32At(b, at) == ToS32(U32At(b, at)) && S64At(b, at) == ToS64(U64At(b, at))
  {
    hide U32Of, S32Of, U64Of, S64Of, FromLittleEndian, Spelled, ToS32, ToS64;
    var low, high, all := b[at..at + 4], b[at + 4..at + 8], b[at..at + 8];
    FourByteNumber(low);
    FourByteNumber(high);
    FourBytesRead(low);
    EightByteNumber(all);
    assert all[..4] == low && all[4..] == high;
  }

  lemma SmallIsItself(m: nat)
    requires m < 0x1_0000_0000
    ensures ToU32(m) == m
  {}

  lemma FourByteNumber(w: Bytes)
    requires |w| == 4
    ensures U32Of(w) == FromLittleEndian(w) && S32Of(w) == ToS32(U32Of(w))
  {
    hide FromLittleEndian, ToU32, ToS32, Spelled;
    FourBytesRead(w);
    SmallIsItself(FromLittleEndian(w));
  }

  lemma EightByteNumber(w: Bytes)
    requires |w| == 8
    ensures U64Of(w) == U32Of(w[..4]) + 0x1_0000_0000 * U32Of(w[4..]) && S64Of(w) == ToS64(U64Of(w))
  {
    hide FromLittleEndian, U32Of;
    FourByteNumber(w[..4]);
    FourByteNumber(w[4..]);
    EightBytesRead(w);
    CastOfCast(FromLittleEndian(w));
  }

  lemma FourBytesRead(w: Bytes)
    requires |w| == 4
    ensures FromLittleEndian(w) == Spelled(w[0], w[1], w[2], w[3])
    ensures FromLittleEndian(w) < 0x1_0000_0000
  {
    assert FromLittleEndian(w[3..]) == w[3] by { assert w[3..][1..] == []; }
    assert FromLittleEndian(w[2..]) == Spelled(w[2], w[3], 0, 0) by { assert w[2..][1..] == w[3..]; }
    assert FromLittleEndian(w[1..]) == Spelled(w[1], w[2], w[3], 0) by { assert w[1..][1..] == w[2..]; }
  }

  lemma EightBytesRead(w: Bytes)
    requires |w| == 8
    ensures FromLittleEndian(w) == FromLittleEndian(w[..4]) + 0x1_0000_0000 * FromLittleEndian(w[4..])
  {
    var low := w[..4];
    FourBytesRead(low);
    assert FromLittleEndian(w[3..]) == Spelled(w[3], FromLittleEndian(w[4..]), 0, 0) by { assert w[3..][1..] == w[4..]; }
    assert FromLittleEndian(w[2..]) == Spelled(w[2], FromLittleEndian(w[3..]), 0, 0) by { assert w[2..][1..] == w[3..]; }
    assert FromLittleEndian(w[1..]) == Spelled(w[1], FromLittleEndian(w[2..]), 0, 0) by { assert w[1..][1..] == w[2..]; }
  }

  /** The envelope of a decoded record, offset by offset. */
  lemma HeaderIsAt(data: Bytes)
    requires Decode(data).Some?
    ensures var h := JsonRecord.HeaderOf(Decode(data).value.record);
            && |data| >= 56
            && h.tsNs == U64At(data, 0) && h.etype == U32At(data, 8) && h.size == U32At(data, 12)
            && h.pid == U32At(data, 16) && h.tgid == U32At(data, 20) && h.ppid == U32At(data, 24)
            && h.uid == U32At(data, 28) && h.gid == U32At(data, 32) && h.comm == TextOf(data[36..52])
  {
    hide U32Of, U64Of, S32At, S64At, TextOf, ReadEndpoint;
  }

  lemma ProcessIsAt(data: Bytes)
    requires Decode(data).Some? && Decode(data).value.record.ProcessRecord?
    ensures var v := Decode(data).value;
            var ev, x := v.record.procEv, v.extras;
            && |data| >= 1120
            && ev.kind == U32At(data, 56) && ev.exitCode == U32At(data, 60) && ev.childPid == U32At(data, 64)
            && x.filename == TextOf(data[68..324]) && ev.execPath == TextOf(data[324..580])
            && x.cmdline == TextOf(data[580..836]) && x.cwd == TextOf(data[836..1092])
            && x.parentComm == TextOf(data[1092..1108]) && x.startTimeTicks == U64At(data, 1112)
  {
    hide U32Of, U64Of, TextOf, ReadHeader;
  }

  lemma FileIsAt(data: Bytes)
    requires Decode(data).Some? && Decode(data).value.record.FileRecord?
    ensures var ev := Decode(data).value.record.fileRec;
            && |data| >= 592
            && ev.kind == U32At(data, 56) && ev.dfd == S32At(data, 60) && ev.flags == S32At(data, 64)
            && ev.mode == S32At(data, 68) && ev.ret == S32At(data, 72)
            && ev.pathA == TextOf(data[76..332]) && ev.pathB == TextOf(data[332..588])
  {
    hide U32Of, S32Of, TextOf, ReadHeader;
  }

  lemma SyscallIsAt(data: Bytes)
    requires Decode(data).Some? && Decode(data).value.record.SyscallRecord?
    ensures var ev := Decode(data).value.record.sysRec;
            && |data| >= 96
            && ev.isEnter == U32At(data, 56) && ev.syscallNr == S32At(data, 60)
            && ev.arg0 == S64At(data, 64) && ev.arg1 == S64At(data, 72) && ev.arg2 == S64At(data, 80)
            && ev.ret == S64At(data, 88)
  {
    hide U32Of, S32Of, S64Of, ReadHeader;
  }

  lemma NetworkIsAt(data: Bytes)
    requires Decode(data).Some? && Decode(data).value.record.NetworkRecord?
    ensures var ev := Decode(data).value.record.netRec;
            && |data| >= 448
            && ev.kind == U32At(data, 56) && ev.fd == S32At(data, 60) && ev.peerFd == S32At(data, 64)
            && ev.ret == S32At(data, 68) && ev.domain == S32At(data, 72) && ev.sockType == S32At(data, 76)
            && ev.protocol == S32At(data, 80) && ev.flags == S32At(data, 84) && ev.backlog == S32At(data, 88)
            && ev.how == S32At(data, 92) && ev.optLevel == S32At(data, 96) && ev.optName == S32At(data, 100)
            && ev.optLen == S32At(data, 104) && ev.optvalPrefix == data[108..124]
            && ev.flowId == U64At(data, 128) && ev.socketId == U64At(data, 136)
            && ev.direction == U32At(data, 144) && ev.transport == U32At(data, 148)
            && ev.bytesRequested == U64At(data, 152) && ev.bytesTransferred == U64At(data, 160)
            && ev.bytesCaptured == U32At(data, 168) && ev.bytesTruncated == U32At(data, 172)
            && EndpointIsAt(data, 176, ev.local) && EndpointIsAt(data, 312, ev.remote)
  {
    hide U32Of, S32Of, U64Of, TextOf, ReadHeader;
  }

  predicate EndpointIsAt(data: Bytes, at: nat, ep: Endpoint)
    requires at + 136 <= |data|
  {
    && ep.family == U32At(data, at) && ep.port == U32At(data, at + 4) && ep.addrLen == U32At(data, at + 8)
    && ep.addr == data[at + 12..at + 28] && ep.path == TextOf(data[at + 28..at + 136])
  }

  // ---- the layout is the C one --------------------------------------------

  lemma HeaderIsLaid(h: Header)
    ensures Laid(HeaderSlots(h), 0) && EndOfAll(HeaderSlots(h), 0) == SIZE_HEADER
  {
    hide LittleEndian;
  }

  lemma ProcessIsLaid(ev: ProcessEvent, x: ProcessExtras)
    ensures Laid(ProcessSlots(ev, x), SIZE_HEADER) && EndOfAll(ProcessSlots(ev, x), SIZE_HEADER) == SIZE_PROCESS
  {
    hide LittleEndian;
  }

  lemma FileIsLaid(ev: FileEvent)
    ensures Laid(FileSlots(ev), SIZE_HEADER) && EndOfAll(FileSlots(ev), SIZE_HEADER) == SIZE_FILE
  {
    hide LittleEndian;
  }

  lemma SyscallIsLaid(ev: SyscallEvent)
    ensures Laid(SyscallSlots(ev), SIZE_HEADER) && EndOfAll(SyscallSlots(ev), SIZE_HEADER) == SIZE_SYSCALL
  {
    hide LittleEndian;
  }

  lemma CallIsLaid(ev: NetworkEvent)
    ensures Laid(CallSlots(ev), SIZE_HEADER) && EndOfAll(CallSlots(ev), SIZE_HEADER) == 124
  {
    hide LittleEndian;
  }

  lemma FlowIsLaid(ev: NetworkEvent)
    ensures Laid(FlowSlots(ev), 124) && EndOfAll(FlowSlots(ev), 124) == 176
  {
    hide LittleEndian;
  }

  lemma EndpointIsLaid(at: nat, ep: Endpoint)
    requires at % 4 == 0
    ensures Laid(EndpointSlots(at, ep), at) && EndOfAll(EndpointSlots(at, ep), at) == at + 136
  {
    hide LittleEndian;
  }

  lemma NetworkIsLaid(ev: NetworkEvent)
    ensures Laid(NetworkSlots(ev), SIZE_HEADER) && EndOfAll(NetworkSlots(ev), SIZE_HEADER) == SIZE_NETWORK
  {
    hide CallSlots, FlowSlots, EndpointSlots, Laid, EndOfAll;
    var c, f, l, r := CallSlots(ev), FlowSlots(ev), EndpointSlots(176, ev.local), EndpointSlots(312, ev.remote);
    CallIsLaid(ev);
    FlowIsLaid(ev);
    EndpointIsLaid(176, ev.local);
    EndpointIsLaid(312, ev.remote);
    EndIsLaid(SIZE_NETWORK);
    LaidAppend(c, f, SIZE_HEADER);
    LaidAppend(c + f, l, SIZE_HEADER);
    LaidAppend(c + f + l, r, SIZE_HEADER);
    LaidAppend(c + f + l + r, [StructEnd(SIZE_NETWORK)], SIZE_HEADER);
  }

  lemma EndIsLaid(at: nat)
    requires at % 8 == 0
    ensures Laid([StructEnd(at)], at) && EndOfAll([StructEnd(at)], at) == at
  {}

  /** The arrays have the schema's sizes and its strings have room for their NUL. */
  predicate HeaderFits(h: Header) { FitsArray(h.comm, 16) }

  predicate EndpointFits(ep: Endpoint) { |ep.addr| == 16 && FitsArray(ep.path, UNIX_PATH_LEN) }

  predicate Fits(v: EventVariant) {
    && HeaderFits(JsonRecord.HeaderOf(v.record))
    && match v.record
       case ProcessRecord(ev) =>
         && FitsArray(ev.execPath, 256) && FitsArray(v.extras.filename, 256) && FitsArray(v.extras.cmdline, 256)
         && FitsArray(v.extras.cwd, 256) && FitsArray(v.extras.parentComm, 16)
       case FileRecord(ev) => FitsArray(ev.pathA, 256) && FitsArray(ev.pathB, 256) && v.extras == NO_EXTRAS
       case SyscallRecord(_) => v.extras == NO_EXTRAS
       case NetworkRecord(ev) =>
         |ev.optvalPrefix| == 16 && EndpointFits(ev.local) && EndpointFits(ev.remote) && v.extras == NO_EXTRAS
  }

  lemma OverflowsNowhere(a: seq<Slot>, b: seq<Slot>)
    requires NoneOverflows(a) && NoneOverflows(b)
    ensures NoneOverflows(a + b)
  {}

  lemma NetworkDoesNotOverflow(ev: NetworkEvent)
    requires |ev.optvalPrefix| == 16 && EndpointFits(ev.local) && EndpointFits(ev.remote)
    ensures NoneOverflows(NetworkSlots(ev))
  {
    assert NoneOverflows([StructEnd(SIZE_NETWORK)]);
    CallDoesNotOverflow(ev);
    FlowDoesNotOverflow(ev);
    EndpointDoesNotOverflow(176, ev.local);
    EndpointDoesNotOverflow(312, ev.remote);
    hide CallSlots, FlowSlots, EndpointSlots, NoneOverflows, EndpointFits;
    var c, f, l, r := CallSlots(ev), FlowSlots(ev), EndpointSlots(176, ev.local), EndpointSlots(312, ev.remote);
    OverflowsNowhere(c, f);
    OverflowsNowhere(c + f, l);
    OverflowsNowhere(c + f + l, r);
    OverflowsNowhere(c + f + l + r, [StructEnd(SIZE_NETWORK)]);
  }

  lemma CallDoesNotOverflow(ev: NetworkEvent)
    requires |ev.optvalPrefix| == 16
    ensures NoneOverflows(CallSlots(ev))
  {
    hide U32Bytes, S32Bytes;
  }

  lemma FlowDoesNotOverflow(ev: NetworkEvent)
    ensures NoneOverflows(FlowSlots(ev))
  {
    hide U32Bytes, U64Bytes;
  }

  lemma EndpointDoesNotOverflow(at: nat, ep: Endpoint)
    requires EndpointFits(ep)
    ensures NoneOverflows(EndpointSlots(at, ep))
  {}

  lemma HeaderDoesNotOverflow(h: Header)
    requires HeaderFits(h)
    ensures NoneOverflows(HeaderSlots(h))
  {}

  lemma ProcessDoesNotOverflow(v: EventVariant)
    requires Fits(v) && v.record.ProcessRecord?
    ensures NoneOverflows(FamilySlots(v))
  {}

  lemma FamilyDoesNotOverflow(v: EventVariant)
    requires Fits(v)
    ensures NoneOverflows(FamilySlots(v))
  {
    hide NetworkSlots, ProcessSlots, HeaderFits, EndpointFits;
    if v.record.NetworkRecord? {
      NetworkDoesNotOverflow(v.record.netRec);
    } else if v.record.ProcessRecord? {
      ProcessDoesNotOverflow(v);
    }
  }

  lemma NoFieldOverflows(v: EventVariant)
    requires Fits(v)
    ensures NoneOverflows(AllSlots(v))
  {
    hide HeaderSlots, FamilySlots, HeaderFits;
    HeaderDoesNotOverflow(JsonRecord.HeaderOf(v.record));
    FamilyDoesNotOverflow(v);
  }

  /** The fields tile the struct by the rules of C, padding where alignment asks for it, up to its `sizeof`. */
  lemma LayoutFollowsC(v: EventVariant)
    requires Fits(v)
    ensures Laid(AllSlots(v), 0) && EndOfAll(AllSlots(v), 0) == FamilySize(v.record)
    ensures Within(AllSlots(v), FamilySize(v.record))
  {
    hide HeaderSlots, ProcessSlots, FileSlots, SyscallSlots, NetworkSlots, Laid, EndOfAll, Within, HeaderFits, FitsArray;
    HeaderIsLaid(JsonRecord.HeaderOf(v.record));
    match v.record {
      case ProcessRecord(ev) => ProcessIsLaid(ev, v.extras);
      case FileRecord(ev) => FileIsLaid(ev);
      case SyscallRecord(ev) => SyscallIsLaid(ev);
      case NetworkRecord(ev) => NetworkIsLaid(ev);
    }
    LaidAppend(HeaderSlots(JsonRecord.HeaderOf(v.record)), FamilySlots(v), 0);
    NoFieldOverflows(v);
    LaidIsWithin(AllSlots(v), 0, FamilySize(v.record));
  }

  /** The record as the ring buffer carries it, filled into a reservation that held `memory`. */
  function Encode(v: EventVariant, memory: Bytes): (b: Bytes)
    requires Fits(v) && |memory| == FamilySize(v.record)
    ensures |b| == FamilySize(v.record)
  {
    LayoutFollowsC(v);
    Image(AllSlots(v), memory)
  }

  // ---- the round trip -----------------------------------------------------

  lemma IntegersReadBack()
    ensures forall n: u32 :: U32Of(U32Bytes(n)) == n
    ensures forall n: s32 :: S32Of(S32Bytes(n)) == n
    ensures forall n: u64 :: U64Of(U64Bytes(n)) == n
    ensures forall n: s64 :: S64Of(S64Bytes(n)) == n
  {
    hide U32Of, U32Bytes, S32Of, S32Bytes, U64Of, U64Bytes, S64Of, S64Bytes;
    forall n: u32 ensures U32Of(U32Bytes(n)) == n { U32ReadsBack(n); }
    forall n: s32 ensures S32Of(S32Bytes(n)) == n { S32ReadsBack(n); }
    forall n: u64 ensures U64Of(U64Bytes(n)) == n { U64ReadsBack(n); }
    forall n: s64 ensures S64Of(S64Bytes(n)) == n { S64ReadsBack(n); }
  }

  lemma TextFound(b: Bytes, at: nat, s: string, n: nat)
    requires at + n <= |b| && FitsArray(s, n) && b[at..at + |CStringBytes(s)|] == CStringBytes(s)
    ensures TextAt(b, at, n) == s
  {
    var field := b[at..at + n];
    assert field[..|s| + 1] == b[at..at + |CStringBytes(s)|];
    TextReadsBack(s, field);
  }

  lemma HeaderDecodes(b: Bytes, h: Header)
    requires |b| >= SIZE_HEADER && Holds(b, HeaderSlots(h)) && HeaderFits(h)
    ensures ReadHeader(b) == h
  {
    hide U32Of, U32Bytes, U64Of, U64Bytes, CStringBytes, TextOf, FitsArray;
    IntegersReadBack();
    var s := HeaderSlots(h);
    assert s[0].offset == 0 && s[1].offset == 8 && s[2].offset == 12 && s[3].offset == 16 && s[4].offset == 20;
    assert s[5].offset == 24 && s[6].offset == 28 && s[7].offset == 32 && s[8].offset == 36;
    TextFound(b, 36, h.comm, 16);
  }

  lemma ProcessDecodes(b: Bytes, v: EventVariant)
    requires v.record.ProcessRecord? && |b| >= SIZE_PROCESS && Fits(v) && Holds(b, FamilySlots(v))
    requires ReadHeader(b) == v.record.procEv.hdr
    ensures ReadProcess(b) == v
  {
    hide U32Of, U32Bytes, U64Of, U64Bytes, CStringBytes, TextOf, FitsArray, ReadHeader;
    var ev, x := v.record.procEv, v.extras;
    IntegersReadBack();
    var s := ProcessSlots(ev, x);
    assert s[0].offset == 56 && s[1].offset == 60 && s[2].offset == 64 && s[3].offset == 68 && s[4].offset == 324;
    assert s[5].offset == 580 && s[6].offset == 836 && s[7].offset == 1092 && s[8].offset == 1112;
    TextFound(b, 324, ev.execPath, 256);
    TextFound(b, 68, x.filename, 256);
    TextFound(b, 580, x.cmdline, 256);
    TextFound(b, 836, x.cwd, 256);
    TextFound(b, 1092, x.parentComm, 16);
  }

  lemma FileDecodes(b: Bytes, ev: FileEvent)
    requires |b| >= SIZE_FILE && Holds(b, FileSlots(ev)) && FitsArray(ev.pathA, 256) && FitsArray(ev.pathB, 256)
    requires ReadHeader(b) == ev.hdr
    ensures ReadFile(b) == ev
  {
    hide U32Of, U32Bytes, S32Of, S32Bytes, CStringBytes, TextOf, FitsArray, ReadHeader;
    IntegersReadBack();
    var s := FileSlots(ev);
    assert s[0].offset == 56 && s[1].offset == 60 && s[2].offset == 64 && s[3].offset == 68 && s[4].offset == 72;
    assert s[5].offset == 76 && s[6].offset == 332;
    TextFound(b, 76, ev.pathA, 256);
    TextFound(b, 332, ev.pathB, 256);
  }

  lemma SyscallDecodes(b: Bytes, ev: SyscallEvent)
    requires |b| >= SIZE_SYSCALL && Holds(b, SyscallSlots(ev)) && ReadHeader(b) == ev.hdr
    ensures ReadSyscall(b) == ev
  {
    hide U32Of, U32Bytes, S32Of, S32Bytes, S64Of, S64Bytes, ReadHeader;
    IntegersReadBack();
    var s := SyscallSlots(ev);
    assert s[0].offset == 56 && s[1].offset == 60 && s[2].offset == 64 && s[3].offset == 72 && s[4].offset == 80;
    assert s[5].offset == 88;
  }

  lemma EndpointDecodes(b: Bytes, at: nat, ep: Endpoint)
    requires at + 136 <= |b| && Holds(b, EndpointSlots(at, ep)) && EndpointFits(ep)
    ensures ReadEndpoint(b, at) == ep
  {
    hide U32Of, U32Bytes, CStringBytes, TextOf, FitsArray;
    IntegersReadBack();
    var s := EndpointSlots(at, ep);
    assert s[0].offset == at && s[1].offset == at + 4 && s[2].offset == at + 8 && s[3].offset == at + 12;
    assert s[4].offset == at + 28;
    TextFound(b, at + 28, ep.path, UNIX_PATH_LEN);
  }

  lemma CallDecodes(b: Bytes, ev: NetworkEvent)
    requires |b| >= SIZE_NETWORK && Holds(b, CallSlots(ev)) && |ev.optvalPrefix| == 16
    ensures U32At(b, 56) == ev.kind && S32At(b, 60) == ev.fd && S32At(b, 64) == ev.peerFd && S32At(b, 68) == ev.ret
    ensures S32At(b, 72) == ev.domain && S32At(b, 76) == ev.sockType && S32At(b, 80) == ev.protocol
    ensures S32At(b, 84) == ev.flags && S32At(b, 88) == ev.backlog && S32At(b, 92) == ev.how
    ensures S32At(b, 96) == ev.optLevel && S32At(b, 100) == ev.optName && S32At(b, 104) == ev.optLen
    ensures b[108..124] == ev.optvalPrefix
  {
    hide U32Of, U32Bytes, S32Of, S32Bytes;
    IntegersReadBack();
    var s := CallSlots(ev);
    assert s[0].offset == 56 && s[1].offset == 60 && s[2].offset == 64 && s[3].offset == 68 && s[4].offset == 72;
    assert s[5].offset == 76 && s[6].offset == 80 && s[7].offset == 84 && s[8].offset == 88 && s[9].offset == 92;
    assert s[10].offset == 96 && s[11].offset == 100 && s[12].offset == 104 && s[13].offset == 108;
  }

  lemma FlowDecodes(b: Bytes, ev: NetworkEvent)
    requires |b| >= SIZE_NETWORK && Holds(b, FlowSlots(ev))
    ensures U64At(b, 128) == ev.flowId && U64At(b, 136) == ev.socketId && U32At(b, 144) == ev.direction
    ensures U32At(b, 148) == ev.transport && U64At(b, 152) == ev.bytesRequested && U64At(b, 160) == ev.bytesTransferred
    ensures U32At(b, 168) == ev.bytesCaptured && U32At(b, 172) == ev.bytesTruncated
  {
    hide U32Of, U32Bytes, U64Of, U64Bytes;
    IntegersReadBack();
    var s := FlowSlots(ev);
    assert s[0].offset == 128 && s[1].offset == 136 && s[2].offset == 144 && s[3].offset == 148 && s[4].offset == 152;
    assert s[5].offset == 160 && s[6].offset == 168 && s[7].offset == 172;
  }

  lemma NetworkDecodes(b: Bytes, ev: NetworkEvent)
    requires |b| >= SIZE_NETWORK && Holds(b, NetworkSlots(ev)) && ReadHeader(b) == ev.hdr
    requires |ev.optvalPrefix| == 16 && EndpointFits(ev.local) && EndpointFits(ev.remote)
    ensures ReadNetwork(b) == ev
  {
    hide CallSlots, FlowSlots, EndpointSlots, Holds, EndpointFits, U32At, S32At, U64At, ReadEndpoint, ReadHeader;
    var c, f, l, r := CallSlots(ev), FlowSlots(ev), EndpointSlots(176, ev.local), EndpointSlots(312, ev.remote);
    HoldsParts(b, c + f + l + r, [StructEnd(SIZE_NETWORK)]);
    HoldsParts(b, c + f + l, r);
    HoldsParts(b, c + f, l);
    HoldsParts(b, c, f);
    CallDecodes(b, ev);
    FlowDecodes(b, ev);
    EndpointDecodes(b, 176, ev.local);
    EndpointDecodes(b, 312, ev.remote);
  }

  lemma ConsistentDecodes(b: Bytes, v: EventVariant)
    requires Fits(v) && Consistent(v.record) && |b| >= FamilySize(v.record) && Holds(b, AllSlots(v))
    ensures Decode(b) == Some(v)
  {
    hide HeaderSlots, ProcessSlots, FileSlots, SyscallSlots, NetworkSlots, Holds, HeaderFits, EndpointFits, FitsArray;
    hide ReadProcess, ReadFile, ReadSyscall, ReadNetwork, U32At;
    var h := JsonRecord.HeaderOf(v.record);
    HoldsParts(b, HeaderSlots(h), FamilySlots(v));
    HeaderDecodes(b, h);
    match v.record {
      case ProcessRecord(_) => ProcessDecodes(b, v);
      case FileRecord(ev) => FileDecodes(b, ev);
      case SyscallRecord(ev) => SyscallDecodes(b, ev);
      case NetworkRecord(ev) => NetworkDecodes(b, ev);
    }
  }

  /**
   * Decoding returns the record that was laid out, whatever the reserved memory held before and
   * whatever follows it in the buffer, exactly when its header carries its own type and size.
   */
  lemma DecodeInvertsEncodeIff(v: EventVariant, memory: Bytes, rest: Bytes)
    requires Fits(v) && |memory| == FamilySize(v.record)
    ensures Decode(Encode(v, memory) + rest) == Some(v) <==> Consistent(v.record)
  {
    hide Holds, Image, Laid, Within, Fits, AllSlots, Decode, Consistent;
    LayoutFollowsC(v);
    var b := Encode(v, memory) + rest;
    ImageHolds(AllSlots(v), 0, memory);
    HoldsInLonger(Encode(v, memory), rest, AllSlots(v));
    if Consistent(v.record) {
      ConsistentDecodes(b, v);
    }
    if Decode(b) == Some(v) {
      DecodedIsConsistent(b);
    }
  }
}
