/** The flow id of a network record: which of its fields `compute_network_flow_id` mixes. */
module NetworkFlow {
  import opened Primitives
  import opened EventSchema
  import opened FlowId

  /** The first four address bytes as the word they form in memory, 0 if fewer are known. */
  function FirstWord(ep: Endpoint): u32 {
    if ep.addrLen < 4 || |ep.addr| < 4 then 0 else
      var b0: int, b1: int, b2: int, b3: int := ep.addr[0], ep.addr[1], ep.addr[2], ep.addr[3];
      b0 + 256 * b1 + 65536 * b2 + 16777216 * b3
  }

  /** Eight bits as the low byte of a machine word. */
  function Bits(p0: bool, p1: bool, p2: bool, p3: bool, p4: bool, p5: bool, p6: bool, p7: bool): bv32 {
    (if p0 then 1 else 0) | (if p1 then 2 else 0) | (if p2 then 4 else 0) | (if p3 then 8 else 0)
    | (if p4 then 16 else 0) | (if p5 then 32 else 0) | (if p6 then 64 else 0) | (if p7 then 128 else 0)
  }

  function Half(x: nat): nat { x / 2 }

  predicate Odd(x: nat) { x % 2 == 1 }

  function ByteBits(b: byte): bv32 {
    var b1 := Half(b); var b2 := Half(b1); var b3 := Half(b2); var b4 := Half(b3);
    var b5 := Half(b4); var b6 := Half(b5); var b7 := Half(b6);
    Bits(Odd(b), Odd(b1), Odd(b2), Odd(b3), Odd(b4), Odd(b5), Odd(b6), Odd(b7))
  }

  function Join(b0: bv32, b1: bv32, b2: bv32, b3: bv32): bv32 { b0 | (b1 << 8) | (b2 << 16) | (b3 << 24) }

  function Low(x: nat): byte { x % 256 }

  function High(x: nat): nat { x / 256 }

  /** An unsigned number as a machine word, byte by byte. */
  function Word(x: u32): bv32 {
    Join(ByteBits(Low(x)), ByteBits(Low(High(x))), ByteBits(Low(High(High(x)))), ByteBits(Low(High(High(High(x))))))
  }

  function FlowOf(task: u64, ev: NetworkEvent): Flow {
    Flow(task as bv64, Word(ev.kind), Word(ToU32(ev.fd)), Word(ToU32(ev.peerFd)), Word(ev.local.port),
         Word(ev.remote.port), Word(FirstWord(ev.local)), Word(FirstWord(ev.remote)))
  }

  function Number(x: bv64): u64 { x as int }

  function NetworkFlowId(task: u64, ev: NetworkEvent): u64 { Number(ComputeFlowId(FlowOf(task, ev))) }

  /** Which field of a record goes to which place of the mix. */
  lemma FieldsOfFlow(task: u64, ev: NetworkEvent)
    ensures var f := FlowOf(task, ev);
            && f.pidTgid == task as bv64 && f.kind == Word(ev.kind)
            && f.fd == Word(ToU32(ev.fd)) && f.peerFd == Word(ToU32(ev.peerFd))
            && f.localPort == Word(ev.local.port) && f.remotePort == Word(ev.remote.port)
            && f.local4 == Word(FirstWord(ev.local)) && f.remote4 == Word(FirstWord(ev.remote))
  {}

  /** The address word is what four bytes spell in memory, least significant first; shorter addresses say 0. */
  lemma FirstWordIs(ep: Endpoint)
    requires |ep.addr| == 16
    ensures ep.addrLen < 4 ==> FirstWord(ep) == 0
    ensures ep.addrLen >= 4 ==>
              FirstWord(ep) % 256 == ep.addr[0] && FirstWord(ep) / 256 % 256 == ep.addr[1]
              && FirstWord(ep) / 65536 % 256 == ep.addr[2] && FirstWord(ep) / 16777216 == ep.addr[3]
  {
    if ep.addrLen >= 4 {
      SpelledBytes(ep.addr[0], ep.addr[1], ep.addr[2], ep.addr[3]);
    }
  }

  lemma SpelledBytes(b0: byte, b1: byte, b2: byte, b3: byte)
    ensures var x := b0 + 256 * b1 + 65536 * b2 + 16777216 * b3;
            x % 256 == b0 && x / 256 % 256 == b1 && x / 65536 % 256 == b2 && x / 16777216 == b3
  {
    var x: int := b0 + 256 * b1 + 65536 * b2 + 16777216 * b3;
    assert x / 256 == b1 + 256 * b2 + 65536 * b3;
    assert x / 65536 == b2 + 256 * b3;
  }

  /** Bit by bit, a byte in a machine word. */
  lemma BitsOfByte(b: byte)
    ensures ByteBits(b) & 1 != 0 <==> b % 2 == 1
    ensures ByteBits(b) & 2 != 0 <==> b / 2 % 2 == 1
    ensures ByteBits(b) & 4 != 0 <==> b / 2 / 2 % 2 == 1
    ensures ByteBits(b) & 8 != 0 <==> b / 2 / 2 / 2 % 2 == 1
    ensures ByteBits(b) & 16 != 0 <==> b / 2 / 2 / 2 / 2 % 2 == 1
    ensures ByteBits(b) & 32 != 0 <==> b / 2 / 2 / 2 / 2 / 2 % 2 == 1
    ensures ByteBits(b) & 64 != 0 <==> b / 2 / 2 / 2 / 2 / 2 / 2 % 2 == 1
    ensures ByteBits(b) & 128 != 0 <==> b / 2 / 2 / 2 / 2 / 2 / 2 / 2 % 2 == 1
  {
    hide Bits;
    var b1 := Half(b); var b2 := Half(b1); var b3 := Half(b2); var b4 := Half(b3);
    var b5 := Half(b4); var b6 := Half(b5); var b7 := Half(b6);
    BitsShow(Odd(b), Odd(b1), Odd(b2), Odd(b3), Odd(b4), Odd(b5), Odd(b6), Odd(b7));
  }

  lemma BitsShow(p0: bool, p1: bool, p2: bool, p3: bool, p4: bool, p5: bool, p6: bool, p7: bool)
    ensures var w := Bits(p0, p1, p2, p3, p4, p5, p6, p7);
            && (w & 1 != 0 <==> p0) && (w & 2 != 0 <==> p1) && (w & 4 != 0 <==> p2) && (w & 8 != 0 <==> p3)
            && (w & 16 != 0 <==> p4) && (w & 32 != 0 <==> p5) && (w & 64 != 0 <==> p6) && (w & 128 != 0 <==> p7)
  {}

  /** Byte by byte, a number in a machine word. */
  lemma BytesOfWord(x: u32)
    ensures Word(x) == ByteBits(x % 256) | (ByteBits(x / 256 % 256) << 8) | (ByteBits(x / 256 / 256 % 256) << 16)
                       | (ByteBits(x / 256 / 256 / 256 % 256) << 24)
  {
    hide ByteBits;
  }

  // ---- the conversions lose nothing ---------------------------------------

  lemma BitsDiffer(p0: bool, p1: bool, p2: bool, p3: bool, p4: bool, p5: bool, p6: bool, p7: bool,
                   q0: bool, q1: bool, q2: bool, q3: bool, q4: bool, q5: bool, q6: bool, q7: bool)
    requires Bits(p0, p1, p2, p3, p4, p5, p6, p7) == Bits(q0, q1, q2, q3, q4, q5, q6, q7)
    ensures p0 == q0 && p1 == q1 && p2 == q2 && p3 == q3 && p4 == q4 && p5 == q5 && p6 == q6 && p7 == q7
  {}

  lemma SameFromHalves(x: nat, y: nat)
    requires Half(x) == Half(y) && Odd(x) == Odd(y)
    ensures x == y
  {}

  lemma SingleBits(x: nat, y: nat)
    requires x < 2 && y < 2 && Odd(x) == Odd(y)
    ensures x == y
  {}

  /** The eighth bit of a byte is its last. */
  function TopBit(b: byte): nat { Half(Half(Half(Half(Half(Half(Half(b))))))) }

  lemma TopBitIsOne(b: byte)
    ensures TopBit(b) < 2
  {
    hide Half;
    HalfBelow(b, 128);
    HalfBelow(Half(b), 64);
    HalfBelow(Half(Half(b)), 32);
    HalfBelow(Half(Half(Half(b))), 16);
    HalfBelow(Half(Half(Half(Half(b)))), 8);
    HalfBelow(Half(Half(Half(Half(Half(b))))), 4);
    HalfBelow(Half(Half(Half(Half(Half(Half(b)))))), 2);
  }

  lemma HalfBelow(x: nat, n: nat)
    requires x < 2 * n
    ensures Half(x) < n
  {}

  lemma BytesDiffer(x: byte, y: byte)
    ensures ByteBits(x) == ByteBits(y) <==> x == y
    ensures ByteBits(x) & 0xffff_ff00 == 0
  {
    hide Bits, Half, Odd;
    var x1 := Half(x); var x2 := Half(x1); var x3 := Half(x2); var x4 := Half(x3);
    var x5 := Half(x4); var x6 := Half(x5); var x7 := Half(x6);
    var y1 := Half(y); var y2 := Half(y1); var y3 := Half(y2); var y4 := Half(y3);
    var y5 := Half(y4); var y6 := Half(y5); var y7 := Half(y6);
    BitsAreSmall(Odd(x), Odd(x1), Odd(x2), Odd(x3), Odd(x4), Odd(x5), Odd(x6), Odd(x7));
    if ByteBits(x) == ByteBits(y) {
      BitsDiffer(Odd(x), Odd(x1), Odd(x2), Odd(x3), Odd(x4), Odd(x5), Odd(x6), Odd(x7),
                 Odd(y), Odd(y1), Odd(y2), Odd(y3), Odd(y4), Odd(y5), Odd(y6), Odd(y7));
      TopBitIsOne(x);
      TopBitIsOne(y);
      SingleBits(x7, y7);
      SameFromHalves(x6, y6);
      SameFromHalves(x5, y5);
      SameFromHalves(x4, y4);
      SameFromHalves(x3, y3);
      SameFromHalves(x2, y2);
      SameFromHalves(x1, y1);
      SameFromHalves(x, y);
    }
  }

  lemma BitsAreSmall(p0: bool, p1: bool, p2: bool, p3: bool, p4: bool, p5: bool, p6: bool, p7: bool)
    ensures Bits(p0, p1, p2, p3, p4, p5, p6, p7) & 0xffff_ff00 == 0
  {}

  lemma JoinKeepsBytes(a0: bv32, a1: bv32, a2: bv32, a3: bv32, b0: bv32, b1: bv32, b2: bv32, b3: bv32)
    requires a0 & 0xffff_ff00 == 0 && a1 & 0xffff_ff00 == 0 && a2 & 0xffff_ff00 == 0 && a3 & 0xffff_ff00 == 0
    requires b0 & 0xffff_ff00 == 0 && b1 & 0xffff_ff00 == 0 && b2 & 0xffff_ff00 == 0 && b3 & 0xffff_ff00 == 0
    requires Join(a0, a1, a2, a3) == Join(b0, b1, b2, b3)
    ensures a0 == b0 && a1 == b1 && a2 == b2 && a3 == b3
  {}

  lemma SameFromBytes(x: nat, y: nat)
    requires Low(x) == Low(y) && High(x) == High(y)
    ensures x == y
  {}

  lemma FourBytes(x: u32)
    ensures High(High(High(High(x)))) == 0
  {
    hide High;
    HighBelow(x, 16777216);
    HighBelow(High(x), 65536);
    HighBelow(High(High(x)), 256);
    HighBelow(High(High(High(x))), 1);
  }

  lemma HighBelow(x: nat, n: nat)
    requires x < 256 * n
    ensures High(x) < n
  {}

  lemma WordsDiffer(x: u32, y: u32)
    ensures Word(x) == Word(y) <==> x == y
  {
    hide ByteBits, Join, Low, High;
    if Word(x) == Word(y) {
      var x1 := High(x); var x2 := High(x1); var x3 := High(x2);
      var y1 := High(y); var y2 := High(y1); var y3 := High(y2);
      WordBytesAgree(Low(x), Low(x1), Low(x2), Low(x3), Low(y), Low(y1), Low(y2), Low(y3));
      FourBytes(x);
      FourBytes(y);
      SameFromBytes(x3, y3);
      SameFromBytes(x2, y2);
      SameFromBytes(x1, y1);
      SameFromBytes(x, y);
    }
  }

  lemma WordBytesAgree(x0: byte, x1: byte, x2: byte, x3: byte, y0: byte, y1: byte, y2: byte, y3: byte)
    requires Join(ByteBits(x0), ByteBits(x1), ByteBits(x2), ByteBits(x3))
          == Join(ByteBits(y0), ByteBits(y1), ByteBits(y2), ByteBits(y3))
    ensures x0 == y0 && x1 == y1 && x2 == y2 && x3 == y3
  {
    hide ByteBits, Join;
    BytesDiffer(x0, y0); BytesDiffer(x1, y1); BytesDiffer(x2, y2); BytesDiffer(x3, y3);
    BytesDiffer(y0, x0); BytesDiffer(y1, x1); BytesDiffer(y2, x2); BytesDiffer(y3, x3);
    JoinKeepsBytes(ByteBits(x0), ByteBits(x1), ByteBits(x2), ByteBits(x3), ByteBits(y0), ByteBits(y1), ByteBits(y2), ByteBits(y3));
  }

  lemma NumbersDiffer(x: bv64, y: bv64)
    ensures Number(x) == Number(y) <==> x == y
  {
    assert (x as int) as bv64 == x;
    assert (y as int) as bv64 == y;
  }

  lemma SignedWordsDiffer(x: s32, y: s32)
    ensures ToU32(x) == ToU32(y) <==> x == y
  {}

  /** Two records of one task that differ in one descriptor or port never share a flow id. */
  lemma OneFieldShows(task: u64, ev: NetworkEvent, v: s32, port: u32)
    ensures NetworkFlowId(task, ev.(fd := v)) == NetworkFlowId(task, ev) <==> v == ev.fd
    ensures NetworkFlowId(task, ev.(peerFd := v)) == NetworkFlowId(task, ev) <==> v == ev.peerFd
    ensures NetworkFlowId(task, ev.(local := ev.local.(port := port))) == NetworkFlowId(task, ev) <==> port == ev.local.port
    ensures NetworkFlowId(task, ev.(remote := ev.remote.(port := port))) == NetworkFlowId(task, ev) <==> port == ev.remote.port
  {
    hide NetworkFlowId;
    FdShows(task, ev, v);
    PeerShows(task, ev, v);
    LocalPortShows(task, ev, port);
    RemotePortShows(task, ev, port);
  }

  /** The two low bytes of a word that was moved up by 16. */
  function LowByte0(z: bv32): bv32 { (z >> 16) & 0xff }

  function LowByte1(z: bv32): bv32 { z >> 24 }

  function LowPair(a0: bv32, a1: bv32): bv32 { (a0 << 16) | (a1 << 24) }

  lemma LowOfJoin(a0: bv32, a1: bv32, a2: bv32, a3: bv32)
    ensures Low16(Join(a0, a1, a2, a3)) == LowPair(a0, a1)
  {}

  lemma LowBytesRead(a0: bv32, a1: bv32)
    requires a0 & 0xffff_ff00 == 0 && a1 & 0xffff_ff00 == 0
    ensures LowByte0(LowPair(a0, a1)) == a0 && LowByte1(LowPair(a0, a1)) == a1
  {}

  lemma LowIsItsBytes(x: u32)
    ensures x % 65536 == Low(x) + 256 * Low(High(x))
  {
    hide Low, High;
    LowAndHigh(x);
    LowAndHigh(High(x));
    RemainderIs(x, High(High(x)), Low(x) + 256 * Low(High(x)));
  }

  lemma LowAndHigh(x: nat)
    ensures x == Low(x) + 256 * High(x)
  {}

  lemma RemainderIs(x: nat, q: nat, r: nat)
    requires x == 65536 * q + r && r < 65536
    ensures x % 65536 == r
  {}

  lemma LowWordsDiffer(x: u32, y: u32)
    ensures Low16(Word(x)) == Low16(Word(y)) <==> x % 65536 == y % 65536
  {
    hide ByteBits, Join, Low16, LowByte0, LowByte1, LowPair, Low, High;
    var x0, x1, y0, y1 := Low(x), Low(High(x)), Low(y), Low(High(y));
    BytesDiffer(x0, y0);
    BytesDiffer(y0, x0);
    BytesDiffer(x1, y1);
    BytesDiffer(y1, x1);
    LowOfJoin(ByteBits(x0), ByteBits(x1), ByteBits(Low(High(High(x)))), ByteBits(Low(High(High(High(x))))));
    LowOfJoin(ByteBits(y0), ByteBits(y1), ByteBits(Low(High(High(y)))), ByteBits(Low(High(High(High(y))))));
    LowBytesRead(ByteBits(x0), ByteBits(x1));
    LowBytesRead(ByteBits(y0), ByteBits(y1));
    LowIsItsBytes(x);
    LowIsItsBytes(y);
  }

  /** A different kind shows exactly if it differs modulo 2^16. */
  lemma KindShows(task: u64, ev: NetworkEvent, kind: u32)
    ensures NetworkFlowId(task, ev.(kind := kind)) == NetworkFlowId(task, ev) <==> kind % 65536 == ev.kind % 65536
  {
    hide Word, Number, ComputeFlowId, ToU32;
    var f, w := FlowOf(task, ev), Word(kind);
    OneFieldDecides(f, w);
    LowWordsDiffer(kind, ev.kind);
    NumbersDiffer(ComputeFlowId(f.(kind := w)), ComputeFlowId(f));
    assert FlowOf(task, ev.(kind := kind)) == f.(kind := w);
  }

  lemma LocalPortShows(task: u64, ev: NetworkEvent, port: u32)
    ensures NetworkFlowId(task, ev.(local := ev.local.(port := port))) == NetworkFlowId(task, ev) <==> port == ev.local.port
  {
    hide Word, Number, ComputeFlowId, ToU32;
    var f, w := FlowOf(task, ev), Word(port);
    OneFieldDecides(f, w);
    WordsDiffer(port, ev.local.port);
    NumbersDiffer(ComputeFlowId(f.(localPort := w)), ComputeFlowId(f));
    assert FlowOf(task, ev.(local := ev.local.(port := port))) == f.(localPort := w);
  }

  lemma RemotePortShows(task: u64, ev: NetworkEvent, port: u32)
    ensures NetworkFlowId(task, ev.(remote := ev.remote.(port := port))) == NetworkFlowId(task, ev) <==> port == ev.remote.port
  {
    hide Word, Number, ComputeFlowId, ToU32;
    var f, w := FlowOf(task, ev), Word(port);
    OneFieldDecides(f, w);
    WordsDiffer(port, ev.remote.port);
    NumbersDiffer(ComputeFlowId(f.(remotePort := w)), ComputeFlowId(f));
    assert FlowOf(task, ev.(remote := ev.remote.(port := port))) == f.(remotePort := w);
  }

  lemma FdShows(task: u64, ev: NetworkEvent, v: s32)
    ensures NetworkFlowId(task, ev.(fd := v)) == NetworkFlowId(task, ev) <==> v == ev.fd
  {
    hide Word, Number, ComputeFlowId, ToU32;
    var f := FlowOf(task, ev);
    var w := Word(ToU32(v));
    OneFieldDecides(f, w);
    SignedWordsDiffer(v, ev.fd);
    WordsDiffer(ToU32(v), ToU32(ev.fd));
    NumbersDiffer(ComputeFlowId(f.(fd := w)), ComputeFlowId(f));
    assert FlowOf(task, ev.(fd := v)) == f.(fd := w);
  }

  lemma PeerShows(task: u64, ev: NetworkEvent, v: s32)
    ensures NetworkFlowId(task, ev.(peerFd := v)) == NetworkFlowId(task, ev) <==> v == ev.peerFd
  {
    hide Word, Number, ComputeFlowId, ToU32;
    var f := FlowOf(task, ev);
    var w := Word(ToU32(v));
    OneFieldDecides(f, w);
    SignedWordsDiffer(v, ev.peerFd);
    WordsDiffer(ToU32(v), ToU32(ev.peerFd));
    NumbersDiffer(ComputeFlowId(f.(peerFd := w)), ComputeFlowId(f));
    assert FlowOf(task, ev.(peerFd := v)) == f.(peerFd := w);
  }

  // ---- a local address learnt later ---------------------------------------

  function Xor32(a: bv32, b: bv32): bv32 { a ^ b }

  /** What a local endpoint contributes to the id. */
  function LocalPart(ep: Endpoint): bv32 { Xor32(Word(ep.port), Word(FirstWord(ep))) }

  lemma XorAssociates(a: bv64, b: bv64, c: bv64)
    ensures Xor(a, Xor(b, c)) == Xor(Xor(a, b), c)
  {
    hide Xor;
    XorText(a, b, c);
    XorText(b, c, c);
    XorOfText(a, b, c);
  }

  lemma XorOfText(a: bv64, b: bv64, c: bv64)
    ensures Xor(a, b ^ c) == Xor(a ^ b, c)
  {}

  lemma WideXor(a: bv32, b: bv32)
    ensures (a as bv64) ^ (b as bv64) == (a ^ b) as bv64
  {}

  lemma LocalPartsMeet(a: bv32, b: bv32)
    ensures Xor(Shl0(a), Shl0(b)) == Shl0(Xor32(a, b))
  {
    hide Xor, Shl0, Xor32;
    XorText(Shl0(a), Shl0(b), 0);
    ShlBody(a);
    ShlBody(b);
    ShlBody(Xor32(a, b));
    Xor32Text(a, b);
    WideXor(a, b);
  }

  lemma Xor32Text(a: bv32, b: bv32)
    ensures Xor32(a, b) == a ^ b
  {}

  /** The mix sees of the local endpoint only the xor of its port and its first word. */
  lemma MixOfLocal(f: Flow)
    ensures Mix(f) == Xor(Xor(Xor(Xor(Xor(Xor(f.pidTgid, Shl48(f.kind)), Shl32(f.fd)), Shl16(f.peerFd)), Shl32(f.remotePort)),
                              Shl16(f.remote4)), Shl0(Xor32(f.localPort, f.local4)))
  {
    hide Xor, Xor32, Shl0, Shl16, Shl32, Shl48;
    var z := Xor(Xor(Xor(f.pidTgid, Shl48(f.kind)), Shl32(f.fd)), Shl16(f.peerFd));
    var lp, rp, l4, r4 := Shl0(f.localPort), Shl32(f.remotePort), Shl0(f.local4), Shl16(f.remote4);
    XorSwaps(z, lp, rp);
    XorSwaps(Xor(Xor(z, rp), lp), l4, r4);
    XorSwaps(Xor(z, rp), lp, r4);
    XorAssociates(Xor(Xor(z, rp), r4), lp, l4);
    LocalPartsMeet(f.localPort, f.local4);
  }

  /** Replacing the local endpoint keeps the id exactly when port xor first word stays the same. */
  lemma LocalShowsIff(task: u64, ev: NetworkEvent, local: Endpoint)
    ensures NetworkFlowId(task, ev.(local := local)) == NetworkFlowId(task, ev) <==> LocalPart(local) == LocalPart(ev.local)
  {
    hide Word, Number, ComputeFlowId, ToU32, Xor, Xor32, Shl0, Shl16, Shl32, Shl48, Mix;
    var f, g := FlowOf(task, ev), FlowOf(task, ev.(local := local));
    NumbersDiffer(ComputeFlowId(g), ComputeFlowId(f));
    FlowIdsCollideIff(g, f);
    MixOfLocal(f);
    MixOfLocal(g);
    XorCancels();
    ShlDecides(LocalPart(local), LocalPart(ev.local));
  }
}
