/** The 64-bit flow identifier (bpf/event_logger_common.bpf.h:510-539). */
module FlowId {

  // ---- the mixer ----------------------------------------------------------

  function XorShift(x: bv64): bv64 { x ^ (x >> 33) }

  function Mul1(x: bv64): bv64 { x * 0xff51afd7ed558ccd }

  function Mul2(x: bv64): bv64 { x * 0xc4ceb9fe1a85ec53 }

  /** Multiplication by the inverses of the two odd constants modulo 2^64. */
  function Div1(x: bv64): bv64 { x * 0x4f74430c22a54005 }

  function Div2(x: bv64): bv64 { x * 0x9cb4b2f8129337db }

  function HashFold64(x: bv64): bv64 { XorShift(Mul2(XorShift(Mul1(XorShift(x))))) }

  function Unfold64(y: bv64): bv64 { XorShift(Div1(XorShift(Div2(XorShift(y))))) }

  // One side of each equation is left as plain bit-vector text, which the solver simplifies;
  // the functions themselves stay folded in every later proof.

  lemma XorShiftBody(x: bv64)
    ensures XorShift(x) == x ^ (x >> 33)
    ensures XorShift(x ^ (x >> 33)) == x
  {}

  lemma MulBody(x: bv64)
    ensures Mul1(x) == x * 0xff51afd7ed558ccd && Mul2(x) == x * 0xc4ceb9fe1a85ec53
    ensures Div1(x) == x * 0x4f74430c22a54005 && Div2(x) == x * 0x9cb4b2f8129337db
  {}

  lemma MulOfBody(x: bv64)
    ensures Div1(x * 0xff51afd7ed558ccd) == x && Mul1(x * 0x4f74430c22a54005) == x
    ensures Div2(x * 0xc4ceb9fe1a85ec53) == x && Mul2(x * 0x9cb4b2f8129337db) == x
  {}

  /** Shifting by more than half the width is its own inverse under xor. */
  lemma XorShiftIsInvolution(x: bv64)
    ensures XorShift(XorShift(x)) == x
  {
    hide XorShift;
    XorShiftBody(x);
  }

  lemma MultipliersInvert(x: bv64)
    ensures Div1(Mul1(x)) == x && Mul1(Div1(x)) == x && Div2(Mul2(x)) == x && Mul2(Div2(x)) == x
  {
    hide Mul1, Mul2, Div1, Div2;
    MulBody(x);
    MulOfBody(x);
  }

  /** The mixer is a permutation of the 64-bit values: `Unfold64` undoes it, and it undoes `Unfold64`. */
  lemma HashFoldIsPermutation(x: bv64)
    ensures Unfold64(HashFold64(x)) == x && HashFold64(Unfold64(x)) == x
  {
    hide XorShift, Mul1, Mul2, Div1, Div2;
    var a := Mul1(XorShift(x));
    var b := Mul2(XorShift(a));
    XorShiftIsInvolution(x);
    XorShiftIsInvolution(a);
    XorShiftIsInvolution(b);
    MultipliersInvert(XorShift(x));
    MultipliersInvert(XorShift(a));
    var c := Div2(XorShift(x));
    var d := Div1(XorShift(c));
    XorShiftIsInvolution(c);
    XorShiftIsInvolution(d);
    MultipliersInvert(XorShift(c));
  }

  // ---- the mixed fields ---------------------------------------------------

  function Xor(a: bv64, b: bv64): bv64 { a ^ b }

  function Shl0(x: bv32): bv64 { x as bv64 }

  function Shl16(x: bv32): bv64 { (x as bv64) << 16 }

  function Shl32(x: bv32): bv64 { (x as bv64) << 32 }

  function Shl48(x: bv32): bv64 { (x as bv64) << 48 }

  /**
   * The fields of a record that enter its flow id. `local4` and `remote4` are the first four
   * address bytes as a word, 0 when fewer than four are known.
   */
  datatype Flow = Flow(pidTgid: bv64, kind: bv32, fd: bv32, peerFd: bv32, localPort: bv32, remotePort: bv32,
                       local4: bv32, remote4: bv32)

  function Mix(f: Flow): bv64 {
    Xor(Xor(Xor(Xor(Xor(Xor(Xor(f.pidTgid, Shl48(f.kind)), Shl32(f.fd)), Shl16(f.peerFd)),
                    Shl0(f.localPort)), Shl32(f.remotePort)), Shl0(f.local4)), Shl16(f.remote4))
  }

  function ComputeFlowId(f: Flow): bv64 { HashFold64(Mix(f)) }

  /** Known answers: the mixer is the finalizer of MurmurHash3, and each field has its own place. */
  lemma KnownAnswers()
    ensures HashFold64(0) == 0 && HashFold64(1) == 0xb456_bcfc_34c2_cb2c
    ensures HashFold64(0x0123_4567_89ab_cdef) == 0x87cb_fbfe_8902_2cea
    ensures ComputeFlowId(Flow(0x0000_1234_0000_5678, 2, 7, 9, 0x1f90, 0x01bb, 0x0100_007f, 0x0808_0808)) == 0x2777_1f4e_a354_332b
  {}

  lemma XorText(a: bv64, b: bv64, c: bv64)
    ensures Xor(a, b) == a ^ b
    ensures Xor(a ^ b, c) == Xor(a ^ c, b)
  {}

  /** Xor terms can trade places. */
  lemma XorSwaps(a: bv64, b: bv64, c: bv64)
    ensures Xor(Xor(a, b), c) == Xor(Xor(a, c), b)
  {
    hide Xor;
    XorText(a, b, c);
    XorText(a, c, b);
  }

  /** Xor with a fixed value loses nothing, on either side. */
  lemma XorCancels()
    ensures forall a, b, c {:trigger Xor(a, b), Xor(a, c)} :: Xor(a, b) == Xor(a, c) ==> b == c
    ensures forall a, b, c {:trigger Xor(a, c), Xor(b, c)} :: Xor(a, c) == Xor(b, c) ==> a == b
  {}

  /** What the shifts keep of a field: all of it, or for the kind its low half. */
  function Unshl0(y: bv64): bv32 { (y & 0xffff_ffff) as bv32 }

  function Unshl16(y: bv64): bv32 { ((y >> 16) & 0xffff_ffff) as bv32 }

  function Unshl32(y: bv64): bv32 { ((y >> 32) & 0xffff_ffff) as bv32 }

  function Unshl48(y: bv64): bv32 { (((y >> 48) & 0xffff_ffff) as bv32) << 16 }

  /** The low 16 bits of a kind, moved to the top. */
  function Low16(x: bv32): bv32 { x << 16 }

  function HighHalf(z: bv32): bv64 { (z as bv64) << 32 }

  lemma ShlBody(x: bv32)
    ensures Shl0(x) == x as bv64 && Shl16(x) == (x as bv64) << 16
    ensures Shl32(x) == (x as bv64) << 32 && Shl48(x) == (x as bv64) << 48
  {}

  lemma UnshlOfBody(x: bv32)
    ensures Unshl0(x as bv64) == x && Unshl16((x as bv64) << 16) == x
    ensures Unshl32((x as bv64) << 32) == x
    ensures Unshl48((x as bv64) << 48) == x << 16 && HighHalf(x << 16) == (x as bv64) << 48
    ensures Low16(x) == x << 16
  {}

  lemma UnshlInverts(x: bv32)
    ensures Unshl0(Shl0(x)) == x && Unshl16(Shl16(x)) == x && Unshl32(Shl32(x)) == x
    ensures Unshl48(Shl48(x)) == Low16(x) && HighHalf(Low16(x)) == Shl48(x)
  {
    hide Shl0, Shl16, Shl32, Shl48, Unshl0, Unshl16, Unshl32, Unshl48, HighHalf, Low16;
    ShlBody(x);
    UnshlOfBody(x);
  }

  /** A shifted field is lost only where it leaves the word: the kind above bit 15. */
  lemma ShlDecides(x: bv32, y: bv32)
    ensures Shl0(x) == Shl0(y) <==> x == y
    ensures Shl16(x) == Shl16(y) <==> x == y
    ensures Shl32(x) == Shl32(y) <==> x == y
    ensures Shl48(x) == Shl48(y) <==> Low16(x) == Low16(y)
  {
    hide Shl0, Shl16, Shl32, Shl48, Unshl0, Unshl16, Unshl32, Unshl48, HighHalf, Low16;
    UnshlInverts(x);
    UnshlInverts(y);
  }

  /** Flow ids collide exactly where the plain xor of the shifted fields does. */
  lemma FlowIdsCollideIff(f: Flow, g: Flow)
    ensures ComputeFlowId(f) == ComputeFlowId(g) <==> Mix(f) == Mix(g)
  {
    hide HashFold64, Unfold64, Mix;
    HashFoldIsPermutation(Mix(f));
    HashFoldIsPermutation(Mix(g));
  }

  /**
   * Two records of one task that differ in one field only: for a descriptor or a port the flow
   * ids always differ; for the kind they differ exactly when the low 16 bits do.
   */
  lemma OneFieldDecides(f: Flow, v: bv32)
    ensures ComputeFlowId(f.(fd := v)) == ComputeFlowId(f) <==> v == f.fd
    ensures ComputeFlowId(f.(peerFd := v)) == ComputeFlowId(f) <==> v == f.peerFd
    ensures ComputeFlowId(f.(localPort := v)) == ComputeFlowId(f) <==> v == f.localPort
    ensures ComputeFlowId(f.(remotePort := v)) == ComputeFlowId(f) <==> v == f.remotePort
    ensures ComputeFlowId(f.(kind := v)) == ComputeFlowId(f) <==> Low16(v) == Low16(f.kind)
  {
    hide ComputeFlowId, HashFold64, Xor, Shl0, Shl16, Shl32, Shl48;
    FlowIdsCollideIff(f.(fd := v), f);
    FlowIdsCollideIff(f.(peerFd := v), f);
    FlowIdsCollideIff(f.(localPort := v), f);
    FlowIdsCollideIff(f.(remotePort := v), f);
    FlowIdsCollideIff(f.(kind := v), f);
    XorCancels();
    ShlDecides(v, f.fd);
    ShlDecides(v, f.peerFd);
    ShlDecides(v, f.localPort);
    ShlDecides(v, f.remotePort);
    ShlDecides(v, f.kind);
  }

  /** Two fields at once can cancel: a descriptor and a remote port that trade places. */
  lemma SwappedFdAndPortCollide(f: Flow)
    ensures ComputeFlowId(f.(fd := f.remotePort, remotePort := f.fd)) == ComputeFlowId(f)
  {
    hide ComputeFlowId, HashFold64, Xor, Shl0, Shl16, Shl32, Shl48;
    FlowIdsCollideIff(f.(fd := f.remotePort, remotePort := f.fd), f);
    var z := Xor(f.pidTgid, Shl48(f.kind));
    var a, b, c, d := Shl32(f.fd), Shl16(f.peerFd), Shl0(f.localPort), Shl32(f.remotePort);
    XorSwaps(Xor(Xor(z, a), b), c, d);
    XorSwaps(Xor(z, a), b, d);
    XorSwaps(z, a, d);
    XorSwaps(Xor(z, d), a, b);
    XorSwaps(Xor(Xor(z, d), b), a, c);
  }
}
