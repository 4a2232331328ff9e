/** Which fields the flow id of a submitted record tells (bpf/event_logger_common.bpf.h:1097-1107). */
module KernelFlows {
  import opened Primitives
  import opened EventSchema
  import opened KernelModel
  import opened KernelCapture
  import opened NetworkFlow

  /** The id depends on the mixed fields alone. */
  lemma SameFieldsSameId(task: u64, a: NetworkEvent, b: NetworkEvent)
    requires a.kind == b.kind && a.fd == b.fd && a.peerFd == b.peerFd && a.local == b.local && a.remote == b.remote
    ensures NetworkFlowId(task, a) == NetworkFlowId(task, b)
  {}

  /** An id computed at exit mixes the record as it is submitted, but with the local address of the enter. */
  lemma FlowIdMixesEnterLocal(task: u64, kind: u32, s: NetworkState, ret: s64, env: ExitEnv)
    requires s.ev.flowId == 0
    ensures var out := FinishNetwork(task, kind, s, ret, env);
            out.flowId == NetworkFlowId(task, out.(local := s.ev.local))
  {
    hide NetworkFlowId, FinishFds, BytesAtExit, OptLenAtExit, RemoteAtExit, LocalAtExit;
    var out := FinishNetwork(task, kind, s, ret, env);
    var fds := FinishFds(kind, s, ret, env.user);
    var known := fds.(hdr := fds.hdr.(tsNs := env.nowNs), ret := ToS32(ret),
                      remote := RemoteAtExit(kind, s, ret, env.user), local := s.ev.local);
    SameFieldsSameId(task, known, out.(local := s.ev.local));
  }

  /** So it mixes the fields a reader sees exactly when port and first address word of the local address say the same. */
  lemma FlowIdMixesPrintedIff(task: u64, kind: u32, s: NetworkState, ret: s64, env: ExitEnv)
    requires s.ev.flowId == 0
    ensures var out := FinishNetwork(task, kind, s, ret, env);
            out.flowId == NetworkFlowId(task, out) <==> LocalPart(out.local) == LocalPart(s.ev.local)
  {
    hide NetworkFlowId, FinishNetwork, LocalPart;
    var out := FinishNetwork(task, kind, s, ret, env);
    FlowIdMixesEnterLocal(task, kind, s, ret, env);
    LocalShowsIff(task, out, s.ev.local);
  }

  /** A blank local address says what one does whose port is its first address word. */
  lemma BlankLocalPart(ep: Endpoint)
    ensures LocalPart(ep) == LocalPart(NO_ENDPOINT) <==> ep.port == FirstWord(ep)
  {
    hide Word, Xor32, FirstWord;
    WordsDiffer(ep.port, FirstWord(ep));
    WordsCancel(Word(ep.port), Word(FirstWord(ep)), Word(0));
    assert FirstWord(NO_ENDPOINT) == 0 by { BlankFirstWord(); }
  }

  lemma BlankFirstWord()
    ensures FirstWord(NO_ENDPOINT) == 0
  {}

  lemma WordsCancel(a: bv32, b: bv32, c: bv32)
    ensures Xor32(a, b) == Xor32(c, c) <==> a == b
  {
    hide Xor32;
    XorFacts(a, b);
    XorFacts(c, c);
    XorFacts(b, b);
  }

  lemma XorFacts(a: bv32, b: bv32)
    ensures Xor32(a, b) == a ^ b && Xor32(b, b) == 0 && Xor32(0, b) == b
    ensures Xor32(a ^ b, b) == a
  {}

  /** What the capture leaves to the exit. */
  lemma CaptureLeavesFlow(t: Task, kind: u32, a: Args, u: EnterReads)
    ensures CaptureNetwork(t, kind, a, u).ev.flowId == 0
    ensures kind == NETWORK_GETSOCKNAME ==> CaptureNetwork(t, kind, a, u).ev.local == NO_ENDPOINT
  {}

  /**
   * The id of a submitted record mixes its printed fields for every call but getsockname. That
   * one learns its local address too late: its id fits only if the address is not parsed or its
   * port and first four bytes cancel.
   */
  lemma PrintedFlowIdIff(t: Task, kind: u32, a: Args, u: EnterReads, ret: s64, env: ExitEnv)
    ensures var out := FinishNetwork(t.pidTgid, kind, CaptureNetwork(t, kind, a, u), ret, env);
            out.flowId == NetworkFlowId(t.pidTgid, out)
            <==> kind != NETWORK_GETSOCKNAME || out.local.port == FirstWord(out.local)
  {
    hide CaptureNetwork, NetworkFlowId, LocalPart, FinishNetwork, FirstWord;
    var s := CaptureNetwork(t, kind, a, u);
    CaptureLeavesFlow(t, kind, a, u);
    FlowIdMixesPrintedIff(t.pidTgid, kind, s, ret, env);
    if kind != NETWORK_GETSOCKNAME { OnlyGetsocknameLearnsLocal(t.pidTgid, kind, s, ret, env); }
    BlankLocalPart(FinishNetwork(t.pidTgid, kind, s, ret, env).local);
  }

  lemma OnlyGetsocknameLearnsLocal(task: u64, kind: u32, s: NetworkState, ret: s64, env: ExitEnv)
    requires kind != NETWORK_GETSOCKNAME
    ensures FinishNetwork(task, kind, s, ret, env).local == s.ev.local
  {
    hide FinishFds;
  }
}
