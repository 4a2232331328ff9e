/** The set of socket descriptors against the stream of records, and what that buys the reader. */
module KernelSockets {
  import opened Primitives
  import opened EventSchema
  import opened KernelModel
  import opened KernelPairing

  // ---- replaying the stream -----------------------------------------------

  function ReplayOne(fds: set<SocketFd>, rec: Record): set<SocketFd> {
    if !rec.NetworkRecord? || rec.netRec.ret < 0 then fds else
      var e := rec.netRec;
      var fd, peer := (e.hdr.tgid, ToU32(e.fd)), (e.hdr.tgid, ToU32(e.peerFd));
      if e.kind == NETWORK_SOCKET then fds + {fd}
      else if e.kind == NETWORK_SOCKETPAIR then fds + {fd, peer}
      else if e.kind in ACCEPTS then fds + {peer}
      else if e.kind == NETWORK_CLOSE then fds - {fd}
      else fds
  }

  /** The open sockets a reader infers: successful creations add, successful closes remove. */
  function Replay(stream: seq<Record>): set<SocketFd>
    decreases |stream|
  {
    if stream == [] then {} else ReplayOne(Replay(stream[..|stream| - 1]), stream[|stream| - 1])
  }

  predicate Creates(o: Obs, fd: SocketFd) {
    Emitted(o).Some? && fd in ReplayOne({}, Emitted(o).value)
  }

  predicate ClosesFd(o: Obs, fd: SocketFd) {
    Emitted(o).Some? && fd !in ReplayOne({fd}, Emitted(o).value)
  }

  /** At time `n` the stream shows a creation of `fd` and no successful close of it since. */
  predicate OpenAt(trace: seq<Obs>, n: nat, fd: SocketFd)
    requires n <= |trace|
  {
    exists c :: 0 <= c < n && Creates(trace[c], fd) && forall m :: c < m < n ==> !ClosesFd(trace[m], fd)
  }

  lemma StreamSnoc(trace: seq<Obs>, o: Obs)
    ensures Stream(trace + [o]) == match Emitted(o) case Some(rec) => Stream(trace) + [rec] case None => Stream(trace)
  {
    assert (trace + [o])[..|trace|] == trace;
  }

  lemma ReplaySnoc(trace: seq<Obs>, o: Obs)
    ensures Replay(Stream(trace + [o])) ==
            match Emitted(o) case Some(rec) => ReplayOne(Replay(Stream(trace)), rec) case None => Replay(Stream(trace))
  {
    hide ReplayOne;
    StreamSnoc(trace, o);
    match Emitted(o)
    case Some(rec) => assert (Stream(trace) + [rec])[..|Stream(trace)|] == Stream(trace);
    case None =>
  }

  /** Replaying one record: what it adds and removes does not depend on the rest of the set. */
  lemma ReplayOneMember(fds: set<SocketFd>, rec: Record, fd: SocketFd)
    ensures fd in ReplayOne(fds, rec) <==>
            fd in ReplayOne({}, rec) || (fd in fds && fd in ReplayOne({fd}, rec))
  {}

  lemma OpenSnoc(trace: seq<Obs>, o: Obs, fd: SocketFd)
    ensures OpenAt(trace + [o], |trace| + 1, fd) <==> Creates(o, fd) || (OpenAt(trace, |trace|, fd) && !ClosesFd(o, fd))
  {
    hide Creates, ClosesFd;
    var all := trace + [o];
    assert all[|trace|] == o && forall m :: 0 <= m < |trace| ==> all[m] == trace[m];
    if Creates(o, fd) { assert Creates(all[|trace|], fd); }
    if OpenAt(trace, |trace|, fd) && !ClosesFd(o, fd) {
      var c :| 0 <= c < |trace| && Creates(trace[c], fd) && forall m :: c < m < |trace| ==> !ClosesFd(trace[m], fd);
      assert Creates(all[c], fd);
    }
    if OpenAt(all, |trace| + 1, fd) {
      var c :| 0 <= c < |trace| + 1 && Creates(all[c], fd) && forall m :: c < m < |trace| + 1 ==> !ClosesFd(all[m], fd);
      if c < |trace| {
        assert !ClosesFd(all[|trace|], fd);
        forall m | c < m < |trace| ensures !ClosesFd(trace[m], fd) { assert !ClosesFd(all[m], fd); }
        assert Creates(trace[c], fd);
      }
    }
  }

  lemma OpenIsStable(trace: seq<Obs>, o: Obs, n: nat, fd: SocketFd)
    requires n <= |trace| && OpenAt(trace, n, fd)
    ensures OpenAt(trace + [o], n, fd)
  {
    hide Creates, ClosesFd;
    var all := trace + [o];
    var c :| 0 <= c < n && Creates(trace[c], fd) && forall m :: c < m < n ==> !ClosesFd(trace[m], fd);
    assert Creates(all[c], fd) && forall m :: c < m < n ==> !ClosesFd(all[m], fd);
  }

  /** Replaying finds exactly the descriptors created and not closed since. */
  lemma {:induction false} ReplayIsOpen(trace: seq<Obs>, fd: SocketFd)
    ensures fd in Replay(Stream(trace)) <==> OpenAt(trace, |trace|, fd)
    decreases |trace|
  {
    if trace != [] {
      var before, o := trace[..|trace| - 1], trace[|trace| - 1];
      assert before + [o] == trace;
      ReplayIsOpen(before, fd);
      ReplaySnoc(before, o);
      OpenSnoc(before, o, fd);
      if Emitted(o).Some? { ReplayOneMember(Replay(Stream(before)), Emitted(o).value, fd); }
    }
  }

  // ---- what stays true of the payloads ------------------------------------

  ghost predicate PayloadsMatch(k: Kernel) {
    forall key :: key in k.pending ==> Captures(key, k.pending[key])
  }

  lemma NextKeepsPayloads(g: Gates, k: Kernel, s: Step)
    requires PayloadsMatch(k) && LegalStep(s)
    ensures PayloadsMatch(Next(g, k, s))
  {
    hide Captures, GateOpen, FdGateOpen, FdsAfterExit, Finish;
  }

  lemma FdsKeepFields(kind: u32, s: NetworkState, ret: s64, r: ExitReads)
    ensures var f := FinishFds(kind, s, ret, r);
            && f == s.ev.(fd := f.fd, peerFd := f.peerFd)
            && (f.fd == s.ev.fd || (ret >= 0 && kind in {NETWORK_SOCKET, NETWORK_SOCKETPAIR}))
            && (f.peerFd == s.ev.peerFd || (ret >= 0 && kind in ACCEPTS + {NETWORK_SOCKETPAIR}))
  {}

  /**
   * A network record is its enter-time snapshot, with this exit's result and time, and with only
   * the fields its kind learns at exit replaced, and those only when the call succeeded.
   */
  lemma FinishKeepsEnterFields(task: u64, kind: u32, s: NetworkState, ret: s64, env: ExitEnv)
    ensures var out := FinishNetwork(task, kind, s, ret, env);
            && out.ret == ToS32(ret) && out.hdr == s.ev.hdr.(tsNs := env.nowNs)
            && (out.fd == s.ev.fd || (ret >= 0 && kind in {NETWORK_SOCKET, NETWORK_SOCKETPAIR}))
            && (out.peerFd == s.ev.peerFd || (ret >= 0 && kind in ACCEPTS + {NETWORK_SOCKETPAIR}))
            && (out.remote == s.ev.remote || (ret >= 0 && kind in REMOTE_KINDS))
            && (out.local == s.ev.local || (ret >= 0 && kind == NETWORK_GETSOCKNAME))
            && (out.bytesTransferred == s.ev.bytesTransferred || (ret >= 0 && kind in RET_IS_BYTES + MMSG_KINDS))
            && ((out.optLen == s.ev.optLen && out.optvalPrefix == s.ev.optvalPrefix)
                || (ret >= 0 && kind == NETWORK_GETSOCKOPT))
            && (out.flowId == s.ev.flowId || s.ev.flowId == 0)
            && s.ev == out.(hdr := s.ev.hdr, fd := s.ev.fd, peerFd := s.ev.peerFd, ret := s.ev.ret,
                            remote := s.ev.remote, local := s.ev.local, bytesTransferred := s.ev.bytesTransferred,
                            optLen := s.ev.optLen, optvalPrefix := s.ev.optvalPrefix, flowId := s.ev.flowId)
  {
    hide FinishFds;
    FdsKeepFields(kind, s, ret, env.user);
  }

  /** The descriptors of the completed record are those `FinishFds` chose. */
  lemma FinishUsesFds(task: u64, kind: u32, s: NetworkState, ret: s64, env: ExitEnv)
    ensures var out, fds := FinishNetwork(task, kind, s, ret, env), FinishFds(kind, s, ret, env.user);
            && out.fd == fds.fd && out.peerFd == fds.peerFd && out.kind == s.ev.kind
            && out.ret == ToS32(ret) && out.hdr.tgid == s.ev.hdr.tgid
  {
    hide FinishFds, BytesAtExit, OptLenAtExit, AddressAtExit, FlowIdAtExit, RemoteAtExit, LocalAtExit;
    FdsKeepFields(kind, s, ret, env.user);
  }

  // ---- agreement ----------------------------------------------------------

  /** Storing the result in the record's 32-bit field does not change its sign. */
  predicate SignKept(ret: s64) { ret >= 0 <==> ToS32(ret) >= 0 }

  /** The exit stores a descriptor, or is a failed close. */
  predicate SignMatters(kind: u32, s: NetworkState, ret: s64, u: ExitReads) {
    || (kind in {NETWORK_SOCKET} + ACCEPTS && ret >= 0 && u.store0)
    || (PairRead(kind, s, ret, u) && (u.store0 || u.store1))
    || (kind == NETWORK_CLOSE && ret < 0)
  }

  /** The descriptors this exit puts into the fd map. */
  function Stored(tgid: u32, kind: u32, s: NetworkState, ret: s64, u: ExitReads): set<SocketFd> {
    var out := FinishFds(kind, s, ret, u);
    if kind == NETWORK_SOCKET && ret >= 0 then AddFd({}, tgid, out.fd, u.store0)
    else if PairRead(kind, s, ret, u) then AddFd(AddFd({}, tgid, out.fd, u.store0), tgid, out.peerFd, u.store1)
    else if kind in ACCEPTS && ret >= 0 then AddFd({}, tgid, out.peerFd, u.store0)
    else {}
  }

  /** The descriptors its record announces as created if it says the call succeeded. */
  function Announced(tgid: u32, kind: u32, s: NetworkState, ret: s64, u: ExitReads): set<SocketFd> {
    var out := FinishFds(kind, s, ret, u);
    var fd, peer := (tgid, ToU32(out.fd)), (tgid, ToU32(out.peerFd));
    if kind == NETWORK_SOCKET then {fd}
    else if kind == NETWORK_SOCKETPAIR then {fd, peer}
    else if kind in ACCEPTS then {peer}
    else {}
  }

  /** A close names a descriptor of `fds`. */
  predicate ClosesOneOf(fds: set<SocketFd>, tgid: u32, kind: u32, s: NetworkState) {
    kind == NETWORK_CLOSE && (tgid, ToU32(s.ev.fd)) in fds
  }

  /** The record hides a success that stored an unknown descriptor, or a failure to close a known one. */
  predicate Unaccounted(fds: set<SocketFd>, stream: set<SocketFd>, tgid: u32, kind: u32, s: NetworkState, ret: s64, u: ExitReads) {
    !SignKept(ret) && if ret >= 0 then !(Stored(tgid, kind, s, ret, u) <= stream) else ClosesOneOf(fds, tgid, kind, s)
  }

  /** Besides that, the record announces a descriptor that was not stored and not known, or hides a close of a known one. */
  predicate Differs(fds: set<SocketFd>, tgid: u32, kind: u32, s: NetworkState, ret: s64, u: ExitReads) {
    || Unaccounted(fds, fds, tgid, kind, s, ret, u)
    || (ToS32(ret) >= 0 && !(Announced(tgid, kind, s, ret, u) <= fds + Stored(tgid, kind, s, ret, u)))
    || (ret >= 0 && ToS32(ret) < 0 && ClosesOneOf(fds, tgid, kind, s))
  }

  lemma FdsAfterExitIs(fds: set<SocketFd>, tgid: u32, kind: u32, s: NetworkState, ret: s64, u: ExitReads)
    ensures FdsAfterExit(fds, tgid, kind, s, ret, u) ==
            if kind == NETWORK_CLOSE && ret >= 0 then fds - {(tgid, ToU32(s.ev.fd))} else fds + Stored(tgid, kind, s, ret, u)
  {}

  lemma ReplayOneIs(stream: set<SocketFd>, task: u64, kind: u32, s: NetworkState, ret: s64, env: ExitEnv)
    requires Captures(NetworkKey(task, kind), NetworkPayload(s))
    ensures ReplayOne(stream, NetworkRecord(FinishNetwork(task, kind, s, ret, env))) ==
            if ToS32(ret) < 0 then stream
            else if kind == NETWORK_CLOSE then stream - {(Tgid(task), ToU32(s.ev.fd))}
            else stream + Announced(Tgid(task), kind, s, ret, env.user)
  {
    hide FinishNetwork, FinishFds, Tgid, ToU32, ToS32;
    FinishUsesFds(task, kind, s, ret, env);
    CloseKeepsFd(kind, s, ret, env.user);
  }

  lemma CloseKeepsFd(kind: u32, s: NetworkState, ret: s64, u: ExitReads)
    ensures kind == NETWORK_CLOSE ==> FinishFds(kind, s, ret, u) == s.ev
  {}

  lemma StoredIsAnnounced(tgid: u32, kind: u32, s: NetworkState, ret: s64, u: ExitReads)
    ensures Stored(tgid, kind, s, ret, u) <= Announced(tgid, kind, s, ret, u)
    ensures ret < 0 || kind == NETWORK_CLOSE ==> Stored(tgid, kind, s, ret, u) == {}
    ensures kind == NETWORK_CLOSE ==> Announced(tgid, kind, s, ret, u) == {}
  {
    hide FinishFds;
  }

  /** One submitted record keeps the fd map within the account, or equal to it, exactly when it is not of those kinds. */
  lemma SubmitAgreesIff(fds: set<SocketFd>, stream: set<SocketFd>, task: u64, kind: u32, s: NetworkState, ret: s64, env: ExitEnv)
    requires Captures(NetworkKey(task, kind), NetworkPayload(s)) && fds <= stream
    ensures var after := FdsAfterExit(fds, Tgid(task), kind, s, ret, env.user);
            var replayed := ReplayOne(stream, NetworkRecord(FinishNetwork(task, kind, s, ret, env)));
            && (after <= replayed <==> !Unaccounted(fds, stream, Tgid(task), kind, s, ret, env.user))
            && (fds == stream ==> (after == replayed <==> !Differs(fds, Tgid(task), kind, s, ret, env.user)))
  {
    FdsAfterExitIs(fds, Tgid(task), kind, s, ret, env.user);
    ReplayOneIs(stream, task, kind, s, ret, env);
    StoredIsAnnounced(Tgid(task), kind, s, ret, env.user);
    hide Stored, Announced, FdsAfterExit, ReplayOne, FinishNetwork, Captures, Tgid, ToS32, ToU32;
  }

  /**
   * A kind of exit keeps every map within every account exactly when the sign of its result
   * survives the 32-bit field, or does not matter.
   */
  lemma RecordKeepsAccountIff(task: u64, kind: u32, s: NetworkState, ret: s64, env: ExitEnv)
    requires Captures(NetworkKey(task, kind), NetworkPayload(s))
    ensures (forall fds: set<SocketFd>, stream: set<SocketFd> :: fds <= stream ==>
               FdsAfterExit(fds, Tgid(task), kind, s, ret, env.user)
               <= ReplayOne(stream, NetworkRecord(FinishNetwork(task, kind, s, ret, env))))
            <==> (SignMatters(kind, s, ret, env.user) ==> SignKept(ret))
  {
    SignMattersIff(Tgid(task), kind, s, ret, env.user);
    hide FdsAfterExit, ReplayOne, FinishNetwork, SignKept, SignMatters, Captures, Tgid;
    if SignMatters(kind, s, ret, env.user) ==> SignKept(ret) {
      forall fds: set<SocketFd>, stream: set<SocketFd> | fds <= stream
        ensures FdsAfterExit(fds, Tgid(task), kind, s, ret, env.user)
                <= ReplayOne(stream, NetworkRecord(FinishNetwork(task, kind, s, ret, env)))
      {
        SubmitAgreesIff(fds, stream, task, kind, s, ret, env);
      }
    } else {
      var fd := (Tgid(task), ToU32(s.ev.fd));
      var stream: set<SocketFd> := if ret >= 0 then {} else {fd};
      SubmitAgreesIff(stream, stream, task, kind, s, ret, env);
    }
  }

  lemma SignMattersIff(tgid: u32, kind: u32, s: NetworkState, ret: s64, u: ExitReads)
    ensures SignMatters(kind, s, ret, u) <==> if ret >= 0 then Stored(tgid, kind, s, ret, u) != {} else kind == NETWORK_CLOSE
  {
    hide FinishFds, ToU32;
  }

  // ---- agreement over a run -----------------------------------------------

  /** No known socket is missing from the stream's account. */
  ghost predicate Contained(k: Kernel) { k.socketFds <= Replay(Stream(k.trace)) }

  ghost predicate Agrees(k: Kernel) { k.socketFds == Replay(Stream(k.trace)) }

  /** The step submits the record of a network call. */
  predicate SubmitsNetwork(g: Gates, k: Kernel, s: Step) {
    && s.Exit? && s.key.NetworkKey? && GateOpen(g, s.key) && s.exitEnv.ring
    && s.key in k.pending && k.pending[s.key].NetworkPayload?
  }

  predicate BreaksAccount(g: Gates, k: Kernel, s: Step) {
    SubmitsNetwork(g, k, s)
    && Unaccounted(k.socketFds, Replay(Stream(k.trace)), Tgid(s.key.task), s.key.kind, k.pending[s.key].state, s.ret, s.exitEnv.user)
  }

  predicate BreaksAgreement(g: Gates, k: Kernel, s: Step) {
    SubmitsNetwork(g, k, s)
    && Differs(k.socketFds, Tgid(s.key.task), s.key.kind, k.pending[s.key].state, s.ret, s.exitEnv.user)
  }

  /** A result whose sign survives where it matters breaks no account; every result within 32 bits is one. */
  lemma KeptSignsKeepAccount(g: Gates, k: Kernel, s: Step)
    requires SubmitsNetwork(g, k, s) ==>
               (SignMatters(s.key.kind, k.pending[s.key].state, s.ret, s.exitEnv.user) ==> SignKept(s.ret))
    ensures !BreaksAccount(g, k, s)
    ensures s.Exit? && -TWO_31 <= s.ret < TWO_31 ==> SignKept(s.ret)
  {
    if SubmitsNetwork(g, k, s) {
      hide GateOpen, Stored, SignMatters, Tgid, ToU32, Replay, Stream;
      SignMattersIff(Tgid(s.key.task), s.key.kind, k.pending[s.key].state, s.ret, s.exitEnv.user);
    }
  }

  lemma OtherRecordsReplayNothing(fds: set<SocketFd>, rec: Record)
    requires !rec.NetworkRecord?
    ensures ReplayOne(fds, rec) == fds
  {}

  /** One step keeps the account, or the agreement, exactly when it does not break it. */
  lemma NextAgreesIff(g: Gates, k: Kernel, s: Step)
    requires PayloadsMatch(k) && Contained(k)
    ensures Contained(Next(g, k, s)) <==> !BreaksAccount(g, k, s)
    ensures Agrees(k) ==> (Agrees(Next(g, k, s)) <==> !BreaksAgreement(g, k, s))
  {
    hide OnExit, OnEnter, ReplayOne, GateOpen, FdGateOpen, Stream, Replay, Unaccounted, Differs, PayloadsMatch;
    match s
    case Exit(key, ret, env) => if GateOpen(g, key) { ExitAgreesIff(g, k, key, ret, env); }
    case Enter(key, p, env) => EnterAgrees(k, key, p, env);
    case ProcessHit(ev, ring) =>
      ReplaySnoc(k.trace, ProcessSeen(ev, ring));
      OtherRecordsReplayNothing(Replay(Stream(k.trace)), ProcessRecord(ev));
    case LruEvict(key) => ReplaySnoc(k.trace, LruEvicted(key));
  }

  lemma EnterAgrees(k: Kernel, key: Key, p: Payload, env: EnterEnv)
    ensures Contained(OnEnter(k, key, p, env)) <==> Contained(k)
    ensures Agrees(OnEnter(k, key, p, env)) <==> Agrees(k)
  {
    hide ReplayOne, Stream, Replay;
    ReplaySnoc(k.trace, Entered(key, p, FateOfEnter(k, key, env)));
  }

  lemma ExitAgreesIff(g: Gates, k: Kernel, key: Key, ret: s64, env: ExitEnv)
    requires PayloadsMatch(k) && Contained(k) && GateOpen(g, key)
    ensures Contained(OnExit(k, key, ret, env)) <==> !BreaksAccount(g, k, Exit(key, ret, env))
    ensures Agrees(k) ==> (Agrees(OnExit(k, key, ret, env)) <==> !BreaksAgreement(g, k, Exit(key, ret, env)))
  {
    hide FdsAfterExit, ReplayOne, FinishNetwork, FinishFile, FinishSyscall, Stream, Replay, Unaccounted, Differs, GateOpen, Tgid;
    var fate := FateOfExit(k, key, ret, env);
    ReplaySnoc(k.trace, Exited(key, ret, env, fate));
    if fate.Submitted? {
      assert Captures(key, k.pending[key]);
      if key.NetworkKey? {
        SubmitAgreesIff(k.socketFds, Replay(Stream(k.trace)), key.task, key.kind, k.pending[key].state, ret, env);
      } else {
        OtherRecordsReplayNothing(Replay(Stream(k.trace)), fate.rec);
      }
    }
  }

  lemma {:induction false} RunKeepsPayloads(g: Gates, steps: seq<Step>)
    requires LegalSteps(steps)
    ensures PayloadsMatch(Run(g, steps))
    decreases |steps|
  {
    hide Next, PayloadsMatch, LegalStep;
    if steps == [] { BootAgrees(); } else {
      RunKeepsPayloads(g, steps[..|steps| - 1]);
      NextKeepsPayloads(g, Run(g, steps[..|steps| - 1]), steps[|steps| - 1]);
    }
  }

  lemma BootAgrees()
    ensures PayloadsMatch(BOOT) && Contained(BOOT) && Agrees(BOOT)
  {}

  /** Up to step `n` no step breaks the account. */
  ghost predicate Accounted(g: Gates, steps: seq<Step>, n: nat)
    requires n <= |steps|
  {
    forall m :: 0 <= m < n ==> !BreaksAccount(g, Run(g, steps[..m]), steps[m])
  }

  lemma StepAgreesIff(g: Gates, steps: seq<Step>, n: nat)
    requires LegalSteps(steps) && n < |steps| && Contained(Run(g, steps[..n]))
    ensures Contained(Run(g, steps[..n + 1])) <==> !BreaksAccount(g, Run(g, steps[..n]), steps[n])
    ensures Agrees(Run(g, steps[..n])) ==>
              (Agrees(Run(g, steps[..n + 1])) <==> !BreaksAgreement(g, Run(g, steps[..n]), steps[n]))
  {
    hide Next, BreaksAccount, BreaksAgreement, Contained, Agrees, PayloadsMatch, LegalStep;
    RunKeepsPayloads(g, steps[..n]);
    NextAgreesIff(g, Run(g, steps[..n]), steps[n]);
    assert steps[..n + 1][..n] == steps[..n];
  }

  lemma {:induction false} AccountedIsContained(g: Gates, steps: seq<Step>, n: nat)
    requires LegalSteps(steps) && n <= |steps| && Accounted(g, steps, n)
    ensures Contained(Run(g, steps[..n]))
  {
    hide Next, BreaksAccount, Contained, LegalStep;
    if n == 0 { BootAgrees(); } else {
      AccountedIsContained(g, steps, n - 1);
      StepAgreesIff(g, steps, n - 1);
    }
  }

  /**
   * Throughout a run the fd map claims no socket the submitted records do not account for,
   * exactly when no step submits a record that hides a success which stored a descriptor
   * unknown to the stream, or a failure to close a known one.
   */
  lemma SocketSetIsAccountedFor(g: Gates, steps: seq<Step>)
    requires LegalSteps(steps)
    ensures (forall n :: 0 <= n <= |steps| ==> Contained(Run(g, steps[..n]))) <==> Accounted(g, steps, |steps|)
  {
    hide Run, BreaksAccount, Contained, LegalSteps;
    if forall n :: 0 <= n <= |steps| ==> Contained(Run(g, steps[..n])) {
      forall n | 0 <= n < |steps| ensures !BreaksAccount(g, Run(g, steps[..n]), steps[n]) {
        StepAgreesIff(g, steps, n);
      }
    }
    if Accounted(g, steps, |steps|) {
      forall n | 0 <= n <= |steps| ensures Contained(Run(g, steps[..n])) {
        AccountedIsContained(g, steps, n);
      }
    }
  }

  lemma {:induction false} NeverBrokenAgrees(g: Gates, steps: seq<Step>, n: nat)
    requires LegalSteps(steps) && n <= |steps|
    requires forall m :: 0 <= m < n ==> !BreaksAgreement(g, Run(g, steps[..m]), steps[m])
    ensures Agrees(Run(g, steps[..n]))
  {
    hide Next, BreaksAgreement, LegalStep, Replay, Stream;
    if n == 0 { BootAgrees(); } else {
      NeverBrokenAgrees(g, steps, n - 1);
      StepAgreesIff(g, steps, n - 1);
    }
  }

  /**
   * Throughout a run the fd map is the set the records describe, exactly when besides that no
   * record announces a descriptor that could not be stored or read back and was not known, and
   * none hides a close of a known one.
   */
  lemma SocketSetIsExact(g: Gates, steps: seq<Step>)
    requires LegalSteps(steps)
    ensures (forall n :: 0 <= n <= |steps| ==> Agrees(Run(g, steps[..n])))
            <==> (forall n :: 0 <= n < |steps| ==> !BreaksAgreement(g, Run(g, steps[..n]), steps[n]))
  {
    hide Run, BreaksAgreement, LegalSteps, Replay, Stream;
    if forall n :: 0 <= n <= |steps| ==> Agrees(Run(g, steps[..n])) {
      forall n | 0 <= n < |steps| ensures !BreaksAgreement(g, Run(g, steps[..n]), steps[n]) {
        StepAgreesIff(g, steps, n);
      }
    }
    if forall n :: 0 <= n < |steps| ==> !BreaksAgreement(g, Run(g, steps[..n]), steps[n]) {
      forall n | 0 <= n <= |steps| ensures Agrees(Run(g, steps[..n])) {
        NeverBrokenAgrees(g, steps, n);
      }
    }
  }

  // ---- data-plane records follow a creation -------------------------------

  predicate IsFdGated(key: Key) { key.NetworkKey? && key.kind in FD_GATED }

  /** Every stash of a gated call happened while the stream showed its descriptor open. */
  ghost predicate GatedEntersOpen(trace: seq<Obs>) {
    forall e: nat :: e < |trace| && trace[e].Entered? && IsFdGated(trace[e].key) && trace[e].payload.NetworkPayload? ==>
      OpenAt(trace, e, (Tgid(trace[e].key.task), ToU32(trace[e].payload.state.ev.fd)))
  }

  lemma NextKeepsGatedOpen(g: Gates, k: Kernel, s: Step)
    requires Contained(k) && GatedEntersOpen(k.trace)
    ensures GatedEntersOpen(Next(g, k, s).trace)
  {
    hide OpenAt, Finish, FdsAfterExit, Stream, Replay, GateOpen;
    var after := Next(g, k, s);
    if after.trace != k.trace {
      var o := after.trace[|k.trace|];
      assert after.trace == k.trace + [o];
      forall e: nat
        | e < |after.trace| && after.trace[e].Entered? && IsFdGated(after.trace[e].key) && after.trace[e].payload.NetworkPayload?
        ensures OpenAt(after.trace, e, (Tgid(after.trace[e].key.task), ToU32(after.trace[e].payload.state.ev.fd)))
      {
        var fd := (Tgid(after.trace[e].key.task), ToU32(after.trace[e].payload.state.ev.fd));
        if e == |k.trace| {
          assert fd in k.socketFds;
          ReplayIsOpen(k.trace, fd);
        } else {
          assert after.trace[e] == k.trace[e];
        }
        OpenIsStable(k.trace, o, e, fd);
      }
    }
  }

  lemma {:induction false} RunKeepsGatedOpen(g: Gates, steps: seq<Step>, n: nat)
    requires LegalSteps(steps) && n <= |steps| && Accounted(g, steps, n)
    ensures GatedEntersOpen(Run(g, steps[..n]).trace)
  {
    hide Next, Contained, LegalStep, GatedEntersOpen, BreaksAccount;
    if n == 0 { NothingGatedYet(); } else {
      RunKeepsGatedOpen(g, steps, n - 1);
      AccountedIsContained(g, steps, n - 1);
      NextKeepsGatedOpen(g, Run(g, steps[..n - 1]), steps[n - 1]);
      assert steps[..n][..n - 1] == steps[..n - 1];
    }
  }

  lemma NothingGatedYet()
    ensures GatedEntersOpen(BOOT.trace)
  {}

  /**
   * Every submitted read, write, readv, writev, sendmmsg, recvmmsg or close record follows, in
   * the stream, a creation record for the same process and descriptor, with no successful
   * close of that descriptor between the creation and the operation's enter.
   */
  lemma GatedRecordsFollowCreation(g: Gates, steps: seq<Step>, j: nat)
    requires LegalSteps(steps) && Accounted(g, steps, |steps|)
    requires j < |Run(g, steps).trace|
    ensures var trace := Run(g, steps).trace;
            trace[j].Exited? && IsFdGated(trace[j].key) && trace[j].exitFate.Submitted?
            && trace[j].exitFate.rec.NetworkRecord? ==>
              var fd := (Tgid(trace[j].key.task), ToU32(trace[j].exitFate.rec.netRec.fd));
              exists e: nat :: PairedAt(trace, e, j) && OpenAt(trace, e, fd)
  {
    hide Run, OpenAt, OriginAt, FinishNetwork, FinishFile, FinishSyscall, Accounted, LegalSteps;
    RunKeepsHistory(g, steps);
    RunKeepsGatedOpen(g, steps, |steps|);
    assert steps[..|steps|] == steps;
    var trace := Run(g, steps).trace;
    if trace[j].Exited? && IsFdGated(trace[j].key) && trace[j].exitFate.Submitted? && trace[j].exitFate.rec.NetworkRecord? {
      var e: nat :| PairedAt(trace, e, j);
      PairedKeys(trace, e, j);
      var s := trace[e].payload.state;
      FinishKeepsEnterFields(trace[j].key.task, trace[j].key.kind, s, trace[j].ret, trace[j].env);
      assert trace[j].exitFate.rec.netRec.fd == s.ev.fd;
    }
  }

  lemma PairedKeys(trace: seq<Obs>, e: nat, j: nat)
    requires PairedAt(trace, e, j)
    ensures trace[e].key == trace[j].key
  {
    hide Finish;
  }

  /** The gate lets through only descriptors the stream shows open, exactly while the account holds. */
  lemma GateAdmitsOpenIff(k: Kernel)
    ensures (forall fd :: fd in k.socketFds ==> OpenAt(k.trace, |k.trace|, fd)) <==> Contained(k)
  {
    hide Replay, Stream, OpenAt;
    forall fd ensures fd in Replay(Stream(k.trace)) <==> OpenAt(k.trace, |k.trace|, fd) {
      ReplayIsOpen(k.trace, fd);
    }
  }

  // ---- runs that break the account ----------------------------------------

  const ALL_WELL: EnterEnv := EnterEnv(true, true, true)

  lemma RunOfOne(g: Gates, a: Step)
    ensures Run(g, [a]) == Next(g, BOOT, a)
  {
    hide Next;
    assert [a][..0] == [];
  }

  lemma RunExtends(g: Gates, steps: seq<Step>, a: Step)
    ensures Run(g, steps + [a]) == Next(g, Run(g, steps), a)
  {
    hide Next;
    assert (steps + [a])[..|steps|] == steps;
  }

  /** A socket call, its enter saved and its exit submitted. */
  function SocketCall(task: u64, s: NetworkState, ret: s64, env: ExitEnv): seq<Step> {
    var key := NetworkKey(task, NETWORK_SOCKET);
    [Enter(key, NetworkPayload(s), ALL_WELL), Exit(key, ret, env)]
  }

  lemma SocketStashed(g: Gates, task: u64, s: NetworkState)
    requires GateOpen(g, NetworkKey(task, NETWORK_SOCKET))
    ensures var key := NetworkKey(task, NETWORK_SOCKET);
            Run(g, [Enter(key, NetworkPayload(s), ALL_WELL)])
            == Kernel(map[key := NetworkPayload(s)], {}, [Entered(key, NetworkPayload(s), Saved)])
  {
    hide GateOpen, Run;
    RunOfOne(g, Enter(NetworkKey(task, NETWORK_SOCKET), NetworkPayload(s), ALL_WELL));
  }

  lemma StashSaysNothing(key: Key, p: Payload)
    ensures Replay(Stream([Entered(key, p, Saved)])) == {}
  {
    ReplaySnoc([], Entered(key, p, Saved));
    assert [] + [Entered(key, p, Saved)] == [Entered(key, p, Saved)];
  }

  /** What a successful socket call leaves in the fd map and in the stream's account. */
  lemma SocketReturns(g: Gates, task: u64, s: NetworkState, ret: s64, env: ExitEnv)
    requires Captures(NetworkKey(task, NETWORK_SOCKET), NetworkPayload(s)) && GateOpen(g, NetworkKey(task, NETWORK_SOCKET))
    requires env.ring && env.user.store0 && ret >= 0
    ensures var k := Run(g, SocketCall(task, s, ret, env));
            var fd := (Tgid(task), ToU32(ToS32(ret)));
            && k.pending == map[] && k.socketFds == {fd}
            && Replay(Stream(k.trace)) == if ToS32(ret) < 0 then {} else {fd}
  {
    hide FinishNetwork, GateOpen, Tgid, ToU32, ToS32, Run, Captures, Stream, Replay, FdsAfterExit, ReplayOne;
    var key := NetworkKey(task, NETWORK_SOCKET);
    var a, b := Enter(key, NetworkPayload(s), ALL_WELL), Exit(key, ret, env);
    assert SocketCall(task, s, ret, env) == [a] + [b];
    SocketStashed(g, task, s);
    RunExtends(g, [a], b);
    var k := Run(g, [a]);
    StashSaysNothing(key, NetworkPayload(s));
    ReplaySnoc(k.trace, Exited(key, ret, env, FateOfExit(k, key, ret, env)));
    ReplayOneIs({}, task, NETWORK_SOCKET, s, ret, env);
    FdsAfterExitIs({}, Tgid(task), NETWORK_SOCKET, s, ret, env.user);
  }

  /** A socket() that returns 2^31 is stored as a descriptor, but its record says the call failed. */
  lemma SignLostRun(g: Gates, task: u64, s: NetworkState, env: ExitEnv)
    requires Captures(NetworkKey(task, NETWORK_SOCKET), NetworkPayload(s)) && GateOpen(g, NetworkKey(task, NETWORK_SOCKET))
    requires env.ring && env.user.store0
    ensures var k := Run(g, SocketCall(task, s, TWO_31, env));
            !Contained(k) && (Tgid(task), TWO_31) in k.socketFds && Replay(Stream(k.trace)) == {}
  {
    hide GateOpen, Tgid, Run, SocketCall, Captures, Stream, Replay;
    SocketReturns(g, task, s, TWO_31, env);
    assert ToU32(ToS32(TWO_31)) == TWO_31;
  }

  /** A read of that descriptor then passes the gate, though no record ever announced the socket. */
  lemma HiddenSocketPassesGate(g: Gates, task: u64, s: NetworkState, env: ExitEnv, r: NetworkState)
    requires Captures(NetworkKey(task, NETWORK_SOCKET), NetworkPayload(s)) && GateOpen(g, NetworkKey(task, NETWORK_SOCKET))
    requires env.ring && env.user.store0
    requires GateOpen(g, NetworkKey(task, NETWORK_READ)) && r.ev.fd == -TWO_31
    ensures var enter := Enter(NetworkKey(task, NETWORK_READ), NetworkPayload(r), ALL_WELL);
            !GatedEntersOpen(Run(g, SocketCall(task, s, TWO_31, env) + [enter]).trace)
  {
    hide Run, GateOpen, Tgid, FinishNetwork, SocketCall, OpenAt, Stream, Replay;
    var key := NetworkKey(task, NETWORK_READ);
    var steps, enter := SocketCall(task, s, TWO_31, env), Enter(key, NetworkPayload(r), ALL_WELL);
    SignLostRun(g, task, s, env);
    RunExtends(g, steps, enter);
    var k := Run(g, steps);
    assert ToU32(r.ev.fd) == TWO_31;
    assert FdGateOpen(k, key, NetworkPayload(r));
    var o := Entered(key, NetworkPayload(r), FateOfEnter(k, key, ALL_WELL));
    assert Run(g, steps + [enter]).trace == k.trace + [o];
    ReplayIsOpen(k.trace, (Tgid(task), TWO_31));
    StillNotOpen(k.trace, o, (Tgid(task), TWO_31));
    assert (k.trace + [o])[|k.trace|] == o;
  }

  lemma StillNotOpen(trace: seq<Obs>, o: Obs, fd: SocketFd)
    requires !OpenAt(trace, |trace|, fd)
    ensures !OpenAt(trace + [o], |trace|, fd)
  {
    hide Creates, ClosesFd;
    var all := trace + [o];
    assert forall m :: 0 <= m < |trace| ==> all[m] == trace[m];
  }

  /** A close that fails with -2^32 keeps the descriptor, but its record says the socket was closed. */
  lemma HiddenFailureRun(g: Gates, task: u64, s: NetworkState, env: ExitEnv, c: NetworkState, last: ExitEnv)
    requires Captures(NetworkKey(task, NETWORK_SOCKET), NetworkPayload(s)) && GateOpen(g, NetworkKey(task, NETWORK_SOCKET))
    requires Captures(NetworkKey(task, NETWORK_CLOSE), NetworkPayload(c)) && GateOpen(g, NetworkKey(task, NETWORK_CLOSE))
    requires env.ring && env.user.store0 && last.ring && c.ev.fd == 3
    ensures var key := NetworkKey(task, NETWORK_CLOSE);
            var k := Run(g, SocketCall(task, s, 3, env) + [Enter(key, NetworkPayload(c), ALL_WELL)] + [Exit(key, -TWO_32, last)]);
            !Contained(k) && (Tgid(task), 3) in k.socketFds && Replay(Stream(k.trace)) == {}
  {
    hide Run, FinishNetwork, GateOpen, Tgid, SocketCall, Stream, Replay;
    var key := NetworkKey(task, NETWORK_CLOSE);
    var steps := SocketCall(task, s, 3, env);
    var enter, exit := Enter(key, NetworkPayload(c), ALL_WELL), Exit(key, -TWO_32, last);
    SocketReturns(g, task, s, 3, env);
    RunExtends(g, steps, enter);
    RunExtends(g, steps + [enter], exit);
    var k1, k2 := Run(g, steps), Run(g, steps + [enter]);
    assert FdGateOpen(k1, key, NetworkPayload(c));
    ReplaySnoc(k1.trace, Entered(key, NetworkPayload(c), Saved));
    ReplaySnoc(k2.trace, Exited(key, -TWO_32, last, FateOfExit(k2, key, -TWO_32, last)));
    ReplayOneIs({(Tgid(task), 3)}, task, NETWORK_CLOSE, c, -TWO_32, last);
  }

  /** A read the gate drops is passed over: the exit after it completes the read before, of another descriptor. */
  lemma GatedEnterIsPassedOver(g: Gates, task: u64, s: NetworkState, env: ExitEnv, r: NetworkState, q: NetworkState,
                               ret: s64, last: ExitEnv)
    requires Captures(NetworkKey(task, NETWORK_SOCKET), NetworkPayload(s)) && GateOpen(g, NetworkKey(task, NETWORK_SOCKET))
    requires env.ring && env.user.store0 && last.ring
    requires GateOpen(g, NetworkKey(task, NETWORK_READ)) && r.ev.fd == 3 && q.ev.fd == 7
    ensures var key := NetworkKey(task, NETWORK_READ);
            var calls := SocketCall(task, s, 3, env) + [Enter(key, NetworkPayload(r), ALL_WELL)] + [Enter(key, NetworkPayload(q), ALL_WELL)];
            Run(g, calls + [Exit(key, ret, last)]).trace
            == Run(g, calls).trace + [Exited(key, ret, last, Submitted(Finish(key, NetworkPayload(r), ret, last)))]
  {
    hide Run, GateOpen, Tgid, SocketCall, Stream, Replay, Finish, FdsAfterExit;
    var key := NetworkKey(task, NETWORK_READ);
    var one := SocketCall(task, s, 3, env);
    var two := one + [Enter(key, NetworkPayload(r), ALL_WELL)];
    var three := two + [Enter(key, NetworkPayload(q), ALL_WELL)];
    SocketReturns(g, task, s, 3, env);
    RunExtends(g, one, Enter(key, NetworkPayload(r), ALL_WELL));
    RunExtends(g, two, Enter(key, NetworkPayload(q), ALL_WELL));
    RunExtends(g, three, Exit(key, ret, last));
    assert FdGateOpen(Run(g, one), key, NetworkPayload(r));
    assert !FdGateOpen(Run(g, two), key, NetworkPayload(q));
  }
}
