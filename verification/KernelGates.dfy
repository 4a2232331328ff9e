/** The configuration gates: what they keep out of the stream, and what they let through. */
module KernelGates {
  import opened Primitives
  import opened EventSchema
  import opened KernelModel
  import KernelSockets
  import JsonRecord

  /** Userspace asked for this record: its process is not the suppressed one and its kind is on. */
  predicate Wanted(g: Gates, r: Record) {
    && (g.suppressTgid == 0 || JsonRecord.HeaderOf(r).tgid != g.suppressTgid)
    && match r
       case ProcessRecord(ev) => ev.kind in g.processOn
       case FileRecord(ev) => ev.kind in g.fileOn
       case SyscallRecord(_) => g.syscallOn
       case NetworkRecord(ev) => ev.kind in g.networkOn
  }

  predicate AllWanted(g: Gates, rs: seq<Record>) { forall i :: 0 <= i < |rs| ==> Wanted(g, rs[i]) }

  ghost predicate OnlyWanted(g: Gates, k: Kernel) {
    KernelSockets.PayloadsMatch(k) && AllWanted(g, Stream(k.trace))
  }

  /** A record completed for a key whose gate is open is a wanted one. */
  lemma FinishedIsWanted(g: Gates, key: Key, p: Payload, ret: s64, env: ExitEnv)
    requires GateOpen(g, key) && Captures(key, p)
    ensures Wanted(g, Finish(key, p, ret, env))
  {
    if key.NetworkKey? {
      hide FinishNetwork;
      KernelSockets.FinishUsesFds(key.task, key.kind, p.state, ret, env);
    }
  }

  lemma NextIsWanted(g: Gates, k: Kernel, s: Step)
    requires OnlyWanted(g, k) && LegalStep(s)
    ensures OnlyWanted(g, Next(g, k, s))
  {
    hide Wanted, Finish, FdsAfterExit, GateOpen, FdGateOpen, Stream, Captures, KernelSockets.PayloadsMatch;
    KernelSockets.NextKeepsPayloads(g, k, s);
    match s
    case Enter(key, p, env) => KernelSockets.StreamSnoc(k.trace, Entered(key, p, FateOfEnter(k, key, env)));
    case Exit(key, ret, env) =>
      KernelSockets.StreamSnoc(k.trace, Exited(key, ret, env, FateOfExit(k, key, ret, env)));
      if key in k.pending && GateOpen(g, key) {
        StashCaptures(k, key);
        FinishedIsWanted(g, key, k.pending[key], ret, env);
      }
    case LruEvict(key) => KernelSockets.StreamSnoc(k.trace, LruEvicted(key));
    case ProcessHit(ev, ring) =>
      KernelSockets.StreamSnoc(k.trace, ProcessSeen(ev, ring));
      ProcessIsWanted(g, ev);
  }

  lemma StashCaptures(k: Kernel, key: Key)
    requires KernelSockets.PayloadsMatch(k) && key in k.pending
    ensures Captures(key, k.pending[key])
  {}

  lemma ProcessIsWanted(g: Gates, ev: ProcessEvent)
    ensures (g.suppressTgid == 0 || ev.hdr.tgid != g.suppressTgid) && ev.kind in g.processOn <==> Wanted(g, ProcessRecord(ev))
  {}

  /** Nothing of the suppressed process and nothing of a disabled kind ever enters the stream. */
  lemma {:induction false} StreamIsWanted(g: Gates, steps: seq<Step>)
    requires LegalSteps(steps)
    ensures OnlyWanted(g, Run(g, steps))
    decreases |steps|
  {
    hide Next, OnlyWanted, LegalStep;
    if steps == [] { BootIsWanted(g); } else {
      StreamIsWanted(g, steps[..|steps| - 1]);
      NextIsWanted(g, Run(g, steps[..|steps| - 1]), steps[|steps| - 1]);
    }
  }

  lemma BootIsWanted(g: Gates)
    ensures OnlyWanted(g, BOOT)
  {}

  /**
   * A wanted call whose descriptor gate is open is recorded: with room and nothing stashed, its
   * enter and exit add exactly its completed record. Unwanted, they leave no observation.
   */
  lemma CallIsRecordedIff(g: Gates, k: Kernel, key: Key, p: Payload, ret: s64, env: ExitEnv)
    requires Captures(key, p) && key !in k.pending && env.ring
    requires key.NetworkKey? && key.kind in FD_GATED ==> (Tgid(key.task), ToU32(p.state.ev.fd)) in k.socketFds
    ensures var after := Next(g, Next(g, k, Enter(key, p, EnterEnv(true, true, true))), Exit(key, ret, env));
            Stream(after.trace) == if Wanted(g, Finish(key, p, ret, env)) then Stream(k.trace) + [Finish(key, p, ret, env)]
                                   else Stream(k.trace)
  {
    hide Wanted, Finish, FdsAfterExit, GateOpen, Stream, Captures;
    var ok := EnterEnv(true, true, true);
    var entered := Next(g, k, Enter(key, p, ok));
    WantedIffOpen(g, key, p, ret, env);
    assert FdGateOpen(k, key, p);
    if GateOpen(g, key) {
      KernelSockets.StreamSnoc(k.trace, Entered(key, p, Saved));
      KernelSockets.StreamSnoc(entered.trace, Exited(key, ret, env, Submitted(Finish(key, p, ret, env))));
    }
  }

  lemma WantedIffOpen(g: Gates, key: Key, p: Payload, ret: s64, env: ExitEnv)
    requires Captures(key, p)
    ensures GateOpen(g, key) <==> Wanted(g, Finish(key, p, ret, env))
  {
    if key.NetworkKey? {
      hide FinishNetwork;
      KernelSockets.FinishUsesFds(key.task, key.kind, p.state, ret, env);
    }
  }

  /** When an enter leaves a stash behind: everything has to go right, and nothing may be there yet. */
  lemma EnterStashesIff(g: Gates, k: Kernel, key: Key, p: Payload, env: EnterEnv, ret: s64, exitEnv: ExitEnv)
    requires Captures(key, p)
    ensures var after := Next(g, k, Enter(key, p, env));
            after.pending == if && Wanted(g, Finish(key, p, ret, exitEnv)) && key !in k.pending && env.ring && env.store
                                && (key.NetworkKey? ==> env.scratch)
                                && (key.NetworkKey? && key.kind in {NETWORK_READ, NETWORK_WRITE, NETWORK_READV, NETWORK_WRITEV,
                                                                    NETWORK_SENDMMSG, NETWORK_RECVMMSG, NETWORK_CLOSE} ==>
                                      (Tgid(key.task), ToU32(p.state.ev.fd)) in k.socketFds)
                             then k.pending[key := p] else k.pending
  {
    hide Wanted, Finish, GateOpen;
    WantedIffOpen(g, key, p, ret, exitEnv);
  }

  /** A process event is recorded exactly when it is wanted and there is room. */
  lemma ProcessIsRecordedIff(g: Gates, k: Kernel, ev: ProcessEvent, room: bool)
    ensures Stream(Next(g, k, ProcessHit(ev, room)).trace)
            == Stream(k.trace) + if Wanted(g, ProcessRecord(ev)) && room then [ProcessRecord(ev)] else []
  {
    hide Stream;
    KernelSockets.StreamSnoc(k.trace, ProcessSeen(ev, room));
    ProcessIsWanted(g, ev);
  }
}
