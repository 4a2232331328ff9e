/**
 * From the tracepoints to the file: kernel side, ring buffer, decoder and sink put together.
 */
module Pipeline {
  import opened Primitives
  import opened EventSchema
  import opened KernelModel
  import opened KernelCapture
  import opened WireFormat
  import opened Decoder
  import KernelSockets
  import Sockaddr
  import JsonRecord
  import SinkModel
  import SinkRuns
  import Normalizer
  import RegistryModel
  import RegistryInvariants
  import RegistryRuns

  // ---- what the kernel side submits, the decoder accepts ------------------

  function Plainly(r: Record): EventVariant { EventVariant(r, NO_EXTRAS) }

  /** The record has the schema's array sizes and its header says what it is. */
  predicate Ready(r: Record) { Fits(Plainly(r)) && Consistent(r) }

  predicate PayloadReady(p: Payload) {
    match p
    case FilePayload(ev) => Ready(FileRecord(ev))
    case SyscallPayload(ev) => Ready(SyscallRecord(ev))
    case NetworkPayload(s) => Ready(NetworkRecord(s.ev))
  }

  predicate ReadsReady(u: ExitReads) { EndpointFits(u.endpoint) && |u.optval| == 16 }

  predicate StepReady(s: Step) {
    match s
    case Enter(_, p, _) => PayloadReady(p)
    case Exit(_, _, env) => ReadsReady(env.user)
    case LruEvict(_) => true
    case ProcessHit(ev, _) => Ready(ProcessRecord(ev))
  }

  predicate StepsReady(steps: seq<Step>) { forall i :: 0 <= i < |steps| ==> StepReady(steps[i]) }

  predicate AllReady(rs: seq<Record>) { forall i :: 0 <= i < |rs| ==> Ready(rs[i]) }

  ghost predicate KernelReady(k: Kernel) {
    (forall key :: key in k.pending ==> PayloadReady(k.pending[key])) && AllReady(Stream(k.trace))
  }

  lemma FinishIsReady(key: Key, p: Payload, ret: s64, env: ExitEnv)
    requires PayloadReady(p) && ReadsReady(env.user)
    ensures Ready(Finish(key, p, ret, env))
  {
    hide FitsArray, ToS32;
  }

  lemma NextIsReady(g: Gates, k: Kernel, s: Step)
    requires KernelReady(k) && StepReady(s)
    ensures KernelReady(Next(g, k, s))
  {
    hide Ready, Finish, FdsAfterExit, GateOpen, FdGateOpen, Stream, ReadsReady, PayloadReady;
    match s
    case Enter(key, p, env) => KernelSockets.StreamSnoc(k.trace, Entered(key, p, FateOfEnter(k, key, env)));
    case Exit(key, ret, env) =>
      KernelSockets.StreamSnoc(k.trace, Exited(key, ret, env, FateOfExit(k, key, ret, env)));
      if key in k.pending {
        FinishIsReady(key, k.pending[key], ret, env);
      }
    case LruEvict(key) => KernelSockets.StreamSnoc(k.trace, LruEvicted(key));
    case ProcessHit(ev, ring) => KernelSockets.StreamSnoc(k.trace, ProcessSeen(ev, ring));
  }

  lemma {:induction false} RunIsReady(g: Gates, steps: seq<Step>)
    requires StepsReady(steps)
    ensures KernelReady(Run(g, steps))
    decreases |steps|
  {
    hide Next, StepReady, Ready;
    if steps != [] {
      RunIsReady(g, steps[..|steps| - 1]);
      NextIsReady(g, Run(g, steps[..|steps| - 1]), steps[|steps| - 1]);
    }
  }

  /** What userspace gets for a record submitted from memory that held `memory`. */
  function Delivered(r: Record, memory: Bytes): Option<Record>
    requires Ready(r) && |memory| == FamilySize(r)
  {
    match Decode(Encode(Plainly(r), memory)) case Some(v) => Some(v.record) case None => None
  }

  /** Nothing the kernel side submits is rejected or altered by the decoder. */
  lemma SubmittedRecordsDecode(g: Gates, steps: seq<Step>, i: nat, memory: Bytes)
    requires StepsReady(steps)
    requires i < |Stream(Run(g, steps).trace)| && |memory| == FamilySize(Stream(Run(g, steps).trace)[i])
    ensures Ready(Stream(Run(g, steps).trace)[i])
    ensures Delivered(Stream(Run(g, steps).trace)[i], memory) == Some(Stream(Run(g, steps).trace)[i])
  {
    hide Run, Stream, Fits, Encode, Decode, Consistent, StepsReady;
    RunIsReady(g, steps);
    var r := Stream(Run(g, steps).trace)[i];
    DecodeInvertsEncodeIff(Plainly(r), memory, []);
    assert Encode(Plainly(r), memory) + [] == Encode(Plainly(r), memory);
  }

  // ---- the handlers stash such records ------------------------------------

  lemma CapturesAreReady(t: Task, kind: u32, nr: s32, a: Args, u: EnterReads, v: ProcessReads)
    requires FitsArray(t.comm, 16) && FitsArray(u.pathA, 256) && FitsArray(u.pathB, 256)
    requires EndpointFits(u.endpoint) && |u.optval| == 16
    requires FitsArray(v.execPath, 256)
    ensures Ready(ProcessRecord(CaptureProcess(t, kind, v)))
    ensures PayloadReady(FilePayload(CaptureFile(t, kind, a, u)))
    ensures PayloadReady(SyscallPayload(CaptureSyscall(t, nr, a)))
    ensures PayloadReady(NetworkPayload(CaptureNetwork(t, kind, a, u)))
  {
    hide FitsArray, ToS32, ToS64, InferTransport, InferDirection, Pid, Tgid;
    assert FitsArray("", 256) && FitsArray("", 16) && FitsArray("", UNIX_PATH_LEN) by {
      EmptyFits(256);
      EmptyFits(16);
      EmptyFits(UNIX_PATH_LEN);
    }
  }

  lemma EmptyFits(n: nat)
    requires n > 0
    ensures FitsArray("", n)
  {}

  /** Every snapshot the address parser makes fits the record. */
  lemma SnapshotFits(m: Sockaddr.AddressReads, len: u32)
    requires Sockaddr.BigEnough(m)
    ensures EndpointFits(Sockaddr.ParsedSockaddr(m, len))
  {
    Sockaddr.SnapshotIsWellFormed(m, len);
    Sockaddr.SnapshotIsBytes(m, len);
  }

  // ---- the file shows the stream ------------------------------------------

  /** The view a line gives of a record and of the event it travels in. */
  function ViewOf(r: Record, c: JsonRecord.CanonicalEvent): JsonRecord.Printed {
    JsonRecord.Printed(JsonRecord.VisibleRecord(r), JsonRecord.RichOf(c.subjectProcess), c.subjectId, c.objectId)
  }

  /** Some of the indices below `n`, in order. */
  predicate Picks(picked: seq<nat>, n: nat) {
    (forall i :: 0 <= i < |picked| ==> picked[i] < n) && forall i, j :: 0 <= i < j < |picked| ==> picked[i] < picked[j]
  }

  /** The writes hand over, in order, the delivered records that the self filter and the policy let through. */
  predicate Forwards(stream: seq<Record>, memories: seq<Bytes>, picked: seq<nat>, writes: seq<SinkRuns.WriteCall>) {
    && |memories| == |stream| && |picked| == |writes| && Picks(picked, |stream|)
    && forall i :: 0 <= i < |picked| ==>
         var r := stream[picked[i]];
         Ready(r) && |memories[picked[i]]| == FamilySize(r) && writes[i].0.raw == Delivered(r, memories[picked[i]])
  }

  lemma {:induction false} AllEventsCarry(writes: seq<SinkRuns.WriteCall>)
    requires forall i :: 0 <= i < |writes| ==> writes[i].0.raw.Some?
    ensures |SinkRuns.Events(writes)| == |writes|
    ensures forall i :: 0 <= i < |writes| ==> SinkRuns.Events(writes)[i] == writes[i].0
    decreases |writes|
  {
    if writes != [] {
      AllEventsCarry(writes[..|writes| - 1]);
    }
  }

  /**
   * Without a size limit the file reads back, after what it held before, as every record of the
   * kernel side that was let through, in the order of submission, field for field as far as it
   * is printed.
   */
  lemma FileShowsTheStream(g: Gates, steps: seq<Step>, memories: seq<Bytes>, picked: seq<nat>, original: string,
                           open: SinkModel.OpenEnv, writes: seq<SinkRuns.WriteCall>)
    requires StepsReady(steps)
    requires open.canOpen && Forwards(Stream(Run(g, steps).trace), memories, picked, writes)
    ensures var stream, file := Stream(Run(g, steps).trace), SinkRuns.Run(original, 0, open, writes).file;
            && original <= file
            && SinkRuns.ReadAll(file[|original|..])
               == seq(|picked|, i requires 0 <= i < |picked| => Some(ViewOf(stream[picked[i]], writes[i].0)))
  {
    hide Run, Stream, Ready, Delivered, StepsReady, JsonRecord.VisibleRecord, JsonRecord.RichOf;
    hide SinkRuns.Run, SinkRuns.ReadAll, SinkRuns.Events, SinkRuns.Lines, SinkModel.Concat;
    var stream := Stream(Run(g, steps).trace);
    ForwardedIsTheStream(g, steps, memories, picked, writes);
    var events := SinkRuns.Events(writes);
    SinkRuns.NoLimitNoRotation(original, open, writes);
    SinkRuns.ReadAllLines(events);
    var file := SinkRuns.Run(original, 0, open, writes).file;
    assert file[|original|..] == SinkModel.Concat(SinkRuns.Lines(events));
    var views := SinkRuns.Views(events);
    assert forall i :: 0 <= i < |picked| ==> views[i] == Some(ViewOf(stream[picked[i]], writes[i].0));
  }

  lemma ForwardedIsTheStream(g: Gates, steps: seq<Step>, memories: seq<Bytes>, picked: seq<nat>, writes: seq<SinkRuns.WriteCall>)
    requires StepsReady(steps)
    requires Forwards(Stream(Run(g, steps).trace), memories, picked, writes)
    ensures var stream := Stream(Run(g, steps).trace);
            && |picked| == |writes| == |SinkRuns.Events(writes)| && Picks(picked, |stream|)
            && (forall i :: 0 <= i < |picked| ==> writes[i].0.raw == Some(stream[picked[i]]))
            && forall i :: 0 <= i < |picked| ==> SinkRuns.Events(writes)[i] == writes[i].0
  {
    hide Run, Stream, Ready, Delivered, StepsReady, SinkRuns.Events;
    var stream := Stream(Run(g, steps).trace);
    forall i | 0 <= i < |picked|
      ensures writes[i].0.raw == Some(stream[picked[i]])
    {
      SubmittedRecordsDecode(g, steps, picked[i], memories[picked[i]]);
    }
    AllEventsCarry(writes);
  }

  /** The file shows the latest of the picked records, behind what it held before if anything. */
  predicate ShowsFrom(s: SinkModel.Sink, original: string, stream: seq<Record>, picked: seq<nat>, writes: seq<SinkRuns.WriteCall>)
    requires |picked| == |writes| && Picks(picked, |stream|)
  {
    && |s.kept| <= |picked| && s.base <= s.file
    && (s.base == "" || (s.base == original && |s.kept| == |picked|))
    && var first := |picked| - |s.kept|;
       SinkRuns.ReadAll(s.file[|s.base|..])
       == seq(|s.kept|, i requires 0 <= i < |s.kept| => Some(ViewOf(stream[picked[first + i]], writes[first + i].0)))
  }

  /**
   * Whatever the size limit, while the sink is ready the file reads back as the latest records
   * let through, in the order of submission and without a gap: all of them after its original
   * content, if it was never started anew.
   */
  lemma FileShowsTheLatest(g: Gates, steps: seq<Step>, memories: seq<Bytes>, picked: seq<nat>, original: string, limit: u64,
                           open: SinkModel.OpenEnv, writes: seq<SinkRuns.WriteCall>)
    requires StepsReady(steps) && Forwards(Stream(Run(g, steps).trace), memories, picked, writes)
    ensures var s := SinkRuns.Run(original, limit, open, writes);
            s.ready ==> ShowsFrom(s, original, Stream(Run(g, steps).trace), picked, writes)
  {
    hide Run, Stream, Ready, Delivered, StepsReady, JsonRecord.VisibleRecord, JsonRecord.RichOf;
    hide SinkRuns.Run, SinkRuns.ReadAll, SinkRuns.Events;
    var stream, s, events := Stream(Run(g, steps).trace), SinkRuns.Run(original, limit, open, writes), SinkRuns.Events(writes);
    if s.ready {
      ForwardedIsTheStream(g, steps, memories, picked, writes);
      SinkRuns.FileReadsBack(original, limit, open, writes);
      var first := |picked| - |s.kept|;
      var views := SinkRuns.Views(events[first..]);
      assert forall i :: 0 <= i < |s.kept| ==> views[i] == Some(ViewOf(stream[picked[first + i]], writes[first + i].0));
    }
  }

  // ---- entity ids ---------------------------------------------------------

  /**
   * The registry ingests records in order, more of them than are written; `at[i]` is the step in
   * which it ingested the record of write `i`, and the write carries its answer.
   */
  predicate ResolvedBy(stream: seq<Record>, picked: seq<nat>, reg: seq<RegistryModel.Step>, at: seq<nat>,
                       writes: seq<SinkRuns.WriteCall>)
  {
    && |at| == |picked| == |writes| && Picks(picked, |stream|) && Picks(at, |reg|)
    && forall i :: 0 <= i < |at| ==>
         && reg[at[i]].ev == Normalizer.Normalize(stream[picked[i]])
         && var res := RegistryModel.Ingest(RegistryModel.Run(reg[..at[i]]), reg[at[i]]).1;
            && writes[i].0.subjectId == res.subjectId
            && writes[i].0.subjectProcess == res.subjectProcess
            && writes[i].0.objectId == match res.objectId case Some(id) => id case None => 0
  }

  /** The process key a printed record shows. */
  function PrintedKey(p: JsonRecord.Printed): u32 {
    var h := JsonRecord.HeaderOf(p.raw);
    RegistryModel.KeyOf(h.pid, h.tgid)
  }

  lemma PrintedKeyIsActors(r: Record, c: JsonRecord.CanonicalEvent)
    ensures PrintedKey(ViewOf(r, c)) == RegistryModel.ActorKey(Normalizer.Normalize(r).actor)
  {
    hide JsonRecord.RichOf, Sockaddr.CString, JsonRecord.VisibleEndpoint;
  }

  /** Nothing retired the entity of step `i` between the resolutions of steps `i` and `j`. */
  predicate LivesBetween(reg: seq<RegistryModel.Step>, i: nat, j: nat)
    requires i < j < |reg|
  {
    var p := RegistryRuns.ResolvedAt(RegistryModel.Run(reg[..i]), reg[i]);
    var q := RegistryRuns.ResolvedAt(RegistryModel.Run(reg[..j]), reg[j]);
    var notes := RegistryModel.Run(reg).notes;
    p + 1 <= q <= |notes| && !RegistryInvariants.RetiredIn(notes, p + 1, q, RegistryModel.SubjectId(reg, i))
  }

  /** For records with a process key: one entity id exactly for one key whose entity lived on between the steps. */
  predicate SameEntityIff(a: JsonRecord.Printed, b: JsonRecord.Printed, reg: seq<RegistryModel.Step>, i: nat, j: nat)
    requires i < j < |reg|
  {
    PrintedKey(a) != 0 && PrintedKey(b) != 0 ==>
      (a.subjectId == b.subjectId <==> PrintedKey(a) == PrintedKey(b) && LivesBetween(reg, i, j))
  }

  /** Two written records share their entity id exactly when they share the key and nothing retired the entity between. */
  lemma WrittenIdsTellEntities(stream: seq<Record>, picked: seq<nat>, reg: seq<RegistryModel.Step>, at: seq<nat>,
                               writes: seq<SinkRuns.WriteCall>, i: nat, j: nat)
    requires ResolvedBy(stream, picked, reg, at, writes) && i < j < |picked|
    ensures var a, b := ViewOf(stream[picked[i]], writes[i].0), ViewOf(stream[picked[j]], writes[j].0);
            SameEntityIff(a, b, reg, at[i], at[j])
  {
    hide ViewOf, PrintedKey, Normalizer.Normalize, RegistryModel.Run, RegistryModel.Ingest, RegistryRuns.ResolvedAt, RegistryModel.ActorKey;
    ViewCarriesId(stream[picked[i]], writes[i].0);
    ViewCarriesId(stream[picked[j]], writes[j].0);
    PrintedKeyIsActors(stream[picked[i]], writes[i].0);
    PrintedKeyIsActors(stream[picked[j]], writes[j].0);
    if PrintedKey(ViewOf(stream[picked[i]], writes[i].0)) != 0 && PrintedKey(ViewOf(stream[picked[j]], writes[j].0)) != 0 {
      RegistryRuns.StableIdentity(reg, at[i], at[j]);
    }
  }

  /** Lines `x` and `y` of what the sink put into the file read back, and show one entity id as they should. */
  predicate LinesTellEntities(s: SinkModel.Sink, reg: seq<RegistryModel.Step>, at: seq<nat>, x: nat, y: nat)
    requires Picks(at, |reg|) && x < y < |s.kept|
  {
    |s.kept| <= |at| && s.base <= s.file
    && var lines, first := SinkRuns.ReadAll(s.file[|s.base|..]), |at| - |s.kept|;
       |lines| == |s.kept| && lines[x].Some? && lines[y].Some?
       && SameEntityIff(lines[x].value, lines[y].value, reg, at[first + x], at[first + y])
  }

  /**
   * Two lines of the file, however far apart, print the same entity id exactly when they print
   * the same process key and nothing retired that entity between the two.
   */
  lemma PrintedIdsTellEntities(g: Gates, steps: seq<Step>, memories: seq<Bytes>, picked: seq<nat>, original: string, limit: u64,
                               open: SinkModel.OpenEnv, writes: seq<SinkRuns.WriteCall>, reg: seq<RegistryModel.Step>,
                               at: seq<nat>, x: nat, y: nat)
    requires StepsReady(steps)
    requires Forwards(Stream(Run(g, steps).trace), memories, picked, writes)
    requires ResolvedBy(Stream(Run(g, steps).trace), picked, reg, at, writes)
    ensures var s := SinkRuns.Run(original, limit, open, writes);
            s.ready && x < y < |s.kept| ==> LinesTellEntities(s, reg, at, x, y)
  {
    hide Run, Stream, StepsReady, Forwards, ViewOf, PrintedKey, SinkRuns.Run, SinkRuns.ReadAll, Normalizer.Normalize;
    hide RegistryModel.Run, RegistryModel.Ingest, RegistryModel.ActorKey, SameEntityIff;
    FileShowsTheLatest(g, steps, memories, picked, original, limit, open, writes);
    var stream, s := Stream(Run(g, steps).trace), SinkRuns.Run(original, limit, open, writes);
    if s.ready && x < y < |s.kept| {
      var first := |at| - |s.kept|;
      WrittenIdsTellEntities(stream, picked, reg, at, writes, first + x, first + y);
    }
  }

  lemma ViewCarriesId(r: Record, c: JsonRecord.CanonicalEvent)
    ensures ViewOf(r, c).subjectId == c.subjectId
  {}
}
